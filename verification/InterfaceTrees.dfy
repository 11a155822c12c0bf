/** Extract and remove over trees of inlined documents. */
module InterfaceTrees {
  import opened InterfaceAlgebra

  // ----- when the operations succeed -----

  /** A file yields a slice exactly when it has the architecture; the calls on its
      documents cannot fail. */
  lemma {:induction false} ExtractSucceeds(f: File, a: Arch)
    ensures Extract(f, a).Ok? <==> a in Archs(f)
    decreases f
  {
    if a in Archs(f) {
      ExtractAllSucceeds(f.documents, a);
    }
  }

  lemma {:induction false} ExtractAllSucceeds(ds: seq<File>, a: Arch)
    ensures ExtractAll(ds, a).Ok?
    decreases ds
  {
    if ds != [] {
      ExtractSucceeds(ds[0], a);
      ExtractAllSucceeds(ds[1..], a);
    }
  }

  /** An architecture can be removed exactly when it is not the only one and the
      file or a document directly in it has it. */
  lemma {:induction false} RemoveSucceeds(f: File, a: Arch)
    ensures Remove(f, a).Ok? <==>
            Archs(f) != Single(a) && (a in Archs(f) || exists i :: 0 <= i < |f.documents| && a in Archs(f.documents[i]))
    decreases f
  {
    RemoveAllSucceeds(f.documents, a);
  }

  lemma {:induction false} RemoveAllSucceeds(ds: seq<File>, a: Arch)
    ensures RemoveAll(ds, a).Ok?
    decreases ds
  {
    if ds != [] {
      RemoveSucceeds(ds[0], a);
      RemoveAllSucceeds(ds[1..], a);
    }
  }

  // ----- what is in the slices -----

  /** Every target of the file itself, umbrellas aside, passes the test. */
  predicate TargetsPass(f: File, ok: Arch -> bool) {
    (forall t :: t in f.targets ==> ok(t.arch)) && (forall p :: p in f.clients ==> ok(p.1.arch)) &&
    (forall p :: p in f.reexports ==> ok(p.1.arch)) && (forall t :: t in f.uuids ==> ok(t.arch)) &&
    (forall k, t :: k in f.symbols && t in f.symbols[k].avail ==> ok(t.arch))
  }

  /** So does every target of every document inside it. */
  predicate TreePasses(f: File, ok: Arch -> bool)
    decreases f
  {
    TargetsPass(f, ok) && forall i :: 0 <= i < |f.documents| ==> TreePasses(f.documents[i], ok)
  }

  lemma ExtractTopPasses(f: File, a: Arch, ok: Arch -> bool)
    requires ok(a)
    ensures TargetsPass(ExtractTop(f, a), ok)
  {
  }

  lemma PassWithDocuments(f: File, ds: seq<File>, ok: Arch -> bool)
    ensures TargetsPass(f.(documents := ds), ok) <==> TargetsPass(f, ok)
  {
  }

  /** In an extracted tree every target has the architecture. */
  lemma {:induction false} ExtractedTree(f: File, a: Arch, ok: Arch -> bool)
    requires a in Archs(f) && ok(a)
    ensures Extract(f, a).Ok? && TreePasses(Extract(f, a).value, ok)
    decreases f
  {
    hide TargetsPass, ExtractTop;
    ExtractedDocuments(f.documents, a, ok);
    var ds := ExtractAll(f.documents, a).value;
    ExtractTopPasses(f, a, ok);
    PassWithDocuments(ExtractTop(f, a), ds, ok);
  }

  lemma {:induction false} ExtractedDocuments(ds: seq<File>, a: Arch, ok: Arch -> bool)
    requires ok(a)
    ensures ExtractAll(ds, a).Ok?
    ensures forall i :: 0 <= i < |ExtractAll(ds, a).value| ==> TreePasses(ExtractAll(ds, a).value[i], ok)
    decreases ds
  {
    hide TreePasses;
    if ds != [] {
      ExtractedDocuments(ds[1..], a, ok);
      if a in Archs(ds[0]) {
        ExtractedTree(ds[0], a, ok);
      }
    }
  }

  // ----- umbrellas are not filtered -----

  predicate UmbrellasPass(f: File, ok: Arch -> bool)
    decreases f
  {
    (forall t :: t in f.umbrellas ==> ok(t.arch)) &&
      forall i :: 0 <= i < |f.documents| ==> UmbrellasPass(f.documents[i], ok)
  }

  /** The umbrellas of the file and of the documents that are kept. */
  predicate KeptUmbrellasPass(f: File, a: Arch, ok: Arch -> bool)
    decreases f
  {
    (forall t :: t in f.umbrellas ==> ok(t.arch)) &&
    forall i :: 0 <= i < |f.documents| && a in Archs(f.documents[i]) ==> KeptUmbrellasPass(f.documents[i], a, ok)
  }

  /** The extracted umbrellas are all for the architecture exactly when those of the
      file and of the documents kept already were. */
  lemma {:induction false} ExtractedUmbrellas(f: File, a: Arch, ok: Arch -> bool)
    requires a in Archs(f)
    ensures Extract(f, a).Ok? && (UmbrellasPass(Extract(f, a).value, ok) <==> KeptUmbrellasPass(f, a, ok))
    decreases f
  {
    ExtractedDocumentUmbrellas(f.documents, a, ok);
  }

  predicate AllKeptUmbrellasPass(ds: seq<File>, a: Arch, ok: Arch -> bool) {
    forall i :: 0 <= i < |ds| && a in Archs(ds[i]) ==> KeptUmbrellasPass(ds[i], a, ok)
  }

  predicate AllUmbrellasPass(ds: seq<File>, ok: Arch -> bool) {
    forall i :: 0 <= i < |ds| ==> UmbrellasPass(ds[i], ok)
  }

  lemma {:induction false} ExtractedDocumentUmbrellas(ds: seq<File>, a: Arch, ok: Arch -> bool)
    ensures ExtractAll(ds, a).Ok?
    ensures AllUmbrellasPass(ExtractAll(ds, a).value, ok) <==> AllKeptUmbrellasPass(ds, a, ok)
    decreases ds
  {
    hide UmbrellasPass, KeptUmbrellasPass;
    if ds != [] {
      ExtractedDocumentUmbrellas(ds[1..], a, ok);
      assert ds == [ds[0]] + ds[1..];
      KeptUmbrellasCons(ds[0], ds[1..], a, ok);
      if a in Archs(ds[0]) {
        ExtractedUmbrellas(ds[0], a, ok);
        UmbrellasCons(Extract(ds[0], a).value, ExtractAll(ds[1..], a).value, ok);
      }
    }
  }

  lemma KeptUmbrellasCons(d: File, ds: seq<File>, a: Arch, ok: Arch -> bool)
    ensures AllKeptUmbrellasPass([d] + ds, a, ok)
       <==> (a in Archs(d) ==> KeptUmbrellasPass(d, a, ok)) && AllKeptUmbrellasPass(ds, a, ok)
  {
    hide KeptUmbrellasPass;
    assert ([d] + ds)[0] == d && forall i :: 0 <= i < |ds| ==> ([d] + ds)[i + 1] == ds[i];
  }

  lemma UmbrellasCons(d: File, ds: seq<File>, ok: Arch -> bool)
    ensures AllUmbrellasPass([d] + ds, ok) <==> UmbrellasPass(d, ok) && AllUmbrellasPass(ds, ok)
  {
    hide UmbrellasPass;
    assert ([d] + ds)[0] == d && forall i :: 0 <= i < |ds| ==> ([d] + ds)[i + 1] == ds[i];
  }

  // ----- what removal leaves -----

  /** Below the top, documents without the architecture of their own are kept as
      they are, whatever is inside them. */
  predicate RemovalReaches(f: File, a: Arch, ok: Arch -> bool)
    decreases f
  {
    forall i :: 0 <= i < |f.documents| && Archs(f.documents[i]) != Single(a) ==>
      if a in Archs(f.documents[i]) then RemovalReaches(f.documents[i], a, ok) else TreePasses(f.documents[i], ok)
  }

  predicate AllReached(ds: seq<File>, a: Arch, ok: Arch -> bool) {
    forall i :: 0 <= i < |ds| && Archs(ds[i]) != Single(a) ==>
      if a in Archs(ds[i]) then RemovalReaches(ds[i], a, ok) else TreePasses(ds[i], ok)
  }

  predicate AllPass(ds: seq<File>, ok: Arch -> bool) {
    forall i :: 0 <= i < |ds| ==> TreePasses(ds[i], ok)
  }

  lemma AllPassCons(d: File, ds: seq<File>, ok: Arch -> bool)
    ensures AllPass([d] + ds, ok) <==> TreePasses(d, ok) && AllPass(ds, ok)
  {
    hide TreePasses;
    assert ([d] + ds)[0] == d && forall i :: 0 <= i < |ds| ==> ([d] + ds)[i + 1] == ds[i];
  }

  lemma ReachedCons(d: File, ds: seq<File>, a: Arch, ok: Arch -> bool)
    ensures AllReached([d] + ds, a, ok)
       <==>
            (Archs(d) != Single(a) ==> if a in Archs(d) then RemovalReaches(d, a, ok) else TreePasses(d, ok)) &&
            AllReached(ds, a, ok)
  {
    hide TreePasses, RemovalReaches;
    assert ([d] + ds)[0] == d && forall i :: 0 <= i < |ds| ==> ([d] + ds)[i + 1] == ds[i];
  }

  lemma RemoveTopPasses(f: File, a: Arch, ok: Arch -> bool)
    requires forall b :: b != a ==> ok(b)
    ensures TargetsPass(RemoveTop(f, a), ok)
  {
    hide UsableArchs;
  }

  /** After removing an architecture no target of the tree has it exactly when
      every document that was kept unexamined was free of it. */
  lemma {:induction false} RemovedTree(f: File, a: Arch, ok: Arch -> bool)
    requires Remove(f, a).Ok? && forall b :: ok(b) <==> b != a
    ensures TreePasses(Remove(f, a).value, ok) <==> RemovalReaches(f, a, ok)
    decreases f
  {
    hide TargetsPass, RemoveTop;
    RemovedDocuments(f.documents, a, ok);
    var ds := RemoveAll(f.documents, a).value;
    RemoveTopPasses(f, a, ok);
    PassWithDocuments(RemoveTop(f, a), ds, ok);
    assert RemovalReaches(f, a, ok) <==> AllReached(f.documents, a, ok);
  }

  lemma {:induction false} RemovedDocuments(ds: seq<File>, a: Arch, ok: Arch -> bool)
    requires forall b :: ok(b) <==> b != a
    ensures RemoveAll(ds, a).Ok? && (AllPass(RemoveAll(ds, a).value, ok) <==> AllReached(ds, a, ok))
    decreases ds
  {
    hide TreePasses, RemovalReaches;
    RemoveAllSucceeds(ds, a);
    if ds != [] {
      var d, rest := ds[0], ds[1..];
      RemovedDocuments(rest, a, ok);
      assert ds == [d] + rest;
      ReachedCons(d, rest, a, ok);
      if Archs(d) != Single(a) {
        if a in Archs(d) {
          RemoveSucceeds(d, a);
          RemovedTree(d, a, ok);
          AllPassCons(Remove(d, a).value, RemoveAll(rest, a).value, ok);
        } else {
          AllPassCons(d, RemoveAll(rest, a).value, ok);
        }
      }
    }
  }

  // ----- where removal and extraction fall short -----

  function Plainly(targets: set<Target>, umbrellas: map<Target, string>, documents: seq<File>): File {
    File(Header("", 0, 0, true, false, false), Version(1, 4), "", 0, targets, umbrellas, {}, {}, map[], map[],
      documents)
  }

  /** A document without the architecture that holds one with it: removal leaves
      the inner one, and extraction loses it. */
  lemma HiddenDocument(a: Arch, b: Arch)
    requires a != b && a != AK_UNKNOWN && b != AK_UNKNOWN
    ensures var inner := Plainly({Target(a, 1)}, map[], []);
            var middle := Plainly({Target(b, 1)}, map[], [inner]);
            var f := Plainly({Target(a, 1), Target(b, 1)}, map[], [middle]);
            Remove(f, a).Ok? && Remove(f, a).value.documents == [middle] && a in Archs(middle.documents[0]) &&
            Extract(f, a).Ok? && Extract(f, a).value.documents == []
  {
    var inner := Plainly({Target(a, 1)}, map[], []);
    var middle := Plainly({Target(b, 1)}, map[], [inner]);
    var f := Plainly({Target(a, 1), Target(b, 1)}, map[], [middle]);
    ArchsOfTwo(f, Target(a, 1), Target(b, 1));
    ArchsOfTwo(middle, Target(b, 1), Target(b, 1));
    ArchsOfTwo(inner, Target(a, 1), Target(a, 1));
    assert f.documents[0] == middle && f.documents[1..] == [];
    assert RemoveAll([], a) == Ok([]) && ExtractAll([], a) == Ok([]);
    assert RemoveAll([middle], a) == Ok([middle] + []);
    RemoveSucceeds(f, a);
    ExtractSucceeds(f, a);
  }

  lemma ArchsOfTwo(f: File, s: Target, t: Target)
    requires f.targets == {s, t} && s.arch != AK_UNKNOWN && t.arch != AK_UNKNOWN
    ensures Archs(f) == {s.arch, t.arch}
  {
    assert s in f.targets && t in f.targets;
  }

  /** An umbrella for another architecture survives extraction. */
  lemma ForeignUmbrella(a: Arch, b: Arch)
    requires a != b && a != AK_UNKNOWN && b != AK_UNKNOWN
    ensures var f := Plainly({Target(a, 1), Target(b, 1)}, map[Target(b, 1) := "System"], []);
            Extract(f, a).Ok? && Extract(f, a).value.targets == {Target(a, 1)} &&
            Target(b, 1) in Extract(f, a).value.umbrellas
  {
    var f := Plainly({Target(a, 1), Target(b, 1)}, map[Target(b, 1) := "System"], []);
    ArchsOfTwo(f, Target(a, 1), Target(b, 1));
    ExtractSucceeds(f, a);
    assert ExtractTop(f, a).targets == {Target(a, 1)};
  }

  // ----- extracting again -----

  lemma ExtractTopTwice(f: File, a: Arch, ds: seq<File>)
    requires a != AK_UNKNOWN
    ensures ExtractTop(ExtractTop(f, a).(documents := ds), a) == ExtractTop(f, a)
  {
    var g := ExtractTop(f, a).(documents := ds);
    var h := ExtractTop(g, a);
    assert h.targets == g.targets && h.clients == g.clients && h.reexports == g.reexports && h.uuids == g.uuids;
    ExtractSymbolsTwice(f.symbols, a);
  }

  lemma ExtractSymbolsTwice(symbols: map<SymbolKey, Symbol>, a: Arch)
    requires a != AK_UNKNOWN
    ensures ExtractSymbols(ExtractSymbols(symbols, a), a) == ExtractSymbols(symbols, a)
  {
    hide Renewed, RestrictSymbol;
    forall k | k in symbols
      ensures Renewed(k, RestrictSymbol(Renewed(k, RestrictSymbol(symbols[k], Single(a))), Single(a)))
           == Renewed(k, RestrictSymbol(symbols[k], Single(a)))
    {
      RenewTwice(k, symbols[k], a);
    }
  }

  lemma RenewTwice(k: SymbolKey, s: Symbol, a: Arch)
    requires a != AK_UNKNOWN
    ensures Renewed(k, RestrictSymbol(Renewed(k, RestrictSymbol(s, Single(a))), Single(a)))
         == Renewed(k, RestrictSymbol(s, Single(a)))
  {
    var once := Renewed(k, RestrictSymbol(s, Single(a)));
    assert Renewed(k, RestrictSymbol(once, Single(a))).avail == once.avail;
  }

  /** Extracting from an extracted tree changes nothing. */
  lemma {:induction false} ExtractTwice(f: File, a: Arch)
    requires a in Archs(f)
    ensures Extract(f, a).Ok? && a in Archs(Extract(f, a).value)
    ensures Extract(Extract(f, a).value, a) == Extract(f, a)
    decreases f
  {
    hide ExtractTop;
    ExtractAllTwice(f.documents, a);
    var ds := ExtractAll(f.documents, a).value;
    ExtractTopTwice(f, a, ds);
    ExtractTopHas(f, a);
  }

  lemma ExtractTopHas(f: File, a: Arch)
    requires a in Archs(f)
    ensures a in ArchsOf(ExtractTop(f, a).targets)
  {
    var t :| t in f.targets && t.arch == a;
    assert t in ExtractTop(f, a).targets;
  }

  lemma {:induction false} ExtractAllTwice(ds: seq<File>, a: Arch)
    ensures ExtractAll(ds, a).Ok? && ExtractAll(ExtractAll(ds, a).value, a) == ExtractAll(ds, a)
    decreases ds
  {
    if ds != [] {
      ExtractAllTwice(ds[1..], a);
      if a in Archs(ds[0]) {
        ExtractTwice(ds[0], a);
        var d, rest := Extract(ds[0], a).value, ExtractAll(ds[1..], a).value;
        assert ([d] + rest)[0] == d && ([d] + rest)[1..] == rest;
      }
    }
  }
}

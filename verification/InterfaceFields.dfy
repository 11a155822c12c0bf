/** What merging and removing leave in a file, told in the fields of the inputs. */
module InterfaceFields {
  import opened InterfaceAlgebra
  import opened InterfaceTheorems

  // ----- any number of inputs -----

  lemma {:induction false} IntoLast(output: File, inputs: seq<File>)
    requires inputs != [] && MergeInto(output, inputs).Ok?
    ensures var n := |inputs| - 1; var before := MergeInto(output, inputs[..n]);
            before.Ok? && Compatible(before.value, inputs[n]) &&
            MergeInto(output, inputs).value == Union(before.value, inputs[n])
    decreases |inputs|
  {
    hide Union, Compatible;
    var n := |inputs| - 1;
    if n > 0 {
      IntoLast(Union(output, inputs[0]), inputs[1..]);
      assert inputs[1..][..n - 1] == inputs[..n][1..];
    }
  }

  /** The last input is merged into what the others gave. */
  lemma AllButLast(inputs: seq<File>)
    requires |inputs| > 1 && MergeAll(inputs).Ok?
    ensures var n := |inputs| - 1; var before := MergeAll(inputs[..n]);
            before.Ok? && Compatible(before.value, inputs[n]) &&
            MergeAll(inputs).value == Union(before.value, inputs[n])
  {
    hide MergeInto, Union, Compatible;
    var n := |inputs| - 1;
    IntoLast(inputs[0], inputs[1..]);
    assert inputs[1..][..n - 1] == inputs[..n][1..];
  }

  /** The file type of the first input that no other exceeds: by the kind of file, then
      by its version. */
  lemma {:induction false} LatestFileType(inputs: seq<File>)
    requires inputs != [] && MergeAll(inputs).Ok?
    ensures var r := MergeAll(inputs).value.fileType;
            (exists i :: 0 <= i < |inputs| && inputs[i].fileType == r) &&
            forall i :: 0 <= i < |inputs| ==>
              inputs[i].fileType.fileType < r.fileType ||
              (inputs[i].fileType.fileType == r.fileType && inputs[i].fileType.version <= r.version)
    decreases |inputs|
  {
    if |inputs| > 1 {
      var n := |inputs| - 1;
      AllButLast(inputs);
      LatestFileType(inputs[..n]);
      hide MergeAll, Compatible, MergeSymbols;
      var v, w := MergeAll(inputs[..n]).value.fileType, inputs[n].fileType;
      var i :| 0 <= i < n && inputs[..n][i].fileType == v;
      assert inputs[i].fileType == v;
    } else {
      assert inputs[0].fileType == MergeAll(inputs).value.fileType;
    }
  }

  /** Two files: the case of one merge. */
  lemma LaterFileType(f: File, g: File)
    requires Merge(f, g).Ok?
    ensures var r := Merge(f, g).value.fileType;
            (r == f.fileType || r == g.fileType) &&
            (f.fileType.fileType < r.fileType ||
             (f.fileType.fileType == r.fileType && f.fileType.version <= r.version)) &&
            (g.fileType.fileType < r.fileType ||
             (g.fileType.fileType == r.fileType && g.fileType.version <= r.version))
  {
    MergeTwo(f, g);
    hide Merge;
    LatestFileType([f, g]);
    assert [f, g][0] == f && [f, g][1] == g;
  }

  /** The scalar fields: all inputs agree on the header, the path is that of the first,
      and every Swift version recorded is the one that is kept. */
  lemma {:induction false} ArchiveScalars(inputs: seq<File>)
    requires inputs != [] && MergeAll(inputs).Ok?
    ensures var r := MergeAll(inputs).value;
            r.path == inputs[0].path &&
            (forall i :: 0 <= i < |inputs| ==>
               inputs[i].header == r.header &&
               (inputs[i].swiftVersion == 0 || inputs[i].swiftVersion == r.swiftVersion)) &&
            exists i :: 0 <= i < |inputs| && inputs[i].swiftVersion == r.swiftVersion
    decreases |inputs|
  {
    if |inputs| > 1 {
      var n := |inputs| - 1;
      AllButLast(inputs);
      ArchiveScalars(inputs[..n]);
      hide MergeAll, MergeSymbols, Later;
      var before := MergeAll(inputs[..n]).value;
      var i :| 0 <= i < n && inputs[..n][i].swiftVersion == before.swiftVersion;
      assert inputs[i].swiftVersion == before.swiftVersion;
    } else {
      assert inputs[0] == MergeAll(inputs).value;
    }
  }

  /** Targets and libraries: those of any input, and no others. */
  lemma {:induction false} ArchiveMembers(inputs: seq<File>, t: Target, name: string)
    requires inputs != [] && MergeAll(inputs).Ok?
    ensures var r := MergeAll(inputs).value;
            (t in r.targets <==> exists i :: 0 <= i < |inputs| && t in inputs[i].targets) &&
            ((name, t) in r.clients <==> exists i :: 0 <= i < |inputs| && (name, t) in inputs[i].clients) &&
            ((name, t) in r.reexports <==> exists i :: 0 <= i < |inputs| && (name, t) in inputs[i].reexports)
    decreases |inputs|
  {
    if |inputs| > 1 {
      var n := |inputs| - 1;
      AllButLast(inputs);
      ArchiveMembers(inputs[..n], t, name);
      hide MergeAll, MergeSymbols, Later, Compatible;
      forall i | 0 <= i < n ensures inputs[..n][i] == inputs[i] {
      }
    } else {
      assert inputs[0] == MergeAll(inputs).value;
    }
  }

  /** Umbrellas and uuids: of the last input that has one for the target. */
  lemma {:induction false} ArchiveUmbrella(inputs: seq<File>, t: Target, i: nat)
    requires i < |inputs| && MergeAll(inputs).Ok?
    ensures t in inputs[i].umbrellas && (forall j :: i < j < |inputs| ==> t !in inputs[j].umbrellas) ==>
              t in MergeAll(inputs).value.umbrellas && MergeAll(inputs).value.umbrellas[t] == inputs[i].umbrellas[t]
    ensures t in inputs[i].uuids && (forall j :: i < j < |inputs| ==> t !in inputs[j].uuids) ==>
              t in MergeAll(inputs).value.uuids && MergeAll(inputs).value.uuids[t] == inputs[i].uuids[t]
    decreases |inputs|
  {
    if |inputs| > 1 {
      var n := |inputs| - 1;
      AllButLast(inputs);
      if i < n { ArchiveUmbrella(inputs[..n], t, i); }
      hide MergeAll, MergeSymbols, Later, Compatible;
    }
  }

  /** What an input says about the access to a symbol. */
  function Said(f: File, k: SymbolKey): Access {
    if k in f.symbols then f.symbols[k].access else NoAccess
  }

  lemma UnionSymbol(f: File, g: File, k: SymbolKey)
    ensures var r := Union(f, g);
            (k in r.symbols <==> k in f.symbols || k in g.symbols) &&
            (k in r.symbols ==>
               var s := if k in f.symbols then f.symbols[k] else g.symbols[k];
               r.symbols[k].linkage == s.linkage &&
               (k.kind == GlobalSymbol ==> r.symbols[k].flags == s.flags) &&
               r.symbols[k].avail.Keys == (if k in f.symbols then f.symbols[k].avail.Keys else {}) +
                                          (if k in g.symbols then g.symbols[k].avail.Keys else {})) &&
            Said(r, k) == UpdateAccess(Said(f, k), Said(g, k))
  {
  }

  /** A symbol is there if some input has it. */
  lemma {:induction false} ArchiveSymbol(inputs: seq<File>, k: SymbolKey)
    requires inputs != [] && MergeAll(inputs).Ok?
    ensures k in MergeAll(inputs).value.symbols <==> exists i :: 0 <= i < |inputs| && k in inputs[i].symbols
    decreases |inputs|
  {
    if |inputs| > 1 {
      var n := |inputs| - 1;
      AllButLast(inputs);
      ArchiveSymbol(inputs[..n], k);
      UnionSymbol(MergeAll(inputs[..n]).value, inputs[n], k);
      hide MergeAll, Union, Compatible, Said, UpdateAccess;
      assert forall i :: 0 <= i < n ==> inputs[..n][i] == inputs[i];
    } else {
      assert inputs[0] == MergeAll(inputs).value;
    }
  }

  predicate On(f: File, k: SymbolKey, t: Target) {
    k in f.symbols && t in f.symbols[k].avail
  }

  /** It is on the targets of all that have it. */
  lemma {:induction false} ArchiveTargets(inputs: seq<File>, k: SymbolKey, t: Target)
    requires inputs != [] && MergeAll(inputs).Ok?
    ensures On(MergeAll(inputs).value, k, t) <==> exists i :: 0 <= i < |inputs| && On(inputs[i], k, t)
    decreases |inputs|
  {
    if |inputs| > 1 {
      var n := |inputs| - 1;
      AllButLast(inputs);
      ArchiveTargets(inputs[..n], k, t);
      UnionSymbol(MergeAll(inputs[..n]).value, inputs[n], k);
      assert On(MergeAll(inputs).value, k, t) <==> On(MergeAll(inputs[..n]).value, k, t) || On(inputs[n], k, t);
      hide MergeAll, Union, Compatible, Said, UpdateAccess, On;
      assert forall i :: 0 <= i < n ==> inputs[..n][i] == inputs[i];
    } else {
      assert inputs[0] == MergeAll(inputs).value;
    }
  }

  /** The first input to have it decides linkage and flags. */
  lemma {:induction false} ArchiveFirst(inputs: seq<File>, k: SymbolKey, i: nat)
    requires i < |inputs| && MergeAll(inputs).Ok?
    requires k in inputs[i].symbols && forall j :: 0 <= j < i ==> k !in inputs[j].symbols
    ensures var symbols := MergeAll(inputs).value.symbols;
            k in symbols && symbols[k].linkage == inputs[i].symbols[k].linkage &&
            (k.kind == GlobalSymbol ==> symbols[k].flags == inputs[i].symbols[k].flags)
    decreases |inputs|
  {
    if |inputs| > 1 {
      var n := |inputs| - 1;
      AllButLast(inputs);
      var before := MergeAll(inputs[..n]).value;
      UnionSymbol(before, inputs[n], k);
      if i < n {
        ArchiveFirst(inputs[..n], k, i);
      } else {
        ArchiveSymbol(inputs[..n], k);
        hide MergeAll, Union, Compatible, Said, UpdateAccess;
        assert k !in before.symbols;
      }
    }
  }

  /** The access to a symbol is the first that an input states, except that a public
      access stated after a private one replaces it. */
  lemma {:induction false} ArchiveAccess(inputs: seq<File>, k: SymbolKey, i: nat)
    requires i < |inputs| && MergeAll(inputs).Ok? && Said(inputs[i], k) != NoAccess
    requires forall j :: 0 <= j < i ==> Said(inputs[j], k) == NoAccess
    ensures Said(MergeAll(inputs).value, k)
         == if Said(inputs[i], k) == Private && PublicLater(inputs, k, i) then Public else Said(inputs[i], k)
    decreases |inputs|
  {
    if |inputs| > 1 {
      var n := |inputs| - 1;
      AllButLast(inputs);
      UnionSymbol(MergeAll(inputs[..n]).value, inputs[n], k);
      if i < n {
        ArchiveAccess(inputs[..n], k, i);
        OneMorePublic(inputs, k, i);
      } else {
        NothingSaid(inputs[..n], k);
      }
      hide MergeAll, Union, Compatible, Said;
    }
  }

  predicate PublicLater(inputs: seq<File>, k: SymbolKey, i: nat) {
    exists j :: i < j < |inputs| && Said(inputs[j], k) == Public
  }

  lemma OneMorePublic(inputs: seq<File>, k: SymbolKey, i: nat)
    requires i < |inputs| - 1
    ensures var n := |inputs| - 1;
            PublicLater(inputs, k, i) <==> PublicLater(inputs[..n], k, i) || Said(inputs[n], k) == Public
  {
    hide Said;
    assert forall j :: 0 <= j < |inputs| - 1 ==> inputs[..|inputs| - 1][j] == inputs[j];
  }

  lemma {:induction false} NothingSaid(inputs: seq<File>, k: SymbolKey)
    requires inputs != [] && MergeAll(inputs).Ok? && forall j :: 0 <= j < |inputs| ==> Said(inputs[j], k) == NoAccess
    ensures Said(MergeAll(inputs).value, k) == NoAccess
    decreases |inputs|
  {
    if |inputs| > 1 {
      var n := |inputs| - 1;
      AllButLast(inputs);
      UnionSymbol(MergeAll(inputs[..n]).value, inputs[n], k);
      NothingSaid(inputs[..n], k);
    }
  }

  // ----- removing an architecture -----

  /** The architecture is known and has a target where the symbol is neither unavailable
      nor obsoleted. */
  predicate Counts(s: Symbol, b: Arch) {
    b != 14 && exists u :: u in s.avail && u.arch == b && !s.avail[u].unavailable && s.avail[u].obsoleted == 0
  }

  lemma UsableArchIs(s: Symbol, b: Arch)
    ensures b in UsableArchs(s) <==> Counts(s, b)
  {
    var usable := set t | t in s.avail && Usable(s.avail[t]);
    assert forall u :: u in s.avail && !s.avail[u].unavailable && s.avail[u].obsoleted == 0 ==> u in usable;
  }

  /** A symbol stays if some target of another known architecture counts, and keeps its
      targets of the architectures of such targets. */
  lemma RemovedSymbol(f: File, a: Arch, k: SymbolKey)
    requires Remove(f, a).Ok?
    ensures var symbols := Remove(f, a).value.symbols;
            (k in symbols <==> k in f.symbols && exists b :: b != a && Counts(f.symbols[k], b)) &&
            (k in symbols ==>
               symbols[k].avail.Keys == set t | t in f.symbols[k].avail && t.arch != a && Counts(f.symbols[k], t.arch))
  {
    assert Remove(f, a).value.symbols == RemoveSymbols(f.symbols, a);
    hide Remove, RemoveSymbols, Counts;
    SymbolRemoved(f.symbols, a, k);
  }

  lemma SymbolRemoved(before: map<SymbolKey, Symbol>, a: Arch, k: SymbolKey)
    ensures var symbols := RemoveSymbols(before, a);
            (k in symbols <==> k in before && exists b :: b != a && Counts(before[k], b)) &&
            (k in symbols ==>
               symbols[k].avail.Keys == set t | t in before[k].avail && t.arch != a && Counts(before[k], t.arch))
  {
    hide UsableArchs, Counts;
    if k in before {
      var s := before[k];
      var kept := UsableArchs(s) - {a};
      forall b ensures b in kept <==> b != a && Counts(s, b) {
        UsableArchIs(s, b);
      }
      assert k in RemoveSymbols(before, a) <==> kept != {};
      if k in RemoveSymbols(before, a) {
        assert RemoveSymbols(before, a)[k] == Renewed(k, RestrictSymbol(s, kept));
      }
      hide RemoveSymbols;
      assert kept != {} <==> exists b :: b in kept;
    }
  }

  /** A file whose one symbol is obsoleted on its only target loses it. */
  lemma ObsoletedIsRemoved(ts: set<Target>, a: Arch)
    requires a in ArchsOf(ts) && ArchsOf(ts) != {a}
    ensures var f := Sample(ts, Public, map[Target(1, 1) := Availability(0, 0xA0000, false)]);
            SAMPLE in f.symbols && Remove(f, a).Ok? && SAMPLE !in Remove(f, a).value.symbols
  {
    var f := Sample(ts, Public, map[Target(1, 1) := Availability(0, 0xA0000, false)]);
    assert Single(a) == {a};
    assert Remove(f, a).Ok?;
    hide Remove, ArchsOf;
    RemovedSymbol(f, a, SAMPLE);
  }
}

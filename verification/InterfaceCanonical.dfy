/** The stored vectors depend only on what was added, not on the order. */
module InterfaceCanonical {
  import opened InterfaceAlgebra
  import opened SortedVectors
  import opened InterfaceFiles
  import opened InterfaceOperations
  import opened InterfaceTheorems

  // ----- content determines the vectors -----

  lemma NamesOfLinks(v: seq<Ref>)
    requires SortedRefs(v)
    ensures Members(Names(v)) == set p | p in Links(v) :: p.0
  {
    forall i | 0 <= i < |v| ensures Names(v)[i] in (set p | p in Links(v) :: p.0) {
      assert v[i].targets[0] in v[i].targets;
      assert (v[i].installName, v[i].targets[0]) in Links(v);
    }
    forall p | p in Links(v) ensures p.0 in Members(Names(v)) {
      var i, t :| 0 <= i < |v| && t in v[i].targets && p == (v[i].installName, t);
      assert Names(v)[i] == p.0;
    }
  }

  lemma NameOnce(names: seq<string>, i: nat, j: nat)
    requires SortedNames(names) && i < |names| && j < |names| && names[i] == names[j]
    ensures i == j
  {
    TextIrreflexive(names[i]);
  }

  lemma TargetsOfLinks(v: seq<Ref>, i: nat)
    requires SortedRefs(v) && i < |v|
    ensures Members(v[i].targets) == set p | p in Links(v) && p.0 == v[i].installName :: p.1
  {
    var mine := set p | p in Links(v) && p.0 == v[i].installName :: p.1;
    forall t | t in v[i].targets ensures t in mine {
      assert (v[i].installName, t) in Links(v);
    }
    forall p | p in Links(v) && p.0 == v[i].installName ensures p.1 in Members(v[i].targets) {
      var j, t :| 0 <= j < |v| && t in v[j].targets && p == (v[j].installName, t);
      assert Names(v)[i] == Names(v)[j];
      NameOnce(Names(v), i, j);
    }
  }

  lemma RefsCanonical(v: seq<Ref>, w: seq<Ref>)
    requires SortedRefs(v) && SortedRefs(w) && Links(v) == Links(w)
    ensures v == w
  {
    NamesOfLinks(v);
    NamesOfLinks(w);
    NamesCanonical(Names(v), Names(w));
    assert |v| == |Names(v)| == |Names(w)| == |w|;
    forall i | 0 <= i < |v| ensures v[i] == w[i] {
      assert Names(v)[i] == Names(w)[i];
      SameRef(v, w, i);
    }
  }

  lemma SameRef(v: seq<Ref>, w: seq<Ref>, i: nat)
    requires SortedRefs(v) && SortedRefs(w) && Links(v) == Links(w) && i < |v| && i < |w|
    requires v[i].installName == w[i].installName
    ensures v[i] == w[i]
  {
    TargetsOfLinks(v, i);
    TargetsOfLinks(w, i);
    TargetsCanonical(v[i].targets, w[i].targets);
  }

  predicate SameVectors(f: Interface, g: Interface) {
    f.targets == g.targets && f.umbrellas == g.umbrellas && f.clients == g.clients && f.reexports == g.reexports &&
    f.uuids == g.uuids
  }

  /** Two files with the same content have the same vectors, entry by entry. */
  lemma ContentFixesVectors(f: Interface, g: Interface)
    requires Flat(f) && Flat(g) && SansPath(Content(f)) == SansPath(Content(g))
    ensures SameVectors(f, g)
  {
    var c, d := SansPath(Content(f)), SansPath(Content(g));
    assert c.targets == Members(f.targets) && d.targets == Members(g.targets);
    TargetsCanonical(f.targets, g.targets);
    assert c.umbrellas == AsMap(f.umbrellas) && d.umbrellas == AsMap(g.umbrellas);
    PairsCanonical(f.umbrellas, g.umbrellas);
    PairsCanonical(f.uuids, g.uuids);
    RefsCanonical(f.clients, g.clients);
    RefsCanonical(f.reexports, g.reexports);
  }

  // ----- any sequence of additions -----

  datatype Addition =
    | AddsTarget(target: Target)
    | AddsClient(target: Target, name: string)
    | AddsReexport(target: Target, name: string)
    | AddsUmbrella(target: Target, name: string)
    | AddsUUID(target: Target, name: string)

  function TargetsAdded(adds: seq<Addition>): set<Target> {
    set a | a in adds && a.AddsTarget? :: a.target
  }

  function ClientsAdded(adds: seq<Addition>): set<(string, Target)> {
    set a | a in adds && a.AddsClient? :: (a.name, a.target)
  }

  function ReexportsAdded(adds: seq<Addition>): set<(string, Target)> {
    set a | a in adds && a.AddsReexport? :: (a.name, a.target)
  }

  /** The last umbrella named for each target. */
  function UmbrellasAdded(adds: seq<Addition>): map<Target, string> {
    if adds == [] then map[]
    else
      var before, a := UmbrellasAdded(adds[..|adds| - 1]), adds[|adds| - 1];
      if a.AddsUmbrella? && a.name != "" then before[a.target := a.name] else before
  }

  function UUIDsAdded(adds: seq<Addition>): map<Target, string> {
    if adds == [] then map[]
    else
      var before, a := UUIDsAdded(adds[..|adds| - 1]), adds[|adds| - 1];
      if a.AddsUUID? then before[a.target := a.name] else before
  }

  predicate Records(f: Interface, adds: seq<Addition>) {
    Flat(f) && Members(f.targets) == TargetsAdded(adds) && Links(f.clients) == ClientsAdded(adds) &&
    Links(f.reexports) == ReexportsAdded(adds) && AsMap(f.umbrellas) == UmbrellasAdded(adds) &&
    AsMap(f.uuids) == UUIDsAdded(adds)
  }

  method Replay(adds: seq<Addition>) returns (f: Interface)
    ensures Records(f, adds)
  {
    var built := new InterfaceFile();
    EmptyIsFlat();
    assert adds[..0] == [];
    for i := 0 to |adds|
      invariant fresh(built) && fresh(built.symbols) && Records(built.Value(), adds[..i])
    {
      ghost var done, next := adds[..i], adds[..i + 1];
      NextAdded(adds, i);
      hide TargetsAdded, ClientsAdded, ReexportsAdded, UmbrellasAdded, UUIDsAdded;
      hide SortedTargets, SortedUmbrellas, SortedRefs, SortedPairs, Members, AsMap, Links, ListedOnce;
      match adds[i]
      case AddsTarget(t) => built.AddTarget(t);
      case AddsClient(t, n) => built.AddAllowableClient(n, t);
      case AddsReexport(t, n) => built.AddReexportedLibrary(n, t);
      case AddsUmbrella(t, n) => built.AddParentUmbrella(t, n);
      case AddsUUID(t, n) => built.AddUUID(t, n);
    }
    assert adds[..|adds|] == adds;
    f := built.Value();
  }

  lemma NextAdded(adds: seq<Addition>, i: nat)
    requires i < |adds|
    ensures TargetsAdded(adds[..i + 1])
         == TargetsAdded(adds[..i]) + if adds[i].AddsTarget? then {adds[i].target} else {}
    ensures ClientsAdded(adds[..i + 1])
         == ClientsAdded(adds[..i]) + if adds[i].AddsClient? then {(adds[i].name, adds[i].target)} else {}
    ensures ReexportsAdded(adds[..i + 1])
         == ReexportsAdded(adds[..i]) + if adds[i].AddsReexport? then {(adds[i].name, adds[i].target)} else {}
    ensures UmbrellasAdded(adds[..i + 1])
      == if adds[i].AddsUmbrella? && adds[i].name != "" then UmbrellasAdded(adds[..i])[adds[i].target := adds[i].name]
         else UmbrellasAdded(adds[..i])
    ensures UUIDsAdded(adds[..i + 1])
         == if adds[i].AddsUUID? then UUIDsAdded(adds[..i])[adds[i].target := adds[i].name] else UUIDsAdded(adds[..i])
  {
    assert adds[..i + 1] == adds[..i] + [adds[i]];
    assert adds[..i + 1][..i] == adds[..i];
  }

  /** The order of additions matters only for the umbrellas and uuids, where the
      last one counts. */
  lemma AdditionOrder(f: Interface, g: Interface, adds: seq<Addition>, others: seq<Addition>)
    requires Records(f, adds) && Records(g, others) && Members(adds) == Members(others)
    requires UmbrellasAdded(adds) == UmbrellasAdded(others) && UUIDsAdded(adds) == UUIDsAdded(others)
    ensures SameVectors(f, g)
  {
    assert forall a :: a in adds <==> a in Members(adds);
    assert forall a :: a in others <==> a in Members(others);
    TargetsCanonical(f.targets, g.targets);
    PairsCanonical(f.umbrellas, g.umbrellas);
    PairsCanonical(f.uuids, g.uuids);
    RefsCanonical(f.clients, g.clients);
    RefsCanonical(f.reexports, g.reexports);
  }

  // ----- the archive -----

  lemma {:induction false} ContentsMultiset(fs: seq<Interface>, gs: seq<Interface>)
    requires multiset(fs) == multiset(gs)
    ensures multiset(Contents(fs)) == multiset(Contents(gs))
    decreases |fs|
  {
    assert |fs| == |multiset(fs)| == |multiset(gs)| == |gs|;
    if fs != [] {
      assert fs[0] in multiset(gs);
      var i :| 0 <= i < |gs| && gs[i] == fs[0];
      var rest := gs[..i] + gs[i + 1..];
      RestOf(fs, gs, i);
      ContentsMultiset(fs[1..], rest);
      ContentsWithout(gs, i);
      assert Contents(fs) == [Content(fs[0])] + Contents(fs[1..]);
    }
  }

  lemma RestOf(fs: seq<Interface>, gs: seq<Interface>, i: nat)
    requires fs != [] && i < |gs| && gs[i] == fs[0] && multiset(fs) == multiset(gs)
    ensures multiset(fs[1..]) == multiset(gs[..i] + gs[i + 1..])
  {
    var rest := gs[..i] + gs[i + 1..];
    assert fs == [fs[0]] + fs[1..];
    assert gs == gs[..i] + [gs[i]] + gs[i + 1..];
    assert multiset(gs) == multiset(rest) + multiset{gs[i]};
    assert multiset(fs) == multiset(fs[1..]) + multiset{fs[0]};
    Cancel(multiset(fs[1..]), multiset(gs[..i] + gs[i + 1..]), fs[0]);
  }

  lemma {:induction false} ContentsWithout(gs: seq<Interface>, i: nat)
    requires i < |gs|
    ensures multiset(Contents(gs)) == multiset{Content(gs[i])} + multiset(Contents(gs[..i] + gs[i + 1..]))
  {
    var rest := gs[..i] + gs[i + 1..];
    assert Contents(gs) == [Content(gs[0])] + Contents(gs[1..]);
    if i == 0 {
      assert rest == gs[1..];
    } else {
      assert rest[0] == gs[0] && rest[1..] == gs[1..][..i - 1] + gs[1..][i..];
      ContentsWithout(gs[1..], i - 1);
      assert Contents(rest) == [Content(gs[0])] + Contents(rest[1..]);
    }
  }

  /** Whatever order its agreeing inputs come in, the archive tool writes the same
      vectors. */
  lemma ArchiveVectors(fs: seq<Interface>, gs: seq<Interface>, r: Result<Interface>, r': Result<Interface>)
    requires fs != [] && multiset(fs) == multiset(gs) && PairwiseAgree(Contents(fs))
    requires gs != [] && Outcome(r) == MergeAll(Contents(fs)) && Outcome(r') == MergeAll(Contents(gs))
    requires (r.Ok? ==> Valid(r.value)) && (r'.Ok? ==> Valid(r'.value))
    ensures r.Ok? <==> r'.Ok?
    ensures r.Ok? ==> SameVectors(r.value, r'.value) && SansPath(Content(r.value)) == SansPath(Content(r'.value))
  {
    hide PairwiseAgree, SansPath, SameVectors, Flat, MergeAll;
    ContentsMultiset(fs, gs);
    ArchiveOrder(Contents(fs), Contents(gs));
    if r.Ok? {
      ContentFixesVectors(r.value, r'.value);
    }
  }
}

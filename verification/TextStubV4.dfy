/** Version 4 text stubs: the normalized form of an interface file, how it is
    written and how it is read. */
module TextStubV4 {
  import opened InterfaceAlgebra
  import opened SortedVectors
  import opened InterfaceFiles
  import opened SymbolSets
  import opened InterfaceOperations
  import opened TextSections

  // ----- target lists in order -----

  predicate ListLess(v: seq<Target>, w: seq<Target>) {
    w != [] && (v == [] || TargetLess(v[0], w[0]) || (v[0] == w[0] && ListLess(v[1..], w[1..])))
  }

  lemma {:induction false} ListIrreflexive(v: seq<Target>)
    ensures !ListLess(v, v)
  {
    if v != [] {
      ListIrreflexive(v[1..]);
    }
  }

  lemma {:induction false} ListTransitive(v: seq<Target>, w: seq<Target>, x: seq<Target>)
    requires ListLess(v, w) && ListLess(w, x)
    ensures ListLess(v, x)
  {
    if v != [] && v[0] == w[0] == x[0] {
      ListTransitive(v[1..], w[1..], x[1..]);
    }
  }

  lemma {:induction false} ListTotal(v: seq<Target>, w: seq<Target>)
    requires v != w
    ensures ListLess(v, w) || ListLess(w, v)
  {
    if v != [] && w != [] && v[0] == w[0] {
      assert v == [v[0]] + v[1..] && w == [w[0]] + w[1..];
      ListTotal(v[1..], w[1..]);
    }
  }

  lemma ListOrder()
    ensures StrictOrder(ListLess)
  {
    forall v {:trigger ListLess(v, v)} ensures !ListLess(v, v) {
      ListIrreflexive(v);
    }
    forall v, w, x | ListLess(v, w) && ListLess(w, x) ensures ListLess(v, x) {
      ListTransitive(v, w, x);
    }
    forall v, w | v != w ensures ListLess(v, w) || ListLess(w, v) {
      ListTotal(v, w);
    }
  }

  // ----- the normalized form -----

  datatype Flags = Flags(flatNamespace: bool, notAppExtensionSafe: bool, installAPI: bool)

  datatype MetadataSection = MetadataSection(targets: seq<Target>, values: seq<string>)

  /** An umbrella with its targets is written like a library with its targets. */
  datatype TBDv4 = TBDv4(
    uuids: seq<(Target, string)>, targets: seq<Target>, installName: string, currentVersion: nat,
    compatibilityVersion: nat, swiftVersion: nat, flags: Flags, parentUmbrellas: seq<Ref>,
    allowableClients: seq<MetadataSection>,
    reexportedLibraries: seq<MetadataSection>, exports: seq<Section<seq<Target>>>, reexports: seq<Section<seq<Target>>>,
    undefineds: seq<Section<seq<Target>>>)

  // ----- symbols: where they go and how they are understood -----

  function BucketOf(kind: Kind, flags: SymbolFlags): Bucket {
    match kind
    case GlobalSymbol => if flags.weakDefined then Weak else if flags.threadLocal then ThreadLocal else Plain
    case ObjectiveCClass => Classes
    case ObjectiveCClassEHType => ClassEHs
    case ObjectiveCInstanceVariable => IVars
  }

  function KindIn(b: Bucket): Kind {
    match b
    case Classes => ObjectiveCClass
    case ClassEHs => ObjectiveCClassEHType
    case IVars => ObjectiveCInstanceVariable
    case _ => GlobalSymbol
  }

  /** A weak symbol of an export section is taken as weakly referenced. */
  function FlagsRead(b: Bucket, linkage: Linkage): SymbolFlags {
    match b
    case Weak => if linkage == Exported then SymbolFlags(false, false, true) else SymbolFlags(false, true, false)
    case ThreadLocal => SymbolFlags(true, false, false)
    case _ => NO_FLAGS
  }

  predicate Available(x: XPI) {
    exists i :: 0 <= i < |x.avail| && Usable(x.avail[i].1)
  }

  /** Which of the three lists takes the symbol: its linkage when read back. */
  function LinkageRead(linkage: Linkage): Linkage {
    if linkage == External || linkage == Reexported then linkage else Exported
  }

  function SpotOf(k: SymbolKey, x: XPI): Spot<seq<Target>> {
    Spot(AllTargets(x.avail), BucketOf(k.kind, x.flags), k.name)
  }

  function SpotsOf(table: map<SymbolKey, XPI>, linkage: Linkage): map<SymbolKey, Spot<seq<Target>>> {
    map k | k in table && Available(table[k]) && LinkageRead(table[k].linkage) == linkage :: SpotOf(k, table[k])
  }

  function Reading(linkage: Linkage): Spot<seq<Target>> -> Fact {
    (e: Spot<seq<Target>>) => Fact(SymbolKey(KindIn(e.bucket), e.text), linkage, FlagsRead(e.bucket, linkage), e.group)
  }

  ghost predicate WrittenSymbols(ss: seq<Section<seq<Target>>>, spots: map<SymbolKey, Spot<seq<Target>>>) {
    Ascending(Groups(ss), ListLess) && Members(Groups(ss)) == GroupsOf(spots) && Written(ss, spots, Groups(ss))
  }

  /** Collects the spots and the ordered set of target lists, then writes the sections. */
  method WriteSymbols(table: map<SymbolKey, XPI>, linkage: Linkage) returns (ss: seq<Section<seq<Target>>>)
    ensures WrittenSymbols(ss, SpotsOf(table, linkage))
  {
    var spots: map<SymbolKey, Spot<seq<Target>>> := map[];
    var targetSet := [];
    ListOrder();
    hide StrictOrder;
    var todo := table.Keys;
    ghost var goal := SpotsOf(table, linkage);
    NothingDone(map[], goal, todo);
    while todo != {}
      invariant todo <= table.Keys && spots == map[] + (goal - todo)
      invariant Ascending(targetSet, ListLess) && Members(targetSet) == GroupsOf(spots)
      decreases |todo|
    {
      var k :| k in todo;
      if Available(table[k]) && LinkageRead(table[k].linkage) == linkage {
        FillOne(map[], goal, todo, k);
        GroupsNext(spots, k, SpotOf(k, table[k]));
        targetSet := AddKey(targetSet, AllTargets(table[k].avail), ListLess);
        spots := spots[k := SpotOf(k, table[k])];
      } else {
        SkipOne(map[], goal, todo, k);
      }
      todo := todo - {k};
    }
    NothingLeft(map[], goal);
    ss := WriteSections(spots, targetSet);
    assert Groups(ss) == targetSet;
  }

  lemma SpotUnderstood(table: map<SymbolKey, XPI>, linkage: Linkage)
    ensures Understands(Reading(linkage), SpotsOf(table, linkage))
  {
  }

  // ----- libraries by target list -----

  function Lists(ms: seq<MetadataSection>): seq<seq<Target>> {
    seq(|ms|, i requires 0 <= i < |ms| => ms[i].targets)
  }

  function ListsOf(refs: seq<Ref>): set<seq<Target>> {
    set i | 0 <= i < |refs| :: refs[i].targets
  }

  function NamesOn(refs: seq<Ref>, l: seq<Target>): set<string> {
    set i | 0 <= i < |refs| && refs[i].targets == l :: refs[i].installName
  }

  predicate MetadataFor(m: MetadataSection, refs: seq<Ref>, l: seq<Target>) {
    m.targets == l && SortedNames(m.values) && Members(m.values) == NamesOn(refs, l)
  }

  predicate WrittenMetadata(ms: seq<MetadataSection>, refs: seq<Ref>) {
    Ascending(Lists(ms), ListLess) && Members(Lists(ms)) == ListsOf(refs) &&
    forall j :: 0 <= j < |ms| ==> MetadataFor(ms[j], refs, ms[j].targets)
  }

  lemma NameNotBefore(refs: seq<Ref>, i: nat, l: seq<Target>)
    requires SortedRefs(refs) && i < |refs|
    ensures refs[i].installName !in NamesOn(refs[..i], l)
    ensures NamesOn(refs[..i + 1], l)
         == NamesOn(refs[..i], l) + if refs[i].targets == l then {refs[i].installName} else {}
  {
    forall j | 0 <= j < i ensures refs[j].installName != refs[i].installName {
      assert TextLess(Names(refs)[j], Names(refs)[i]);
      TextIrreflexive(refs[i].installName);
    }
    var before, after := refs[..i], refs[..i + 1];
    assert after[i] == refs[i] && forall j :: 0 <= j < i ==> after[j] == before[j];
  }

  /** The libraries with exactly these targets. */
  method WriteMetadataSection(refs: seq<Ref>, l: seq<Target>) returns (m: MetadataSection)
    requires SortedRefs(refs)
    ensures MetadataFor(m, refs, l)
  {
    var values := [];
    for i := 0 to |refs|
      invariant Members(values) == NamesOn(refs[..i], l) && NoDuplicates(values)
    {
      NameNotBefore(refs, i, l);
      if refs[i].targets == l {
        assert refs[i].installName !in Members(values);
        assert Members(values + [refs[i].installName]) == Members(values) + {refs[i].installName};
        values := values + [refs[i].installName];
      }
    }
    assert refs[..|refs|] == refs;
    var sorted := Sort(values);
    SortedOnce(values, sorted);
    return MetadataSection(l, sorted);
  }

  method WriteMetadata(refs: seq<Ref>) returns (ms: seq<MetadataSection>)
    requires SortedRefs(refs)
    ensures WrittenMetadata(ms, refs)
  {
    var targetSet := [];
    ListOrder();
    assert Ascending(targetSet, ListLess);
    hide StrictOrder, Ascending;
    for i := 0 to |refs|
      invariant Ascending(targetSet, ListLess) && Members(targetSet) == ListsOf(refs[..i])
    {
      ListsNext(refs, i);
      targetSet := AddKey(targetSet, refs[i].targets, ListLess);
    }
    assert refs[..|refs|] == refs;
    ms := [];
    for i := 0 to |targetSet|
      invariant |ms| == i && forall j :: 0 <= j < i ==> MetadataFor(ms[j], refs, targetSet[j])
    {
      var m := WriteMetadataSection(refs, targetSet[i]);
      ms := ms + [m];
    }
    assert Lists(ms) == targetSet;
  }

  lemma ListsNext(refs: seq<Ref>, i: nat)
    requires i < |refs|
    ensures ListsOf(refs[..i + 1]) == ListsOf(refs[..i]) + {refs[i].targets}
  {
    var before, after := refs[..i], refs[..i + 1];
    assert after[i] == refs[i] && forall j :: 0 <= j < i ==> after[j] == before[j];
  }

  function SectionLinks(m: MetadataSection): set<(string, Target)> {
    set n, t | n in m.values && t in m.targets :: (n, t)
  }

  function MetadataLinks(ms: seq<MetadataSection>): set<(string, Target)> {
    set j, n, t | 0 <= j < |ms| && n in ms[j].values && t in ms[j].targets :: (n, t)
  }

  /** The sections say which library counts for which target, and no more. */
  lemma MetadataKept(ms: seq<MetadataSection>, refs: seq<Ref>)
    requires WrittenMetadata(ms, refs)
    ensures MetadataLinks(ms) == Links(refs)
  {
    forall p | p in MetadataLinks(ms) ensures p in Links(refs) {
      var j, n, t :| 0 <= j < |ms| && n in ms[j].values && t in ms[j].targets && p == (n, t);
      assert MetadataFor(ms[j], refs, ms[j].targets) && n in Members(ms[j].values);
      var i :| 0 <= i < |refs| && refs[i].targets == ms[j].targets && refs[i].installName == n;
      assert t in refs[i].targets;
    }
    forall p | p in Links(refs) ensures p in MetadataLinks(ms) {
      var i, t :| 0 <= i < |refs| && t in refs[i].targets && p == (refs[i].installName, t);
      assert refs[i].targets in Members(Lists(ms));
      var j :| 0 <= j < |ms| && Lists(ms)[j] == refs[i].targets;
      assert MetadataFor(ms[j], refs, ms[j].targets);
      assert refs[i].installName in NamesOn(refs, ms[j].targets);
      assert refs[i].installName in Members(ms[j].values);
    }
  }

  lemma MetadataLinksNext(ms: seq<MetadataSection>, i: nat)
    requires i < |ms|
    ensures MetadataLinks(ms[..i + 1]) == MetadataLinks(ms[..i]) + SectionLinks(ms[i])
  {
    var before, after := ms[..i], ms[..i + 1];
    assert after[i] == ms[i] && forall j :: 0 <= j < i ==> after[j] == before[j];
    forall p | p in MetadataLinks(after) ensures p in MetadataLinks(before) || p in SectionLinks(ms[i]) {
      var j, n, t :| 0 <= j < |after| && n in after[j].values && t in after[j].targets && p == (n, t);
      assert j < i ==> n in before[j].values && t in before[j].targets;
    }
    forall p | p in MetadataLinks(before) ensures p in MetadataLinks(after) {
      var j, n, t :| 0 <= j < |before| && n in before[j].values && t in before[j].targets && p == (n, t);
      assert n in after[j].values && t in after[j].targets;
    }
    forall p | p in SectionLinks(ms[i]) ensures p in MetadataLinks(after) {
      assert p.0 in after[i].values && p.1 in after[i].targets;
    }
  }

  method ReadMetadataSection(v: seq<Ref>, m: MetadataSection) returns (w: seq<Ref>)
    requires SortedRefs(v)
    ensures SortedRefs(w) && Links(w) == Links(v) + SectionLinks(m)
  {
    w := v;
    for i := 0 to |m.values|
      invariant SortedRefs(w) && Links(w) == Links(v) + SectionLinks(m.(values := m.values[..i]))
    {
      SectionLinksNext(m, i);
      hide SortedRefs, Links, KeptLinks, SectionLinks, LinksTo;
      var every := (arch: Arch) => true;
      AllLinks(LinksTo(m.values[i], m.targets), every);
      w := AddLinksOf(w, Ref(m.values[i], m.targets), every);
    }
    assert m.values[..|m.values|] == m.values;
  }

  lemma AllLinks(links: set<(string, Target)>, keep: Arch -> bool)
    requires forall arch :: keep(arch)
    ensures KeptLinks(links, keep) == links
  {
  }

  lemma SectionLinksNext(m: MetadataSection, i: nat)
    requires i < |m.values|
    ensures SectionLinks(m.(values := m.values[..i + 1]))
         == SectionLinks(m.(values := m.values[..i])) + LinksTo(m.values[i], m.targets)
  {
    assert m.values[..i + 1] == m.values[..i] + [m.values[i]];
  }

  method ReadMetadata(v: seq<Ref>, ms: seq<MetadataSection>) returns (w: seq<Ref>)
    requires SortedRefs(v)
    ensures SortedRefs(w) && Links(w) == Links(v) + MetadataLinks(ms)
  {
    w := v;
    for i := 0 to |ms|
      invariant SortedRefs(w) && Links(w) == Links(v) + MetadataLinks(ms[..i])
    {
      hide SortedRefs, Links, MetadataLinks, SectionLinks;
      MetadataLinksNext(ms, i);
      w := ReadMetadataSection(w, ms[i]);
    }
    assert ms[..|ms|] == ms;
  }

  // ----- umbrellas by name -----

  function UmbrellaLinks(us: seq<(Target, string)>): set<(string, Target)> {
    set i | 0 <= i < |us| :: (us[i].1, us[i].0)
  }

  lemma UmbrellaLinksNext(us: seq<(Target, string)>, i: nat)
    requires i < |us|
    ensures UmbrellaLinks(us[..i + 1]) == UmbrellaLinks(us[..i]) + {(us[i].1, us[i].0)}
  {
    var before, after := us[..i], us[..i + 1];
    assert after[i] == us[i] && forall j :: 0 <= j < i ==> after[j] == before[j];
  }

  /** Targets are appended to their umbrella's section as they come. */
  method WriteUmbrellas(us: seq<(Target, string)>) returns (rs: seq<Ref>)
    requires SortedPairs(us)
    ensures SortedRefs(rs) && Links(rs) == UmbrellaLinks(us)
  {
    rs := [];
    for i := 0 to |us|
      invariant SortedRefs(rs) && Links(rs) == UmbrellaLinks(us[..i])
    {
      UmbrellaLinksNext(us, i);
      rs := AppendTarget(rs, us, i);
    }
    assert us[..|us|] == us;
  }

  method AppendTarget(rs: seq<Ref>, us: seq<(Target, string)>, i: nat) returns (w: seq<Ref>)
    requires SortedPairs(us) && i < |us| && SortedRefs(rs) && Links(rs) == UmbrellaLinks(us[..i])
    ensures SortedRefs(w) && Links(w) == Links(rs) + {(us[i].1, us[i].0)}
  {
    var found, at := AddRefEntry(rs, us[i].1);
    if found != rs {
      LinksInserted(rs, at, us[i].1);
    }
    assert forall j :: 0 <= j < |found| ==> found[j] == Ref(us[i].1, []) || found[j] in rs;
    forall t | t in found[at].targets ensures TargetLess(t, us[i].0) {
      assert (found[at].installName, t) in Links(found);
      var j :| 0 <= j < i && us[..i][j] == (t, found[at].installName);
    }
    var ts := found[at].targets + [us[i].0];
    w := found[at := found[at].(targets := ts)];
    MembersAppended(found[at].targets, us[i].0);
    LinksUpdated(found, at, ts, us[i].0);
    assert Names(w) == Names(found);
  }

  lemma MembersAppended<T>(v: seq<T>, x: T)
    ensures Members(v + [x]) == Members(v) + {x}
  {
    assert (v + [x])[|v|] == x;
  }

  /** What a section of the stub says about its targets; an empty name says nothing. */
  function UmbrellaPairs(r: Ref): seq<(Target, string)> {
    if r.installName == "" then []
    else seq(|r.targets|, i requires 0 <= i < |r.targets| => (r.targets[i], r.installName))
  }

  function AllUmbrellaPairs(rs: seq<Ref>): seq<(Target, string)> {
    if rs == [] then [] else AllUmbrellaPairs(rs[..|rs| - 1]) + UmbrellaPairs(rs[|rs| - 1])
  }

  lemma {:induction false} AsMapJoined<K, V>(v: seq<(K, V)>, w: seq<(K, V)>)
    ensures AsMap(v + w) == AsMap(v) + AsMap(w)
    decreases |w|
  {
    if w == [] {
      assert v + w == v;
    } else {
      assert (v + w)[..|v + w| - 1] == v + w[..|w| - 1];
      AsMapJoined(v, w[..|w| - 1]);
    }
  }

  method ReadUmbrellaSection(v: seq<(Target, string)>, r: Ref) returns (w: seq<(Target, string)>)
    requires SortedUmbrellas(v)
    ensures SortedUmbrellas(w) && AsMap(w) == AsMap(v) + AsMap(UmbrellaPairs(r))
  {
    w := v;
    ghost var ps := UmbrellaPairs(r);
    for i := 0 to |r.targets|
      invariant SortedUmbrellas(w)
      invariant AsMap(w) == AsMap(v) + AsMap(if r.installName == "" then [] else ps[..i])
    {
      if r.installName != "" {
        AsMapNext(ps, i);
      }
      hide SortedUmbrellas, AsMap;
      w := SetUmbrella(w, r.targets[i], r.installName);
    }
    assert ps[..|ps|] == ps;
  }

  method ReadUmbrellas(rs: seq<Ref>) returns (w: seq<(Target, string)>)
    ensures SortedUmbrellas(w) && AsMap(w) == AsMap(AllUmbrellaPairs(rs))
  {
    w := [];
    for i := 0 to |rs|
      invariant SortedUmbrellas(w) && AsMap(w) == AsMap(AllUmbrellaPairs(rs[..i]))
    {
      assert rs[..i + 1][..i] == rs[..i];
      hide SortedUmbrellas, AsMap, UmbrellaPairs;
      AsMapJoined(AllUmbrellaPairs(rs[..i]), UmbrellaPairs(rs[i]));
      w := ReadUmbrellaSection(w, rs[i]);
    }
    assert rs[..|rs|] == rs;
  }

  lemma {:induction false} UmbrellaPairsListed(rs: seq<Ref>, p: (Target, string))
    ensures p in AllUmbrellaPairs(rs) <==> p.1 != "" && (p.1, p.0) in Links(rs)
  {
    if rs != [] {
      var front, last := rs[..|rs| - 1], rs[|rs| - 1];
      UmbrellaPairsListed(front, p);
      LinksNext(rs, |rs| - 1);
      assert rs[..|rs|] == rs;
      if p.1 != "" && p.1 == last.installName && p.0 in last.targets {
        var i :| 0 <= i < |last.targets| && last.targets[i] == p.0;
        assert UmbrellaPairs(last)[i] == p;
      }
    }
  }

  /** A list of pairs that is the graph of a map makes that map. */
  lemma {:induction false} AsMapOfGraph<K, V>(v: seq<(K, V)>, m: map<K, V>)
    requires forall p :: p in v ==> p.0 in m && m[p.0] == p.1
    ensures forall k :: k in AsMap(v) ==> k in m && AsMap(v)[k] == m[k]
    ensures forall p :: p in v ==> p.0 in AsMap(v)
  {
    if v != [] {
      AsMapOfGraph(v[..|v| - 1], m);
      assert v == v[..|v| - 1] + [v[|v| - 1]];
      assert v[|v| - 1] in v;
    }
  }

  /** Umbrellas come back as they were. */
  lemma UmbrellasKept(us: seq<(Target, string)>, rs: seq<Ref>)
    requires SortedUmbrellas(us) && Links(rs) == UmbrellaLinks(us)
    ensures AsMap(AllUmbrellaPairs(rs)) == AsMap(us)
  {
    var v := AllUmbrellaPairs(rs);
    forall p | p in v ensures p.0 in AsMap(us) && AsMap(us)[p.0] == p.1 {
      UmbrellaPairsListed(rs, p);
      var i :| 0 <= i < |us| && (us[i].1, us[i].0) == (p.1, p.0);
      AsMapAt(us, i);
    }
    AsMapOfGraph(v, AsMap(us));
    forall t | t in AsMap(us) ensures t in AsMap(v) {
      AsMapKeys(us, t);
      var i :| 0 <= i < |us| && us[i].0 == t;
      UmbrellaPairsListed(rs, us[i]);
    }
  }
}

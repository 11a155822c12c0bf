/** Writing a version 4 stub and reading it back. */
module TextRoundTrip {
  import opened InterfaceAlgebra
  import opened InterfaceTheorems
  import opened SortedVectors
  import opened InterfaceFiles
  import opened SymbolSets
  import opened InterfaceOperations
  import opened InterfaceCanonical
  import opened TextSections
  import opened TextStubV4
  import opened TextContent

  // ----- writing -----

  ghost predicate WrittenAs(f: Interface, t: TBDv4) {
    t.targets == f.targets && t.uuids == f.uuids && t.installName == f.header.installName &&
    t.currentVersion == f.header.currentVersion && t.compatibilityVersion == f.header.compatibilityVersion &&
    t.swiftVersion == f.swiftVersion &&
    t.flags == Flags(!f.header.twoLevelNamespace, !f.header.appExtensionSafe, f.header.installAPI) &&
    SortedRefs(t.parentUmbrellas) && Links(t.parentUmbrellas) == UmbrellaLinks(f.umbrellas) &&
    WrittenMetadata(t.allowableClients, f.clients) && WrittenMetadata(t.reexportedLibraries, f.reexports) &&
    WrittenSymbols(t.exports, SpotsOf(f.symbols, Exported)) &&
    WrittenSymbols(t.reexports, SpotsOf(f.symbols, Reexported)) &&
    WrittenSymbols(t.undefineds, SpotsOf(f.symbols, External))
  }

  method Normalize(f: Interface) returns (t: TBDv4)
    requires Flat(f)
    ensures WrittenAs(f, t)
  {
    hide WrittenMetadata, WrittenSymbols, UmbrellaLinks, Links, SpotsOf, SortedRefs, ListedOnce, SortedTargets;
    var flags := Flags(!f.header.twoLevelNamespace, !f.header.appExtensionSafe, f.header.installAPI);
    var umbrellas := WriteUmbrellas(f.umbrellas);
    var clients := WriteMetadata(f.clients);
    var libraries := WriteMetadata(f.reexports);
    var exports := WriteSymbols(f.symbols, Exported);
    var reexports := WriteSymbols(f.symbols, Reexported);
    var undefineds := WriteSymbols(f.symbols, External);
    t := TBDv4(f.uuids, f.targets, f.header.installName, f.header.currentVersion, f.header.compatibilityVersion,
               f.swiftVersion, flags, umbrellas, clients, libraries, exports, reexports, undefineds);
  }

  /** The written form depends only on the file: whatever order symbols are
      visited in, it is the same. */
  lemma WrittenOnce(f: Interface, t: TBDv4, u: TBDv4)
    requires Flat(f) && WrittenAs(f, t) && WrittenAs(f, u)
    ensures t == u
  {
    hide SpotsOf, WrittenMetadata, WrittenSymbols, SortedRefs, Links, UmbrellaLinks;
    RefsCanonical(t.parentUmbrellas, u.parentUmbrellas);
    MetadataOnce(t.allowableClients, u.allowableClients, f.clients);
    MetadataOnce(t.reexportedLibraries, u.reexportedLibraries, f.reexports);
    SymbolsOnce(t.exports, u.exports, f.symbols, Exported);
    SymbolsOnce(t.reexports, u.reexports, f.symbols, Reexported);
    SymbolsOnce(t.undefineds, u.undefineds, f.symbols, External);
  }

  lemma MetadataOnce(ms: seq<MetadataSection>, ns: seq<MetadataSection>, refs: seq<Ref>)
    requires WrittenMetadata(ms, refs) && WrittenMetadata(ns, refs)
    ensures ms == ns
  {
    ListOrder();
    AscendingCanonical(Lists(ms), Lists(ns), ListLess);
    assert |ms| == |Lists(ms)| == |Lists(ns)| == |ns|;
    forall j | 0 <= j < |ms| ensures ms[j] == ns[j] {
      assert Lists(ms)[j] == Lists(ns)[j];
      assert MetadataFor(ms[j], refs, ms[j].targets) && MetadataFor(ns[j], refs, ns[j].targets);
      NamesCanonical(ms[j].values, ns[j].values);
    }
  }

  lemma SymbolsOnce(ss: seq<Section<seq<Target>>>, ts: seq<Section<seq<Target>>>, table: map<SymbolKey, XPI>,
                    linkage: Linkage)
    requires WrittenSymbols(ss, SpotsOf(table, linkage)) && WrittenSymbols(ts, SpotsOf(table, linkage))
    ensures ss == ts
  {
    hide SpotsOf, Written;
    ListOrder();
    AscendingCanonical(Groups(ss), Groups(ts), ListLess);
    SectionsCanonical(ss, ts, SpotsOf(table, linkage), Groups(ss));
  }

  // ----- files with the same content -----

  /** Every symbol that is written lists its targets in the same order. */
  predicate SameOrder(m: map<SymbolKey, XPI>, n: map<SymbolKey, XPI>) {
    forall k :: k in m && Available(m[k]) ==> OrderOf(m, k) == OrderOf(n, k)
  }

  lemma SameSpots(m: map<SymbolKey, XPI>, n: map<SymbolKey, XPI>, linkage: Linkage)
    requires ListedOnce(m) && ListedOnce(n) && SymbolsOf(m) == SymbolsOf(n) && SameOrder(m, n)
    ensures SpotsOf(m, linkage) == SpotsOf(n, linkage)
  {
    forall k | k in m || k in n
      ensures k in SpotsOf(m, linkage) <==> k in SpotsOf(n, linkage)
      ensures k in SpotsOf(m, linkage) ==> SpotsOf(m, linkage)[k] == SpotsOf(n, linkage)[k]
    {
      hide Available, ListedOnce, SymbolsOf, AllTargets, BucketOf;
      SameSymbol(m, n, k);
      if k in m && Available(m[k]) {
        assert OrderOf(m, k) == OrderOf(n, k);
      }
    }
  }

  lemma SpotTells(table: map<SymbolKey, XPI>, linkage: Linkage, k: SymbolKey)
    requires k in SpotsOf(table, linkage)
    ensures k in table && SpotsOf(table, linkage)[k].group == AllTargets(table[k].avail)
    ensures Reading(linkage)(SpotsOf(table, linkage)[k]).key == k
  {
    hide Available, AllTargets;
  }

  lemma HasSpot(table: map<SymbolKey, XPI>, linkage: Linkage, k: SymbolKey)
    requires k in table && Available(table[k]) && LinkageRead(table[k].linkage) == linkage
    ensures k in SpotsOf(table, linkage)
  {
    hide Available, SpotOf;
  }

  /** The same entry in both stubs is the entry of the same symbol. */
  lemma SameListedOrder(m: map<SymbolKey, XPI>, n: map<SymbolKey, XPI>, ss: seq<Section<seq<Target>>>,
                        linkage: Linkage, k: SymbolKey)
    requires WrittenSymbols(ss, SpotsOf(m, linkage)) && WrittenSymbols(ss, SpotsOf(n, linkage))
    requires k in SpotsOf(m, linkage)
    ensures k in m && k in n && AllTargets(m[k].avail) == AllTargets(n[k].avail)
  {
    hide SpotsOf, Written, Available, Reading, AllTargets, GroupsOf;
    var e := SpotsOf(m, linkage)[k];
    GroupsListed(ss, SpotsOf(m, linkage));
    EntriesAreSpots(ss, SpotsOf(m, linkage), Groups(ss), e);
    EntriesAreSpots(ss, SpotsOf(n, linkage), Groups(ss), e);
    var j :| j in SpotsOf(n, linkage) && SpotsOf(n, linkage)[j] == e;
    SpotTells(m, linkage, k);
    SpotTells(n, linkage, j);
  }

  lemma WrittenAsToo(f: Interface, g: Interface, u: TBDv4)
    requires Flat(f) && Flat(g) && WrittenAs(g, u) && SansPath(Content(f)) == SansPath(Content(g))
    requires SameOrder(f.symbols, g.symbols)
    ensures WrittenAs(f, u)
  {
    hide WrittenMetadata, WrittenSymbols, SpotsOf, SortedRefs, UmbrellaLinks, Links, SymbolsOf, SameOrder;
    SameFields(f, g);
    SameSpots(f.symbols, g.symbols, Exported);
    SameSpots(f.symbols, g.symbols, Reexported);
    SameSpots(f.symbols, g.symbols, External);
  }

  /** Two files of the same content are written alike exactly when every symbol
      that is written had its targets added in the same order. */
  lemma WrittenAlike(f: Interface, g: Interface, t: TBDv4, u: TBDv4)
    requires Flat(f) && Flat(g) && WrittenAs(f, t) && WrittenAs(g, u) && SansPath(Content(f)) == SansPath(Content(g))
    ensures t == u <==> SameOrder(f.symbols, g.symbols)
  {
    hide Flat, Content, SansPath, Available, SpotsOf, WrittenSymbols, WrittenMetadata, UmbrellaLinks, SortedRefs, Links;
    if SameOrder(f.symbols, g.symbols) {
      hide WrittenAs, SameOrder;
      WrittenAsToo(f, g, u);
      WrittenOnce(f, t, u);
    }
    if t == u {
      forall k | k in f.symbols && Available(f.symbols[k])
        ensures OrderOf(f.symbols, k) == OrderOf(g.symbols, k)
      {
        var linkage := LinkageRead(f.symbols[k].linkage);
        var ss :=
          if linkage == Exported then t.exports else if linkage == Reexported then t.reexports else t.undefineds;
        HasSpot(f.symbols, linkage, k);
        SameListedOrder(f.symbols, g.symbols, ss, linkage, k);
      }
    }
  }

  // ----- reading -----

  /** The symbols of the three lists, read one after the other into a fresh set. */
  function SymbolsRead(t: TBDv4): map<SymbolKey, Symbol> {
    var exports := ReadAll(map[], Facts(AllEntries(t.exports), Reading(Exported)));
    var reexports := ReadAll(exports, Facts(AllEntries(t.reexports), Reading(Reexported)));
    ReadAll(reexports, Facts(AllEntries(t.undefineds), Reading(External)))
  }

  predicate ReadAs(t: TBDv4, path: string, fileType: Version, withSymbols: bool, g: Interface) {
    Flat(g) && g.path == path && g.fileType == fileType && g.swiftVersion == t.swiftVersion &&
    g.header == Header(t.installName, t.currentVersion, t.compatibilityVersion, !t.flags.flatNamespace,
                       !t.flags.notAppExtensionSafe, t.flags.installAPI) &&
    Members(g.targets) == Members(t.targets) && AsMap(g.uuids) == AsMap(t.uuids) &&
    AsMap(g.umbrellas) == AsMap(AllUmbrellaPairs(t.parentUmbrellas)) &&
    Links(g.clients) == MetadataLinks(t.allowableClients) &&
      Links(g.reexports) == MetadataLinks(t.reexportedLibraries) &&
    SymbolsOf(g.symbols) == (if withSymbols then SymbolsRead(t) else map[]) && g.documents == []
  }

  method Denormalize(t: TBDv4, path: string, fileType: Version, withSymbols: bool) returns (g: Interface)
    ensures ReadAs(t, path, fileType, withSymbols, g)
  {
    hide Flat, Members, AsMap, Links, SymbolsOf, ListedOnce, AllUmbrellaPairs, MetadataLinks, SymbolsRead;
    var built := ReadVectors(t, path, fileType);
    ghost var before := built.Value();
    if withSymbols {
      ReadSymbols(built.symbols, t);
      OtherSymbols(before, built.symbols.table);
    }
    g := built.Value();
  }

  lemma OtherSymbols(f: Interface, table: map<SymbolKey, XPI>)
    requires Flat(f) && ListedOnce(table)
    ensures Flat(f.(symbols := table))
  {
  }

  method ReadVectors(t: TBDv4, path: string, fileType: Version) returns (built: InterfaceFile)
    ensures fresh(built) && fresh(built.symbols) && built.symbols.Valid() && built.symbols.Content() == map[]
    ensures ReadAs(t, path, fileType, false, built.Value())
  {
    built := new InterfaceFile();
    EmptyIsFlat();
    hide SortedTargets, SortedUmbrellas, SortedRefs, SortedPairs, ListedOnce, Members, AsMap, Links, SymbolsOf;
    hide AllUmbrellaPairs, MetadataLinks;
    built.path, built.fileType, built.swiftVersion := path, fileType, t.swiftVersion;
    built.header := Header(t.installName, t.currentVersion, t.compatibilityVersion, !t.flags.flatNamespace,
                           !t.flags.notAppExtensionSafe, t.flags.installAPI);
    ReadTargets(built, t);
    ReadLibraries(built, t);
  }

  method ReadTargets(built: InterfaceFile, t: TBDv4)
    requires built.uuids == [] && built.targets == []
    modifies built`uuids, built`targets, built`umbrellas
    ensures SortedTargets(built.targets) && SortedPairs(built.uuids) && SortedUmbrellas(built.umbrellas)
    ensures Members(built.targets) == Members(t.targets) && AsMap(built.uuids) == AsMap(t.uuids)
    ensures AsMap(built.umbrellas) == AsMap(AllUmbrellaPairs(t.parentUmbrellas))
  {
    var every := (arch: Arch) => true;
    EmptyIsFlat();
    KeepAll(t, every);
    hide SortedTargets, SortedUmbrellas, SortedPairs, Members, AsMap, KeptTargets, KeptPairs, AllUmbrellaPairs;
    built.uuids := SetRange(built.uuids, t.uuids, every);
    built.targets := AddTargetRange(built.targets, t.targets, every);
    built.umbrellas := ReadUmbrellas(t.parentUmbrellas);
  }

  method ReadLibraries(built: InterfaceFile, t: TBDv4)
    requires built.clients == [] && built.reexports == []
    modifies built`clients, built`reexports
    ensures SortedRefs(built.clients) && Links(built.clients) == MetadataLinks(t.allowableClients)
    ensures SortedRefs(built.reexports) && Links(built.reexports) == MetadataLinks(t.reexportedLibraries)
  {
    EmptyIsFlat();
    KeepAll(t, arch => true);
    hide SortedRefs, Links, MetadataLinks;
    built.clients := ReadMetadata(built.clients, t.allowableClients);
    built.reexports := ReadMetadata(built.reexports, t.reexportedLibraries);
  }

  lemma KeepAll(t: TBDv4, keep: Arch -> bool)
    requires forall arch :: keep(arch)
    ensures {} + KeptTargets(Members(t.targets), keep) == Members(t.targets)
    ensures map[] + KeptPairs(AsMap(t.uuids), keep) == AsMap(t.uuids)
    ensures {} + MetadataLinks(t.allowableClients) == MetadataLinks(t.allowableClients)
    ensures {} + MetadataLinks(t.reexportedLibraries) == MetadataLinks(t.reexportedLibraries)
  {
  }

  method ReadSymbols(into: XPISet, t: TBDv4)
    requires into.Valid() && into.Content() == map[]
    modifies into
    ensures into.Valid() && into.Content() == SymbolsRead(t)
  {
    hide ReadAll, Facts, AllEntries, Reading;
    ReadSections(into, t.exports, Reading(Exported));
    ReadSections(into, t.reexports, Reading(Reexported));
    ReadSections(into, t.undefineds, Reading(External));
  }

  // ----- the round trip -----

  /** What a symbol is after it was written and read. */
  function Reread(k: SymbolKey, s: Symbol): Symbol {
    var linkage := LinkageRead(s.linkage);
    Renewed(k, Symbol(linkage, FlagsRead(BucketOf(k.kind, s.flags), linkage), NoAccess, s.avail))
  }

  function SymbolsBack(table: map<SymbolKey, XPI>, linkages: set<Linkage>): map<SymbolKey, Symbol> {
    map k | k in table && Available(table[k]) && LinkageRead(table[k].linkage) in linkages ::
      Reread(k, SymbolOf(table[k]))
  }

  lemma OneListBack(m: map<SymbolKey, Symbol>, ss: seq<Section<seq<Target>>>, table: map<SymbolKey, XPI>,
                    linkage: Linkage)
    requires WrittenSymbols(ss, SpotsOf(table, linkage)) && m.Keys !! SpotsOf(table, linkage).Keys
    ensures ReadAll(m, Facts(AllEntries(ss), Reading(linkage))) == m + SymbolsBack(table, {linkage})
  {
    SpotUnderstood(table, linkage);
    GroupsListed(ss, SpotsOf(table, linkage));
    ReadBackIs(table, linkage);
    hide SpotsOf, Written, Understands, ReadAll, Facts, AllEntries, Reading, SymbolsBack, ReadBack;
    ListOrder();
    AscendingOnce(Groups(ss), ListLess);
    ReadWritten(m, ss, SpotsOf(table, linkage), Groups(ss), Reading(linkage));
  }

  lemma GroupsListed(ss: seq<Section<seq<Target>>>, spots: map<SymbolKey, Spot<seq<Target>>>)
    requires WrittenSymbols(ss, spots)
    ensures forall k :: k in spots ==> spots[k].group in Groups(ss)
  {
    forall k | k in spots ensures spots[k].group in Groups(ss) {
      assert spots[k].group in GroupsOf(spots);
      assert spots[k].group in Members(Groups(ss));
    }
  }

  lemma ReadBackIs(table: map<SymbolKey, XPI>, linkage: Linkage)
    ensures ReadBack(SpotsOf(table, linkage), Reading(linkage)) == SymbolsBack(table, {linkage})
  {
    hide Available;
    forall k | k in SpotsOf(table, linkage)
      ensures FactSymbol(Reading(linkage)(SpotsOf(table, linkage)[k])) == Reread(k, SymbolOf(table[k]))
    {
      RereadIs(k, table[k]);
    }
  }

  lemma RereadIs(k: SymbolKey, x: XPI)
    ensures FactSymbol(Reading(LinkageRead(x.linkage))(SpotOf(k, x))) == Reread(k, SymbolOf(x))
  {
    AllTargetsMembers(x.avail);
    var f := Reading(LinkageRead(x.linkage))(SpotOf(k, x));
    assert AsRequest(f).avail.Keys == SymbolOf(x).avail.Keys;
    assert FactSymbol(f).avail == Reread(k, SymbolOf(x)).avail;
  }

  lemma ThreeListsBack(t: TBDv4, table: map<SymbolKey, XPI>)
    requires WrittenSymbols(t.exports, SpotsOf(table, Exported))
    requires WrittenSymbols(t.reexports, SpotsOf(table, Reexported))
    requires WrittenSymbols(t.undefineds, SpotsOf(table, External))
    ensures SymbolsRead(t) == SymbolsBack(table, {Exported, Reexported, External})
  {
    ListsApart(table);
    hide SymbolsBack, SpotsOf, WrittenSymbols, ReadAll, Facts, AllEntries, Reading;
    OneListBack(map[], t.exports, table, Exported);
    OneListBack(SymbolsBack(table, {Exported}), t.reexports, table, Reexported);
    OneListBack(SymbolsBack(table, {Exported, Reexported}), t.undefineds, table, External);
  }

  lemma ListsApart(table: map<SymbolKey, XPI>)
    ensures map[] + SymbolsBack(table, {Exported}) == SymbolsBack(table, {Exported})
    ensures SymbolsBack(table, {Exported}) + SymbolsBack(table, {Reexported})
         == SymbolsBack(table, {Exported, Reexported})
    ensures SymbolsBack(table, {Exported, Reexported}) + SymbolsBack(table, {External})
         == SymbolsBack(table, {Exported, Reexported, External})
    ensures SymbolsBack(table, {Exported}).Keys !! SpotsOf(table, Reexported).Keys
    ensures SymbolsBack(table, {Exported, Reexported}).Keys !! SpotsOf(table, External).Keys
  {
    hide Available, Reread;
  }

  // ----- every available symbol is filed once -----

  /** Everything a reader finds in the three lists, in order. */
  function AllFacts(t: TBDv4): seq<Fact> {
    Facts(AllEntries(t.exports), Reading(Exported)) + Facts(AllEntries(t.reexports), Reading(Reexported)) +
    Facts(AllEntries(t.undefineds), Reading(External))
  }

  /** Every available symbol is in exactly one list of exactly one section, and no
      other symbol is in any. */
  lemma FiledOnce(f: Interface, t: TBDv4)
    requires WrittenAs(f, t)
    ensures DistinctFacts(map[], AllFacts(t))
    ensures KeysOf(AllFacts(t)) == set k | k in f.symbols && Available(f.symbols[k])
  {
    var exports, reexports := Facts(AllEntries(t.exports), Reading(Exported)),
      Facts(AllEntries(t.reexports), Reading(Reexported));
    var undefineds := Facts(AllEntries(t.undefineds), Reading(External));
    ListFiled(t.exports, f.symbols, Exported);
    ListFiled(t.reexports, f.symbols, Reexported);
    ListFiled(t.undefineds, f.symbols, External);
    ListsDisjoint(f.symbols);
    hide WrittenSymbols, SpotsOf, Facts, AllEntries, Reading, KeysOf, DistinctFacts;
    JoinFacts(exports, reexports);
    JoinFacts(exports + reexports, undefineds);
  }

  lemma ListFiled(ss: seq<Section<seq<Target>>>, table: map<SymbolKey, XPI>, linkage: Linkage)
    requires WrittenSymbols(ss, SpotsOf(table, linkage))
    ensures DistinctFacts(map[], Facts(AllEntries(ss), Reading(linkage)))
    ensures KeysOf(Facts(AllEntries(ss), Reading(linkage))) == SpotsOf(table, linkage).Keys
  {
    SpotUnderstood(table, linkage);
    GroupsListed(ss, SpotsOf(table, linkage));
    hide SpotsOf, Written, Understands, Facts, AllEntries, Reading, ReadBack;
    ListOrder();
    AscendingOnce(Groups(ss), ListLess);
    WrittenFacts(map[], ss, SpotsOf(table, linkage), Groups(ss), Reading(linkage));
  }

  lemma ListsDisjoint(table: map<SymbolKey, XPI>)
    ensures SpotsOf(table, Exported).Keys !! SpotsOf(table, Reexported).Keys
    ensures (SpotsOf(table, Exported).Keys + SpotsOf(table, Reexported).Keys) !! SpotsOf(table, External).Keys
    ensures SpotsOf(table, Exported).Keys + SpotsOf(table, Reexported).Keys + SpotsOf(table, External).Keys
         == set k | k in table && Available(table[k])
  {
    hide Available, SpotOf;
  }

  lemma JoinFacts(facts: seq<Fact>, more: seq<Fact>)
    requires DistinctFacts(map[], facts) && DistinctFacts(map[], more) && KeysOf(facts) !! KeysOf(more)
    ensures DistinctFacts(map[], facts + more) && KeysOf(facts + more) == KeysOf(facts) + KeysOf(more)
  {
    forall i, j | 0 <= i < |facts| && 0 <= j < |more| ensures facts[i].key != more[j].key {
      assert facts[i].key in KeysOf(facts) && more[j].key in KeysOf(more);
    }
    forall j | 0 <= j < |more| ensures more[j].key in KeysOf(facts + more) {
      assert (facts + more)[|facts| + j] == more[j];
    }
    forall i | 0 <= i < |facts| ensures facts[i].key in KeysOf(facts + more) {
      assert (facts + more)[i] == facts[i];
    }
  }

  function Survivors(table: map<SymbolKey, XPI>): map<SymbolKey, Symbol> {
    map k | k in table && Available(table[k]) :: Reread(k, SymbolOf(table[k]))
  }

  /** Everything but the path, the documents and the details of symbols comes back;
      a symbol comes back, once, exactly when it is available. */
  lemma RoundTrip(f: Interface, t: TBDv4, path: string, fileType: Version, g: Interface)
    requires Flat(f) && WrittenAs(f, t) && ReadAs(t, path, fileType, true, g)
    ensures Content(g)
         == Content(f).(path := path, fileType := fileType, documents := [], symbols := Survivors(f.symbols))
    ensures SameVectors(f, g)
  {
    UmbrellasKept(f.umbrellas, t.parentUmbrellas);
    MetadataKept(t.allowableClients, f.clients);
    MetadataKept(t.reexportedLibraries, f.reexports);
    ThreeListsBack(t, f.symbols);
    AllSurvivors(f.symbols);
    hide WrittenMetadata, WrittenSymbols, UmbrellaLinks, Links, SpotsOf, SymbolsOf, SymbolsBack, Survivors, SymbolsRead;
    hide AllUmbrellaPairs, MetadataLinks, AsMap, SortedPairs, SortedRefs, SortedTargets, Members, ListedOnce;
    TargetsCanonical(f.targets, g.targets);
    PairsCanonical(f.umbrellas, g.umbrellas);
    PairsCanonical(f.uuids, g.uuids);
    RefsCanonical(f.clients, g.clients);
    RefsCanonical(f.reexports, g.reexports);
  }

  lemma SymbolBack(f: Interface, t: TBDv4, path: string, fileType: Version, g: Interface, k: SymbolKey)
    requires Flat(f) && WrittenAs(f, t) && ReadAs(t, path, fileType, true, g)
    requires k in f.symbols && Available(f.symbols[k])
    ensures k in Content(g).symbols && Content(g).symbols[k] == Reread(k, SymbolOf(f.symbols[k]))
  {
    hide WrittenAs, ReadAs, Flat, Available, Reread, SameVectors;
    RoundTrip(f, t, path, fileType, g);
    assert Content(g).symbols == Survivors(f.symbols);
  }

  lemma AllSurvivors(table: map<SymbolKey, XPI>)
    ensures SymbolsBack(table, {Exported, Reexported, External}) == Survivors(table)
  {
    hide Available, Reread;
  }

  // ----- which symbols come back as they were -----

  predicate Writable(k: SymbolKey, s: Symbol) {
    (s.linkage == Exported || s.linkage == Reexported || s.linkage == External) && s.access == NoAccess &&
    (forall t :: t in s.avail ==> s.avail[t] == DEFAULT) &&
    (s.flags == NO_FLAGS || (k.kind == GlobalSymbol && WritableFlags(s)))
  }

  /** Weakly defined symbols survive unless they are plainly exported. */
  predicate WritableFlags(s: Symbol) {
    s.flags == SymbolFlags(true, false, false) || (s.flags == SymbolFlags(false, true, false) && s.linkage != Exported)
  }

  lemma SymbolRestored(k: SymbolKey, s: Symbol)
    ensures Reread(k, s) == s <==> Writable(k, s)
  {
    var r := Reread(k, s);
    if Writable(k, s) {
      assert r.avail == s.avail;
      assert r.flags == s.flags;
    }
    if r == s {
      forall t | t in s.avail ensures s.avail[t] == DEFAULT {
        assert r.avail[t] == DEFAULT;
      }
    }
  }

  /** A file comes back whole, path and documents aside, exactly when every symbol
      is available and of a writable sort. */
  lemma RoundTripIsIdentity(f: Interface, t: TBDv4, path: string, fileType: Version, g: Interface)
    requires Flat(f) && WrittenAs(f, t) && ReadAs(t, path, fileType, true, g)
    ensures Content(g) == Content(f).(path := path, fileType := fileType, documents := [])
       <==> forall k :: k in f.symbols ==> Available(f.symbols[k]) && Writable(k, SymbolOf(f.symbols[k]))
  {
    RoundTrip(f, t, path, fileType, g);
    hide WrittenAs, ReadAs, Flat, Available, Reread, Writable;
    assert Content(f).symbols == SymbolsOf(f.symbols);
    forall k | k in f.symbols
      ensures Reread(k, SymbolOf(f.symbols[k])) == SymbolOf(f.symbols[k]) <==> Writable(k, SymbolOf(f.symbols[k]))
    {
      SymbolRestored(k, SymbolOf(f.symbols[k]));
    }
    AllBack(f.symbols);
  }

  lemma AllBack(table: map<SymbolKey, XPI>)
    ensures Survivors(table) == SymbolsOf(table)
       <==> forall k :: k in table ==> Available(table[k]) && Reread(k, SymbolOf(table[k])) == SymbolOf(table[k])
  {
    hide Available, Reread;
    var back, whole := Survivors(table), SymbolsOf(table);
    if back == whole {
      forall k | k in table ensures Available(table[k]) && Reread(k, SymbolOf(table[k])) == SymbolOf(table[k]) {
        assert k in whole && k in back && back[k] == whole[k];
      }
    }
    if forall k :: k in table ==> Available(table[k]) && Reread(k, SymbolOf(table[k])) == SymbolOf(table[k]) {
      forall k | k in table ensures k in back && back[k] == whole[k] {
      }
      assert back == whole;
    }
  }

  // ----- inputs that come back otherwise, or are written otherwise -----

  lemma WeakIsAvailable(k: SymbolKey, at: Target)
    ensures var weak := XPI(Exported, SymbolFlags(false, true, false), NoAccess, [(at, DEFAULT)]);
            var f := OneSymbol(k, weak);
            Flat(f) && k in f.symbols && Available(f.symbols[k]) &&
            Content(f).symbols[k].flags == SymbolFlags(false, true, false) &&
            (k.kind == GlobalSymbol ==> Reread(k, SymbolOf(f.symbols[k])).flags == SymbolFlags(false, false, true))
  {
    var weak := XPI(Exported, SymbolFlags(false, true, false), NoAccess, [(at, DEFAULT)]);
    OneSymbolIsFlat(k, weak);
    assert Usable(weak.avail[0].1);
  }

  /** An exported weakly defined symbol comes back weakly referenced: a file that
      does not come back whole. */
  lemma ExportedWeakChanges(name: string, at: Target, t: TBDv4, path: string, fileType: Version, g: Interface)
    requires var weak := XPI(Exported, SymbolFlags(false, true, false), NoAccess, [(at, DEFAULT)]);
             var f := OneSymbol(SymbolKey(GlobalSymbol, name), weak);
             WrittenAs(f, t) && ReadAs(t, path, fileType, true, g)
    ensures var k := SymbolKey(GlobalSymbol, name);
            k in Content(g).symbols && Content(g).symbols[k].flags == SymbolFlags(false, false, true)
    ensures var weak := XPI(Exported, SymbolFlags(false, true, false), NoAccess, [(at, DEFAULT)]);
            Content(g).symbols != Content(OneSymbol(SymbolKey(GlobalSymbol, name), weak)).symbols
  {
    var k := SymbolKey(GlobalSymbol, name);
    hide WrittenAs, ReadAs, Content, Flat, Available, OneSymbol, Reread, SymbolOf;
    WeakIsAvailable(k, at);
    var f := OneSymbol(k, XPI(Exported, SymbolFlags(false, true, false), NoAccess, [(at, DEFAULT)]));
    SymbolBack(f, t, path, fileType, g, k);
  }

  /** Two files of the same content, each with one symbol on the same two targets,
      that are written differently. */
  lemma OrderShows(name: string, a: Target, b: Target, t: TBDv4, u: TBDv4)
    requires a != b
    requires WrittenAs(OneSymbol(SymbolKey(GlobalSymbol, name), OnTargets([a, b])), t)
    requires WrittenAs(OneSymbol(SymbolKey(GlobalSymbol, name), OnTargets([b, a])), u)
    ensures Content(OneSymbol(SymbolKey(GlobalSymbol, name), OnTargets([a, b])))
         == Content(OneSymbol(SymbolKey(GlobalSymbol, name), OnTargets([b, a])))
    ensures t != u
  {
    hide WrittenAs, SpotsOf, Flat, Content, Available, OrderOf, OnTargets, AsMap;
    var k := SymbolKey(GlobalSymbol, name);
    TwoTargets(k, a, b);
    TwoTargets(k, b, a);
    var f, g := OneSymbol(k, OnTargets([a, b])), OneSymbol(k, OnTargets([b, a]));
    assert map[a := DEFAULT, b := DEFAULT] == map[b := DEFAULT, a := DEFAULT];
    WrittenAlike(f, g, t, u);
    assert [a, b][0] != [b, a][0];
  }

  lemma TwoTargets(k: SymbolKey, a: Target, b: Target)
    requires a != b
    ensures var f := OneSymbol(k, OnTargets([a, b]));
            Flat(f) && k in f.symbols && Available(f.symbols[k]) && OrderOf(f.symbols, k) == [a, b] &&
            Content(f) == File(f.header, f.fileType, "", 0, {}, map[], {}, {}, map[],
                               map[k := Symbol(Exported, NO_FLAGS, NoAccess, map[a := DEFAULT, b := DEFAULT])], [])
  {
    var x := OnTargets([a, b]);
    PairMap(x.avail, a, b);
    OneSymbolIsFlat(k, x);
    assert Usable(x.avail[0].1);
  }

  lemma PairMap(v: seq<(Target, Availability)>, a: Target, b: Target)
    requires v == [(a, DEFAULT), (b, DEFAULT)]
    ensures AsMap(v) == map[a := DEFAULT, b := DEFAULT]
  {
    AsMapNext(v, 0);
    AsMapNext(v, 1);
    assert v[..0] == [] && v[..2] == v;
  }
}

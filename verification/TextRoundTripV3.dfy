/** Writing a stub of version 2 or 3 and reading it back. */
module TextRoundTripV3 {
  import opened InterfaceAlgebra
  import opened InterfaceTheorems
  import opened SortedVectors
  import opened InterfaceFiles
  import opened SymbolSets
  import opened InterfaceOperations
  import opened InterfaceCanonical
  import opened TextSections
  import opened TextStubV4
  import opened TextContent
  import opened TextStubV3

  // ----- reading -----

  /** A library named in a section counts for the targets made up for it. */
  function ClientSections(es: seq<ExportSection>, platforms: set<nat>): seq<MetadataSection> {
    seq(|es|, i requires 0 <= i < |es| =>
      MetadataSection(Synthesized(es[i].names.group, platforms), es[i].allowableClients))
  }

  function LibrarySections(es: seq<ExportSection>, platforms: set<nat>): seq<MetadataSection> {
    seq(|es|, i requires 0 <= i < |es| =>
      MetadataSection(Synthesized(es[i].names.group, platforms), es[i].reexportedLibraries))
  }

  /** Each uuid goes to every target of its architecture; the last one stays. */
  function Spread(ts: set<Target>, ids: seq<(Target, string)>): map<Target, string> {
    if ids == [] then map[]
    else
      var id := ids[|ids| - 1];
      Spread(ts, ids[..|ids| - 1]) + (map t | t in ts && t.arch == id.0.arch :: id.1)
  }

  /** Every target gets the one umbrella, unless there is none. */
  function Everywhere(ts: set<Target>, umbrella: string): map<Target, string> {
    map t | t in ts && umbrella != "" :: umbrella
  }

  function SymbolsReadOld(t: TBD, version: nat): map<SymbolKey, Symbol> {
    var exports := ReadAll(map[], Facts(AllEntries(NameSections(t.exports)), ReadingOld(false, version, t.platforms)));
    ReadAll(exports, Facts(AllEntries(t.undefineds), ReadingOld(true, version, t.platforms)))
  }

  /** Version 1 has no flags: it means two-level namespace and extension safe. */
  function HeaderRead(t: TBD, version: nat): Header {
    if version == 1 then Header(t.installName, t.currentVersion, t.compatibilityVersion, true, true, false)
    else Header(t.installName, t.currentVersion, t.compatibilityVersion, !t.flags.flatNamespace,
                !t.flags.notAppExtensionSafe, t.flags.installAPI)
  }

  predicate ReadOldAs(t: TBD, version: nat, path: string, fileType: Version, withSymbols: bool, g: Interface) {
    Flat(g) && g.path == path && g.fileType == fileType && g.swiftVersion == t.swiftVersion &&
      g.header == HeaderRead(t, version) &&
    Members(g.targets) == Members(Synthesized(t.architectures, t.platforms)) &&
    AsMap(g.uuids) == Spread(Members(g.targets), t.uuids) &&
    AsMap(g.umbrellas) == Everywhere(Members(g.targets), t.parentUmbrella) &&
    Links(g.clients) == MetadataLinks(ClientSections(t.exports, t.platforms)) &&
    Links(g.reexports) == MetadataLinks(LibrarySections(t.exports, t.platforms)) &&
    SymbolsOf(g.symbols) == (if withSymbols then SymbolsReadOld(t, version) else map[]) && g.documents == []
  }

  /** One uuid, for the targets of its architecture. */
  method SpreadOne(v: seq<(Target, string)>, ts: seq<Target>, id: (Target, string)) returns (w: seq<(Target, string)>)
    requires SortedPairs(v)
    ensures SortedPairs(w) && AsMap(w) == AsMap(v) + (map t | t in Members(ts) && t.arch == id.0.arch :: id.1)
  {
    w := v;
    for i := 0 to |ts|
      invariant SortedPairs(w) && AsMap(w) == AsMap(v) + OnArch(Members(ts[..i]), id)
    {
      hide SortedPairs, AsMap;
      assert Members(ts[..i + 1]) == Members(ts[..i]) + {ts[i]};
      OnArchNext(AsMap(v), Members(ts[..i]), ts[i], id);
      hide OnArch, Members;
      if ts[i].arch == id.0.arch {
        w := SetEntry(w, ts[i], id.1);
      }
    }
    assert ts[..|ts|] == ts;
  }

  function OnArch(ts: set<Target>, id: (Target, string)): map<Target, string> {
    map t | t in ts && t.arch == id.0.arch :: id.1
  }

  lemma OnArchNext(base: map<Target, string>, ts: set<Target>, t: Target, id: (Target, string))
    ensures base + OnArch(ts + {t}, id)
         == if t.arch == id.0.arch then (base + OnArch(ts, id))[t := id.1] else base + OnArch(ts, id)
  {
  }

  method SpreadUUIDs(ts: seq<Target>, ids: seq<(Target, string)>) returns (w: seq<(Target, string)>)
    ensures SortedPairs(w) && AsMap(w) == Spread(Members(ts), ids)
  {
    w := [];
    for i := 0 to |ids|
      invariant SortedPairs(w) && AsMap(w) == Spread(Members(ts), ids[..i])
    {
      assert ids[..i + 1][..i] == ids[..i];
      hide SortedPairs, AsMap;
      w := SpreadOne(w, ts, ids[i]);
    }
    assert ids[..|ids|] == ids;
  }

  method SpreadUmbrella(ts: seq<Target>, umbrella: string) returns (w: seq<(Target, string)>)
    ensures SortedUmbrellas(w) && AsMap(w) == Everywhere(Members(ts), umbrella)
  {
    w := [];
    assert Everywhere(Members(ts[..0]), umbrella) == map[];
    for i := 0 to |ts|
      invariant SortedUmbrellas(w) && AsMap(w) == Everywhere(Members(ts[..i]), umbrella)
    {
      hide SortedUmbrellas, AsMap;
      assert Members(ts[..i + 1]) == Members(ts[..i]) + {ts[i]};
      EverywhereNext(Members(ts[..i]), ts[i], umbrella);
      hide Everywhere, Members;
      w := SetUmbrella(w, ts[i], umbrella);
    }
    assert ts[..|ts|] == ts;
  }

  lemma EverywhereNext(ts: set<Target>, t: Target, umbrella: string)
    ensures Everywhere(ts + {t}, umbrella)
         == if umbrella == "" then Everywhere(ts, umbrella) else Everywhere(ts, umbrella)[t := umbrella]
  {
  }

  method DenormalizeOld(t: TBD, version: nat, path: string, fileType: Version, withSymbols: bool) returns (g: Interface)
    ensures ReadOldAs(t, version, path, fileType, withSymbols, g)
  {
    hide SortedTargets, SortedUmbrellas, SortedRefs, SortedPairs, ListedOnce, Members, AsMap, Links, SymbolsOf;
    hide Everywhere, Spread, MetadataLinks, Synthesized, SymbolsReadOld, ClientSections, LibrarySections, HeaderRead;
    EmptyIsFlat();
    var built := new InterfaceFile();
    built.path, built.fileType := path, fileType;
    built.header, built.swiftVersion := HeaderRead(t, version), t.swiftVersion;
    ReadOldTargets(built, t);
    ReadOldLibraries(built, t);
    if withSymbols {
      ReadOldSymbols(built.symbols, t, version);
    }
    g := built.Value();
  }

  method ReadOldTargets(built: InterfaceFile, t: TBD)
    requires built.targets == []
    modifies built`targets, built`uuids, built`umbrellas
    ensures SortedTargets(built.targets) && SortedPairs(built.uuids) && SortedUmbrellas(built.umbrellas)
    ensures Members(built.targets) == Members(Synthesized(t.architectures, t.platforms))
    ensures AsMap(built.uuids) == Spread(Members(built.targets), t.uuids)
    ensures AsMap(built.umbrellas) == Everywhere(Members(built.targets), t.parentUmbrella)
  {
    var every := (arch: Arch) => true;
    var made := Synthesized(t.architectures, t.platforms);
    assert Members(built.targets) + KeptTargets(Members(made), every) == Members(made);
    hide SortedTargets, SortedUmbrellas, SortedPairs, Members, AsMap, Everywhere, Spread, KeptTargets;
    EmptyIsFlat();
    built.targets := AddTargetRange(built.targets, made, every);
    built.uuids := SpreadUUIDs(built.targets, t.uuids);
    built.umbrellas := SpreadUmbrella(built.targets, t.parentUmbrella);
  }

  method ReadOldLibraries(built: InterfaceFile, t: TBD)
    requires built.clients == [] && built.reexports == []
    modifies built`clients, built`reexports
    ensures SortedRefs(built.clients) && Links(built.clients) == MetadataLinks(ClientSections(t.exports, t.platforms))
    ensures SortedRefs(built.reexports) &&
            Links(built.reexports) == MetadataLinks(LibrarySections(t.exports, t.platforms))
  {
    EmptyIsFlat();
    NoneYet(MetadataLinks(ClientSections(t.exports, t.platforms)));
    NoneYet(MetadataLinks(LibrarySections(t.exports, t.platforms)));
    hide SortedRefs, Links, MetadataLinks, ClientSections, LibrarySections;
    built.clients := ReadMetadata(built.clients, ClientSections(t.exports, t.platforms));
    built.reexports := ReadMetadata(built.reexports, LibrarySections(t.exports, t.platforms));
  }

  lemma NoneYet(links: set<(string, Target)>)
    ensures {} + links == links
  {
  }

  method ReadOldSymbols(into: XPISet, t: TBD, version: nat)
    requires into.Valid() && into.Content() == map[]
    modifies into
    ensures into.Valid() && into.Content() == SymbolsReadOld(t, version)
  {
    hide ReadAll, Facts, AllEntries, ReadingOld;
    ReadSections(into, NameSections(t.exports), ReadingOld(false, version, t.platforms));
    ReadSections(into, t.undefineds, ReadingOld(true, version, t.platforms));
  }

  predicate StubReadAs(s: Stub, version: nat, path: string, fileType: Version, withSymbols: bool,
                       g: Option<Interface>)
  {
    match ReadPlatformWord(s.platform, version)
    case None => g == None
    case Some(platforms) =>
      g.Some? && ReadOldAs(s.body.(platforms := platforms), version, path, fileType, withSymbols, g.value)
  }

  /** A file is read unless its platform word is unknown to the version. */
  method ReadStub(s: Stub, version: nat, path: string, fileType: Version, withSymbols: bool)
    returns (g: Option<Interface>)
    ensures StubReadAs(s, version, path, fileType, withSymbols, g)
  {
    hide ReadOldAs;
    match ReadPlatformWord(s.platform, version)
    case None => g := None;
    case Some(platforms) =>
      var file := DenormalizeOld(s.body.(platforms := platforms), version, path, fileType, withSymbols);
      g := Some(file);
  }

  // ----- the platform word -----

  /** What the platforms are after they were written as one word and read. */
  function PlatformsBack(platforms: set<nat>, version: nat): Option<set<nat>>
    requires platforms != {}
  {
    match PlatformWord(platforms, version)
    case None => None
    case Some(word) => ReadPlatformWord(word, version)
  }

  predicate PlatformsKept(platforms: set<nat>, version: nat) {
    platforms == {0} || platforms == {MACOS} || platforms == {IOS} || platforms == {TVOS} || platforms == {WATCHOS} ||
    (version >= 3 && (platforms == {CATALYST} || platforms == {MACOS, CATALYST}))
  }

  /** The word can be read whenever it can be written, and it tells these platforms
      and no others. */
  lemma PlatformWordKept(platforms: set<nat>, version: nat)
    requires platforms != {}
    ensures PlatformWord(platforms, version).Some? <==> PlatformsBack(platforms, version).Some?
    ensures PlatformsBack(platforms, version) == Some(platforms) <==> PlatformsKept(platforms, version)
  {
  }

  // ----- libraries -----

  /** The libraries, each with the targets made up for its architectures. */
  function Remade(refs: seq<Ref>, platforms: set<nat>): set<(string, Target)> {
    set i, t | 0 <= i < |refs| && t in Synthesized(ArchsOn(refs[i]), platforms) :: (refs[i].installName, t)
  }

  lemma {:induction false} NamedFor(refs: seq<Ref>, archs: set<Arch>, n: string)
    ensures n in NamesFor(refs, archs) <==>
            exists i :: 0 <= i < |refs| && ArchsOn(refs[i]) == archs && refs[i].installName == n
  {
    if refs != [] {
      var front, last := refs[..|refs| - 1], refs[|refs| - 1];
      NamedFor(front, archs, n);
      assert forall i :: 0 <= i < |front| ==> front[i] == refs[i];
    }
  }

  predicate SectionsFor(ms: seq<MetadataSection>, groups: seq<set<Arch>>, refs: seq<Ref>, platforms: set<nat>) {
    |ms| == |groups| &&
    (forall j :: 0 <= j < |ms| ==>
      ms[j] == MetadataSection(Synthesized(groups[j], platforms), NamesFor(refs, groups[j]))) &&
    forall i :: 0 <= i < |refs| ==> ArchsOn(refs[i]) in groups
  }

  lemma LibrariesRemade(ms: seq<MetadataSection>, groups: seq<set<Arch>>, refs: seq<Ref>, platforms: set<nat>)
    requires SectionsFor(ms, groups, refs, platforms)
    ensures MetadataLinks(ms) == Remade(refs, platforms)
  {
    hide Synthesized, ArchsOn, NamesFor;
    forall p | p in MetadataLinks(ms) ensures p in Remade(refs, platforms) {
      var j, n, t :| 0 <= j < |ms| && n in ms[j].values && t in ms[j].targets && p == (n, t);
      NamedFor(refs, groups[j], n);
      var i :| 0 <= i < |refs| && ArchsOn(refs[i]) == groups[j] && refs[i].installName == n;
      assert t in Synthesized(ArchsOn(refs[i]), platforms);
    }
    forall p | p in Remade(refs, platforms) ensures p in MetadataLinks(ms) {
      var i, t :| 0 <= i < |refs| && t in Synthesized(ArchsOn(refs[i]), platforms) && p == (refs[i].installName, t);
      var j :| 0 <= j < |groups| && groups[j] == ArchsOn(refs[i]);
      NamedFor(refs, groups[j], refs[i].installName);
      assert refs[i].installName in ms[j].values && t in ms[j].targets;
    }
  }

  lemma SectionsOfExports(es: seq<ExportSection>, f: Interface, version: nat, platforms: set<nat>)
    requires ExportsWritten(es, f, version)
    ensures SectionsFor(ClientSections(es, platforms), Groups(NameSections(es)), f.clients, platforms)
    ensures SectionsFor(LibrarySections(es, platforms), Groups(NameSections(es)), f.reexports, platforms)
  {
    hide Synthesized, ArchsOn, NamesFor, Written, Ascending, SpotsOld, GroupsOf;
    var groups := Groups(NameSections(es));
    forall j | 0 <= j < |es| ensures LibrariesWritten(es[j], f) && groups[j] == es[j].names.group {
    }
    forall i | 0 <= i < |f.clients| ensures ArchsOn(f.clients[i]) in groups {
      assert ArchsOn(f.clients[i]) in ArchSets(f.clients);
      assert ArchsOn(f.clients[i]) in Members(groups);
    }
    forall i | 0 <= i < |f.reexports| ensures ArchsOn(f.reexports[i]) in groups {
      assert ArchsOn(f.reexports[i]) in ArchSets(f.reexports);
      assert ArchsOn(f.reexports[i]) in Members(groups);
    }
  }

  predicate RefsSynthetic(refs: seq<Ref>, platforms: set<nat>) {
    forall i :: 0 <= i < |refs| ==> Members(Synthesized(ArchsOn(refs[i]), platforms)) == Members(refs[i].targets)
  }

  /** The libraries come back exactly when the targets of each can be made up. */
  lemma LibrariesRestored(refs: seq<Ref>, platforms: set<nat>)
    requires SortedRefs(refs)
    ensures Remade(refs, platforms) == Links(refs) <==> RefsSynthetic(refs, platforms)
  {
    hide Synthesized, ArchsOn;
    if Remade(refs, platforms) == Links(refs) {
      forall i | 0 <= i < |refs| ensures Members(Synthesized(ArchsOn(refs[i]), platforms)) == Members(refs[i].targets) {
        hide Remade, Links;
        RemadeFor(refs, platforms, i);
        TargetsOfLinks(refs, i);
      }
    }
    if RefsSynthetic(refs, platforms) {
      forall i, t | 0 <= i < |refs| ensures t in Synthesized(ArchsOn(refs[i]), platforms) <==> t in refs[i].targets {
        assert t in Members(Synthesized(ArchsOn(refs[i]), platforms)) <==> t in Members(refs[i].targets);
      }
    }
  }

  lemma RemadeFor(refs: seq<Ref>, platforms: set<nat>, i: nat)
    requires SortedRefs(refs) && i < |refs|
    ensures Members(Synthesized(ArchsOn(refs[i]), platforms))
         == set p | p in Remade(refs, platforms) && p.0 == refs[i].installName :: p.1
  {
    hide Synthesized, ArchsOn;
    var mine := set p | p in Remade(refs, platforms) && p.0 == refs[i].installName :: p.1;
    forall t | t in Synthesized(ArchsOn(refs[i]), platforms) ensures t in mine {
      assert (refs[i].installName, t) in Remade(refs, platforms);
    }
    forall p | p in Remade(refs, platforms) && p.0 == refs[i].installName
      ensures p.1 in Members(Synthesized(ArchsOn(refs[i]), platforms))
    {
      var j, t :| 0 <= j < |refs| && t in Synthesized(ArchsOn(refs[j]), platforms) && p == (refs[j].installName, t);
      assert Names(refs)[i] == Names(refs)[j];
      NameOnce(Names(refs), i, j);
    }
  }

  // ----- uuids -----

  lemma {:induction false} SpreadAt(ts: set<Target>, ids: seq<(Target, string)>, t: Target)
    ensures t in Spread(ts, ids) <==> t in ts && exists i :: 0 <= i < |ids| && ids[i].0.arch == t.arch
    ensures t in Spread(ts, ids) ==>
              exists i :: 0 <= i < |ids| && ids[i].0.arch == t.arch && Spread(ts, ids)[t] == ids[i].1
    ensures forall u :: t in Spread(ts, ids) && u in ts && u.arch == t.arch ==>
              u in Spread(ts, ids) && Spread(ts, ids)[u] == Spread(ts, ids)[t]
  {
    if ids != [] {
      var front, last := ids[..|ids| - 1], ids[|ids| - 1];
      SpreadAt(ts, front, t);
      assert forall i :: 0 <= i < |front| ==> front[i] == ids[i];
      assert ids[|ids| - 1] == last;
    }
  }

  /** Every target of an architecture that has a uuid has that very uuid, and no
      other target has one. */
  predicate UUIDsAgree(ts: set<Target>, ids: seq<(Target, string)>) {
    (forall i :: 0 <= i < |ids| ==> ids[i].0 in ts) &&
    forall t, i :: t in ts && 0 <= i < |ids| && ids[i].0.arch == t.arch ==> (t, ids[i].1) in ids
  }

  lemma UUIDsRestored(ts: set<Target>, ids: seq<(Target, string)>)
    requires SortedPairs(ids)
    ensures Spread(ts, ids) == AsMap(ids) <==> UUIDsAgree(ts, ids)
  {
    if Spread(ts, ids) == AsMap(ids) {
      forall i | 0 <= i < |ids| ensures ids[i].0 in ts {
        AsMapAt(ids, i);
        SpreadAt(ts, ids, ids[i].0);
      }
      forall t, i | t in ts && 0 <= i < |ids| && ids[i].0.arch == t.arch ensures (t, ids[i].1) in ids {
        UUIDShared(ts, ids, t, i);
      }
    }
    if UUIDsAgree(ts, ids) {
      forall t ensures t in Spread(ts, ids) <==> t in AsMap(ids) {
        UUIDPresent(ts, ids, t);
      }
      forall t | t in AsMap(ids) ensures Spread(ts, ids)[t] == AsMap(ids)[t] {
        UUIDPresent(ts, ids, t);
      }
    }
  }

  lemma UUIDShared(ts: set<Target>, ids: seq<(Target, string)>, t: Target, i: nat)
    requires SortedPairs(ids) && Spread(ts, ids) == AsMap(ids) && t in ts && i < |ids| && ids[i].0.arch == t.arch
    ensures (t, ids[i].1) in ids
  {
    AsMapAt(ids, i);
    SpreadAt(ts, ids, ids[i].0);
    SpreadAt(ts, ids, t);
    AsMapKeys(ids, t);
    var j :| 0 <= j < |ids| && ids[j].0 == t;
    AsMapAt(ids, j);
  }

  lemma UUIDPresent(ts: set<Target>, ids: seq<(Target, string)>, t: Target)
    requires SortedPairs(ids) && UUIDsAgree(ts, ids)
    ensures t in Spread(ts, ids) <==> t in AsMap(ids)
    ensures t in AsMap(ids) && t in Spread(ts, ids) ==> Spread(ts, ids)[t] == AsMap(ids)[t]
  {
    SpreadAt(ts, ids, t);
    AsMapKeys(ids, t);
    if t in Spread(ts, ids) {
      var i :| 0 <= i < |ids| && ids[i].0.arch == t.arch && Spread(ts, ids)[t] == ids[i].1;
      var j :| 0 <= j < |ids| && ids[j] == (t, ids[i].1);
      AsMapAt(ids, j);
    }
  }

  // ----- the umbrella -----

  predicate UmbrellaUniform(ts: set<Target>, us: seq<(Target, string)>) {
    us == [] || (AsMap(us).Keys == ts && forall i :: 0 <= i < |us| ==> us[i].1 == us[0].1)
  }

  lemma UmbrellasRestored(ts: set<Target>, us: seq<(Target, string)>)
    requires SortedUmbrellas(us)
    ensures Everywhere(ts, FirstUmbrella(us)) == AsMap(us) <==> UmbrellaUniform(ts, us)
  {
    forall i | 0 <= i < |us| ensures us[i].0 in AsMap(us) && AsMap(us)[us[i].0] == us[i].1 {
      AsMapAt(us, i);
    }
    forall t | t in AsMap(us) ensures exists i :: 0 <= i < |us| && us[i].0 == t {
      AsMapKeys(us, t);
    }
  }

  // ----- symbols -----

  /** The one flag that is kept: the weak one first, and thread local only for
      symbols that are not undefined. */
  function FlagsKept(kind: Kind, flags: SymbolFlags, undefined: bool): SymbolFlags {
    if kind != GlobalSymbol then NO_FLAGS
    else if undefined then (if flags.weakReferenced then SymbolFlags(false, false, true) else NO_FLAGS)
    else if flags.weakDefined then SymbolFlags(false, true, false)
    else if flags.threadLocal then SymbolFlags(true, false, false)
    else NO_FLAGS
  }

  /** What a symbol is after it was written and read, if its name is read as it is. */
  function RereadOld(k: SymbolKey, s: Symbol, platforms: set<nat>): Symbol {
    var undefined := s.linkage == External;
    Symbol(if undefined then External else Exported, FlagsKept(k.kind, s.flags, undefined), NoAccess,
           DefaultOn(Members(Synthesized(UsableArchs(s), platforms))))
  }

  /** The symbol that a written one is taken for. */
  function ReadUnder(k: SymbolKey, x: XPI, version: nat): SymbolKey {
    KeyRead(SpotOld(k, x, version).bucket, SpotOld(k, x, version).text, version)
  }

  /** It is the same one, but a misread name is that of an exception type. */
  lemma ReadUnderIs(k: SymbolKey, x: XPI, version: nat)
    ensures ReadUnder(k, x, version)
         == if Misread(k, x, version) then SymbolKey(ObjectiveCClassEHType, k.name[15..]) else k
  {
    hide UsableArchs;
    KeyReadBack(k, x, version);
  }

  predicate Contributes(table: map<SymbolKey, XPI>, c: SymbolKey, k: SymbolKey, version: nat) {
    c in table && Available(table[c]) && ReadUnder(c, table[c], version) == k
  }

  /** The symbols of one list that are read as `k`. */
  function ListContributors(table: map<SymbolKey, XPI>, undefined: bool, k: SymbolKey, version: nat): set<SymbolKey> {
    set c | c in table && Contributes(table, c, k, version) && (table[c].linkage == External) == undefined
  }

  /** All the symbols that are read as `k`. */
  function Contributors(table: map<SymbolKey, XPI>, k: SymbolKey, version: nat): set<SymbolKey> {
    set c | c in table && Contributes(table, c, k, version)
  }

  /** The targets made up for a symbol. */
  function MadeFor(table: map<SymbolKey, XPI>, c: SymbolKey, platforms: set<nat>): seq<Target> {
    if c in table then Synthesized(UsableArchs(SymbolOf(table[c])), platforms) else []
  }

  function TargetsMade(table: map<SymbolKey, XPI>, cs: set<SymbolKey>, platforms: set<nat>): set<Target> {
    set c, t | c in cs && t in MadeFor(table, c, platforms) :: t
  }

  /** What is read as `k`: the symbols taken for it joined, exported if any of them is. */
  function SymbolRead(table: map<SymbolKey, XPI>, k: SymbolKey, version: nat, platforms: set<nat>): Symbol {
    Symbol(if ListContributors(table, false, k, version) != {} then Exported else External,
           if k in table then FlagsKept(k.kind, table[k].flags, table[k].linkage == External) else NO_FLAGS, NoAccess,
           DefaultOn(TargetsMade(table, Contributors(table, k, version), platforms)))
  }

  function KeysReadOld(table: map<SymbolKey, XPI>, version: nat): set<SymbolKey> {
    set c | c in table && Available(table[c]) :: ReadUnder(c, table[c], version)
  }

  function SurvivorsOld(table: map<SymbolKey, XPI>, version: nat, platforms: set<nat>): map<SymbolKey, Symbol> {
    map k | k in KeysReadOld(table, version) :: SymbolRead(table, k, version, platforms)
  }

  // ----- what a list of sections says of one symbol -----

  ghost predicate OldListWritten(ss: seq<Section<set<Arch>>>, spots: map<SymbolKey, Spot<set<Arch>>>) {
    Written(ss, spots, Groups(ss)) && GroupsOf(spots) <= Members(Groups(ss))
  }

  /** The entries are those of the symbols that belong to the list. */
  lemma OldEntries(ss: seq<Section<set<Arch>>>, spots: map<SymbolKey, Spot<set<Arch>>>, e: Spot<set<Arch>>)
    requires OldListWritten(ss, spots)
    ensures e in AllEntries(ss) <==> exists c :: c in spots && spots[c] == e
  {
    hide Written;
    EntriesAreSpots(ss, spots, Groups(ss), e);
    if c :| c in spots && spots[c] == e {
      assert spots[c].group in GroupsOf(spots);
      assert spots[c].group in Members(Groups(ss));
    }
  }

  lemma OldSpotTells(table: map<SymbolKey, XPI>, undefined: bool, version: nat, platforms: set<nat>, c: SymbolKey,
                     k: SymbolKey)
    ensures c in ListContributors(table, undefined, k, version) <==>
            c in SpotsOld(table, undefined, version) &&
              ReadingOld(undefined, version, platforms)(SpotsOld(table, undefined, version)[c]).key == k
    ensures c in SpotsOld(table, undefined, version) ==>
              ReadingOld(undefined, version, platforms)(SpotsOld(table, undefined, version)[c]).targets
                == MadeFor(table, c, platforms)
  {
    hide Available, KeyRead, Synthesized, UsableArchs, FlagsOld, Placed;
  }

  lemma OldMentioned(ss: seq<Section<set<Arch>>>, table: map<SymbolKey, XPI>, undefined: bool, version: nat,
                     platforms: set<nat>, k: SymbolKey)
    requires OldListWritten(ss, SpotsOld(table, undefined, version))
    ensures var facts := Facts(AllEntries(ss), ReadingOld(undefined, version, platforms));
            (Mentioned(facts, k) <==> ListContributors(table, undefined, k, version) != {}) &&
            TargetsFor(facts, k) == TargetsMade(table, ListContributors(table, undefined, k, version), platforms)
  {
    hide OldListWritten, SpotsOld, ReadingOld, AllEntries;
    hide ListContributors, MadeFor, Mentioned, TargetsFor, TargetsMade;
    var spots, es := SpotsOld(table, undefined, version), AllEntries(ss);
    var read := ReadingOld(undefined, version, platforms);
    var facts, cs := Facts(es, read), ListContributors(table, undefined, k, version);
    forall i | 0 <= i < |facts| && facts[i].key == k ensures FromOne(facts[i], table, cs, platforms) {
      OldEntries(ss, spots, es[i]);
      var c :| c in spots && spots[c] == es[i];
      OldSpotTells(table, undefined, version, platforms, c, k);
    }
    forall c | c in cs ensures HasFact(facts, table, c, k, platforms) {
      OldSpotTells(table, undefined, version, platforms, c, k);
      OldEntries(ss, spots, spots[c]);
      var i :| 0 <= i < |es| && es[i] == spots[c];
      assert facts[i].key == k;
    }
    FactsMatch(facts, table, cs, k, platforms);
  }

  predicate FromOne(f: Fact, table: map<SymbolKey, XPI>, cs: set<SymbolKey>, platforms: set<nat>) {
    exists c :: c in cs && f.targets == MadeFor(table, c, platforms)
  }

  predicate HasFact(facts: seq<Fact>, table: map<SymbolKey, XPI>, c: SymbolKey, k: SymbolKey, platforms: set<nat>) {
    exists i :: 0 <= i < |facts| && facts[i].key == k && facts[i].targets == MadeFor(table, c, platforms)
  }

  lemma FactsMatch(facts: seq<Fact>, table: map<SymbolKey, XPI>, cs: set<SymbolKey>, k: SymbolKey, platforms: set<nat>)
    requires forall i :: 0 <= i < |facts| && facts[i].key == k ==> FromOne(facts[i], table, cs, platforms)
    requires forall c :: c in cs ==> HasFact(facts, table, c, k, platforms)
    ensures Mentioned(facts, k) <==> cs != {}
    ensures TargetsFor(facts, k) == TargetsMade(table, cs, platforms)
  {
    hide MadeFor, FromOne, HasFact;
    forall i | 0 <= i < |facts| && facts[i].key == k 
      ensures cs != {} && Members(facts[i].targets) <= TargetsMade(table, cs, platforms)
    {
      FromOneMade(facts[i], table, cs, platforms);
    }
    forall c | c in cs ensures Members(MadeFor(table, c, platforms)) <= TargetsFor(facts, k) && Mentioned(facts, k) {
      HasFactMade(facts, table, c, k, platforms);
    }
    forall t | t in TargetsFor(facts, k) ensures t in TargetsMade(table, cs, platforms) {
      var i :| 0 <= i < |facts| && facts[i].key == k && t in facts[i].targets;
      assert t in Members(facts[i].targets);
    }
    forall t | t in TargetsMade(table, cs, platforms) ensures t in TargetsFor(facts, k) {
      var c :| c in cs && t in MadeFor(table, c, platforms);
      assert t in Members(MadeFor(table, c, platforms));
    }
  }

  lemma FromOneMade(f: Fact, table: map<SymbolKey, XPI>, cs: set<SymbolKey>, platforms: set<nat>)
    requires FromOne(f, table, cs, platforms)
    ensures cs != {} && Members(f.targets) <= TargetsMade(table, cs, platforms)
  {
    hide MadeFor;
  }

  lemma HasFactMade(facts: seq<Fact>, table: map<SymbolKey, XPI>, c: SymbolKey, k: SymbolKey, platforms: set<nat>)
    requires HasFact(facts, table, c, k, platforms)
    ensures Mentioned(facts, k) && Members(MadeFor(table, c, platforms)) <= TargetsFor(facts, k)
  {
    hide MadeFor;
  }

  lemma OldUnanimous(ss: seq<Section<set<Arch>>>, table: map<SymbolKey, XPI>, undefined: bool, version: nat,
                     platforms: set<nat>, k: SymbolKey)
    requires OldListWritten(ss, SpotsOld(table, undefined, version))
    ensures Unanimous(Facts(AllEntries(ss), ReadingOld(undefined, version, platforms)), k,
                      if undefined then External else Exported,
                      if k in table then FlagsKept(k.kind, table[k].flags, undefined) else NO_FLAGS)
  {
    hide OldListWritten, AllEntries, Synthesized, UsableArchs;
    var spots, es := SpotsOld(table, undefined, version), AllEntries(ss);
    forall i | 0 <= i < |es| && k.kind == GlobalSymbol && KeyRead(es[i].bucket, es[i].text, version) == k
      ensures k in table && FlagsOld(es[i].bucket, undefined) == FlagsKept(k.kind, table[k].flags, undefined)
    {
      OldEntries(ss, spots, es[i]);
      var c :| c in spots && spots[c] == es[i];
      ReadUnderIs(c, table[c], version);
    }
  }

  // ----- all that is read -----

  lemma ContributorsJoin(table: map<SymbolKey, XPI>, k: SymbolKey, version: nat, platforms: set<nat>)
    ensures Contributors(table, k, version)
         == ListContributors(table, false, k, version) + ListContributors(table, true, k, version)
    ensures TargetsMade(table, Contributors(table, k, version), platforms)
         == TargetsMade(table, ListContributors(table, false, k, version), platforms) +
            TargetsMade(table, ListContributors(table, true, k, version), platforms)
    ensures k in KeysReadOld(table, version) <==> Contributors(table, k, version) != {}
  {
    hide Available, ReadUnder, MadeFor;
    if k in KeysReadOld(table, version) {
      var c :| c in table && Available(table[c]) && ReadUnder(c, table[c], version) == k;
      assert c in Contributors(table, k, version);
    }
    if Contributors(table, k, version) != {} {
      var c :| c in Contributors(table, k, version);
      assert ReadUnder(c, table[c], version) == k;
    }
  }

  /** Only an exception type can be made of other symbols. */
  lemma SoleContributor(table: map<SymbolKey, XPI>, undefined: bool, k: SymbolKey, version: nat)
    requires k.kind != ObjectiveCClassEHType && ListContributors(table, undefined, k, version) != {}
    ensures k in table && (table[k].linkage == External) == undefined
  {
    hide Available, ReadUnder, Misread;
    var c :| c in ListContributors(table, undefined, k, version);
    ReadUnderIs(c, table[c], version);
  }

  lemma OneSymbolBack(f: Interface, t: TBD, version: nat, k: SymbolKey)
    requires OldListWritten(NameSections(t.exports), SpotsOld(f.symbols, false, version))
    requires OldListWritten(t.undefineds, SpotsOld(f.symbols, true, version))
    ensures var r, back := SymbolsReadOld(t, version), SurvivorsOld(f.symbols, version, t.platforms);
            (k in r <==> k in back) && (k in r ==> r[k] == back[k])
  {
    hide OldListWritten, SpotsOld, ReadingOld, AllEntries, Facts;
    hide ListContributors, Contributors, TargetsMade, TargetsFor, Mentioned, Unanimous, DefaultOn, KeysReadOld, ReadAll;
    var exports := Facts(AllEntries(NameSections(t.exports)), ReadingOld(false, version, t.platforms));
    var undefineds := Facts(AllEntries(t.undefineds), ReadingOld(true, version, t.platforms));
    OldMentioned(NameSections(t.exports), f.symbols, false, version, t.platforms, k);
    OldMentioned(t.undefineds, f.symbols, true, version, t.platforms, k);
    OldUnanimous(NameSections(t.exports), f.symbols, false, version, t.platforms, k);
    OldUnanimous(t.undefineds, f.symbols, true, version, t.platforms, k);
    ContributorsJoin(f.symbols, k, version, t.platforms);
    if k.kind != ObjectiveCClassEHType {
      if ListContributors(f.symbols, false, k, version) != {} { SoleContributor(f.symbols, false, k, version); }
      if ListContributors(f.symbols, true, k, version) != {} { SoleContributor(f.symbols, true, k, version); }
    }
    var flags := undefined => if k in f.symbols then FlagsKept(k.kind, f.symbols[k].flags, undefined) else NO_FLAGS;
    ReadAllAt(map[], exports, k, {}, Exported, flags(false));
    var between := ReadAll(map[], exports);
    ReadAllAt(between, undefineds, k, TargetsFor(exports, k), External, flags(true));
    NoContributors(f.symbols, t.platforms);
    SameUnion(TargetsFor(exports, k), {}, TargetsFor(undefineds, k));
  }

  lemma NoContributors(table: map<SymbolKey, XPI>, platforms: set<nat>)
    ensures TargetsMade(table, {}, platforms) == {}
  {
  }

  /** All symbols that are read from what was written, whatever the names. */
  lemma OldSymbolsBack(f: Interface, t: TBD, version: nat)
    requires ExportsWritten(t.exports, f, version) && UndefinedsWritten(t.undefineds, f, version)
    ensures SymbolsReadOld(t, version) == SurvivorsOld(f.symbols, version, t.platforms)
  {
    ListsWritten(f, t, version);
    hide SpotsOld, SurvivorsOld, SymbolsReadOld, OldListWritten, ExportsWritten, UndefinedsWritten;
    forall k
      ensures var r, back := SymbolsReadOld(t, version), SurvivorsOld(f.symbols, version, t.platforms);
              (k in r <==> k in back) && (k in r ==> r[k] == back[k])
    {
      OneSymbolBack(f, t, version, k);
    }
  }

  lemma ListsWritten(f: Interface, t: TBD, version: nat)
    requires ExportsWritten(t.exports, f, version) && UndefinedsWritten(t.undefineds, f, version)
    ensures OldListWritten(NameSections(t.exports), SpotsOld(f.symbols, false, version))
    ensures OldListWritten(t.undefineds, SpotsOld(f.symbols, true, version))
  {
    hide SpotsOld, Written, Ascending, LibrariesWritten, ArchSets, GroupsOf;
  }

  // ----- names that version 2 misreads -----

  /** A plain symbol whose name starts like an exception type is gone; the exception
      type of the rest of the name is there instead, on the targets of both, and
      exported if either of them is. */
  lemma MisreadJoins(table: map<SymbolKey, XPI>, version: nat, platforms: set<nat>, k: SymbolKey)
    requires k in table && Available(table[k]) && Misread(k, table[k], version)
    ensures k !in SurvivorsOld(table, version, platforms)
    ensures var e := SymbolKey(ObjectiveCClassEHType, k.name[15..]);
            var both := e in table && Available(table[e]);
            var exported := table[k].linkage != External || (both && table[e].linkage != External);
            e in SurvivorsOld(table, version, platforms) &&
            SurvivorsOld(table, version, platforms)[e]
              == Symbol(if exported then Exported else External, NO_FLAGS, NoAccess,
                        DefaultOn(TargetsMade(table, if both then {k, e} else {k}, platforms)))
  {
    hide Available, TargetsMade;
    var e := SymbolKey(ObjectiveCClassEHType, k.name[15..]);
    MisreadIsPlain(k, table[k], version);
    hide ReadUnder, Misread;
    forall c | c in table
      ensures ReadUnder(c, table[c], version) == e <==> c == k || c == e
      ensures ReadUnder(c, table[c], version) != k
    {
      ReadUnderIs(c, table[c], version);
      if Misread(c, table[c], version) { MisreadIsPlain(c, table[c], version); }
    }
    assert k !in KeysReadOld(table, version);
    assert e in KeysReadOld(table, version) by { assert ReadUnder(k, table[k], version) == e; }
    var both := e in table && Available(table[e]);
    assert Contributors(table, e, version) == if both then {k, e} else {k};
    var exported := ListContributors(table, false, e, version);
    assert k in exported <==> table[k].linkage != External;
    assert e in exported <==> both && table[e].linkage != External;
    assert forall c :: c in exported ==> c == k || c == e;
  }

  lemma MisreadIsPlain(k: SymbolKey, x: XPI, version: nat)
    requires Misread(k, x, version)
    ensures k == SymbolKey(GlobalSymbol, EH_PREFIX + k.name[15..])
  {
    assert k.name == EH_PREFIX + k.name[15..];
  }

  // ----- the round trip -----

  /** What a file is after it was written and read with these platforms. */
  function BackFrom(f: Interface, version: nat, path: string, fileType: Version, platforms: set<nat>): File {
    var made := Members(Synthesized(ArchsOf(Members(f.targets)), platforms));
    File(f.header, fileType, path, f.swiftVersion, made, Everywhere(made, FirstUmbrella(f.umbrellas)),
         Remade(f.clients, platforms), Remade(f.reexports, platforms), Spread(made, f.uuids),
         SurvivorsOld(f.symbols, version, platforms), [])
  }

  lemma BodyBack(f: Interface, t: TBD, platforms: set<nat>, version: nat, path: string, fileType: Version, g: Interface)
    requires version == 2 || version == 3
    requires WrittenOld(f, t, version) && ReadOldAs(t.(platforms := platforms), version, path, fileType, true, g)
    ensures Content(g) == BackFrom(f, version, path, fileType, platforms)
  {
    SectionsOfExports(t.exports, f, version, platforms);
    var groups := Groups(NameSections(t.exports));
    LibrariesRemade(ClientSections(t.exports, platforms), groups, f.clients, platforms);
    LibrariesRemade(LibrarySections(t.exports, platforms), groups, f.reexports, platforms);
    OldSymbolsBack(f, t.(platforms := platforms), version);
    hide ExportsWritten, UndefinedsWritten, Members;
    hide AsMap, Links, SymbolsOf, Synthesized, SurvivorsOld;
    hide SymbolsReadOld, Spread, Everywhere, Remade, MetadataLinks, ClientSections, LibrarySections, Flat, SectionsFor;
  }

  /** What became of a file that was written and then read. */
  ghost predicate Trip(f: Interface, version: nat, s: Option<Stub>, path: string, fileType: Version,
                       g: Option<Interface>)
    requires f.targets != []
  {
    StubWritten(f, version, s) &&
    match s
    case None => g == None
    case Some(stub) => StubReadAs(stub, version, path, fileType, true, g)
  }

  /** The platforms a file is read with: those told by the one word for its own. */
  function PlatformsRead(f: Interface, version: nat): Option<set<nat>>
    requires f.targets != []
  {
    SomePlatform(f.targets);
    PlatformsBack(PlatformsOf(f.targets), version)
  }

  /** A file comes back exactly when there is a word for its platforms, and then
      every field and symbol of it is told. */
  lemma OldRoundTrip(f: Interface, version: nat, s: Option<Stub>, path: string, fileType: Version,
                     g: Option<Interface>)
    requires (version == 2 || version == 3) && f.targets != [] && Trip(f, version, s, path, fileType, g)
    ensures g.Some? <==> PlatformsRead(f, version).Some?
    ensures g.Some? ==>
              Content(g.value) == BackFrom(f, version, path, fileType, PlatformsRead(f, version).value)
  {
    hide WrittenOld, ReadOldAs, BackFrom, Content, PlatformWord, ReadPlatformWord;
    SomePlatform(f.targets);
    PlatformWordKept(PlatformsOf(f.targets), version);
    if g.Some? {
      BodyBack(f, s.value.body, PlatformsRead(f, version).value, version, path, fileType, g.value);
    }
  }

  // ----- which files come back whole -----

  predicate WritableOld(k: SymbolKey, s: Symbol, platforms: set<nat>) {
    (s.linkage == Exported || s.linkage == External) && s.access == NoAccess &&
    (forall t :: t in s.avail ==> s.avail[t] == DEFAULT) &&
    s.avail.Keys == Members(Synthesized(UsableArchs(s), platforms)) &&
    (s.flags == NO_FLAGS || (k.kind == GlobalSymbol && WritableOldFlags(s)))
  }

  predicate WritableOldFlags(s: Symbol) {
    if s.linkage == External then s.flags == SymbolFlags(false, false, true)
    else s.flags == SymbolFlags(false, true, false) || s.flags == SymbolFlags(true, false, false)
  }

  lemma OldSymbolRestored(k: SymbolKey, s: Symbol, platforms: set<nat>)
    ensures RereadOld(k, s, platforms) == s <==> WritableOld(k, s, platforms)
  {
    hide Synthesized, UsableArchs;
    var r := RereadOld(k, s, platforms);
    assert r.avail.Keys == Members(Synthesized(UsableArchs(s), platforms));
    if WritableOld(k, s, platforms) {
      assert r.avail == s.avail;
    }
    if r == s {
      forall t | t in s.avail ensures s.avail[t] == DEFAULT {
        assert r.avail[t] == DEFAULT;
      }
    }
  }

  predicate AllWritableOld(table: map<SymbolKey, XPI>, version: nat, platforms: set<nat>) {
    forall k :: k in table ==>
      Available(table[k]) && WritableOld(k, SymbolOf(table[k]), platforms) && !Misread(k, table[k], version)
  }

  lemma AloneIsReread(table: map<SymbolKey, XPI>, version: nat, platforms: set<nat>, k: SymbolKey)
    requires k in table && Available(table[k]) && forall c :: c in table ==> !Misread(c, table[c], version)
    ensures SymbolRead(table, k, version, platforms) == RereadOld(k, SymbolOf(table[k]), platforms)
  {
    hide Available, ReadUnder, Misread, FlagsKept, MadeFor;
    forall c | c in table ensures ReadUnder(c, table[c], version) == c {
      ReadUnderIs(c, table[c], version);
    }
    assert Contributors(table, k, version) == {k};
    assert ListContributors(table, false, k, version) == if table[k].linkage == External then {} else {k};
    assert TargetsMade(table, {k}, platforms) == Members(MadeFor(table, k, platforms));
    MadeForIs(table, k, platforms);
  }

  lemma MadeForIs(table: map<SymbolKey, XPI>, k: SymbolKey, platforms: set<nat>)
    requires k in table
    ensures MadeFor(table, k, platforms) == Synthesized(UsableArchs(SymbolOf(table[k])), platforms)
  {
  }

  /** All symbols come back as they were exactly when each is of a writable sort and
      none is misread. */
  lemma OldSurvivors(table: map<SymbolKey, XPI>, version: nat, platforms: set<nat>)
    ensures SurvivorsOld(table, version, platforms) == SymbolsOf(table) <==> AllWritableOld(table, version, platforms)
  {
    hide Available, RereadOld, WritableOld, Misread, ReadUnder, SymbolRead;
    var back, whole := SurvivorsOld(table, version, platforms), SymbolsOf(table);
    if forall c :: c in table ==> !Misread(c, table[c], version) {
      forall k | k in table ensures ReadUnder(k, table[k], version) == k {
        ReadUnderIs(k, table[k], version);
      }
      forall k | k in table && Available(table[k])
        ensures k in back && (back[k] == SymbolOf(table[k]) <==> WritableOld(k, SymbolOf(table[k]), platforms))
      {
        AloneIsReread(table, version, platforms, k);
        OldSymbolRestored(k, SymbolOf(table[k]), platforms);
      }
      OldWhole(table, version, platforms);
    } else {
      var k :| k in table && Misread(k, table[k], version);
      MisreadIsPlain(k, table[k], version);
      assert k in whole;
      forall c | c in table ensures ReadUnder(c, table[c], version) != k {
        ReadUnderIs(c, table[c], version);
      }
      assert k !in back;
    }
  }

  lemma OldWhole(table: map<SymbolKey, XPI>, version: nat, platforms: set<nat>)
    requires forall k :: k in table ==> !Misread(k, table[k], version) && ReadUnder(k, table[k], version) == k
    requires var back := SurvivorsOld(table, version, platforms);
             forall k :: k in table && Available(table[k]) ==>
               k in back && (back[k] == SymbolOf(table[k]) <==> WritableOld(k, SymbolOf(table[k]), platforms))
    ensures SurvivorsOld(table, version, platforms) == SymbolsOf(table) <==> AllWritableOld(table, version, platforms)
  {
    hide Available, WritableOld, Misread, ReadUnder, SymbolRead;
    var back, whole := SurvivorsOld(table, version, platforms), SymbolsOf(table);
    if back == whole {
      forall k | k in table ensures Available(table[k]) && WritableOld(k, SymbolOf(table[k]), platforms) {
        assert k in whole && k in back && back[k] == whole[k];
      }
    }
    if AllWritableOld(table, version, platforms) {
      forall k | k in table ensures k in back && back[k] == whole[k] {
      }
      assert back == whole;
    }
  }

  /** With the platforms it is read with, a file comes back whole, path and documents
      aside, exactly when its targets and those of its libraries and symbols can be
      made up from architectures, its umbrella is the same everywhere, its uuids
      agree, and its symbols are of a writable sort with names that are not misread. */
  predicate Restorable(f: Interface, version: nat, platforms: set<nat>) {
    Members(Synthesized(ArchsOf(Members(f.targets)), platforms)) == Members(f.targets) &&
    RefsSynthetic(f.clients, platforms) && RefsSynthetic(f.reexports, platforms) &&
    UmbrellaUniform(Members(f.targets), f.umbrellas) && UUIDsAgree(Members(f.targets), f.uuids) &&
    AllWritableOld(f.symbols, version, platforms)
  }

  predicate Survives(f: Interface, version: nat)
    requires f.targets != []
  {
    PlatformsRead(f, version).Some? && Restorable(f, version, PlatformsRead(f, version).value)
  }

  lemma BackIsIdentity(f: Interface, version: nat, path: string, fileType: Version, platforms: set<nat>)
    requires Flat(f)
    ensures BackFrom(f, version, path, fileType, platforms)
              == Content(f).(path := path, fileType := fileType, documents := [])
       <==> Restorable(f, version, platforms)
  {
    hide Flat, AsMap, Links, Members;
    hide Synthesized, Spread, Everywhere, Remade, SurvivorsOld, SymbolsOf;
    hide RefsSynthetic, UmbrellaUniform, UUIDsAgree, AllWritableOld;
    FlatParts(f);
    var ts := Members(f.targets);
    LibrariesRestored(f.clients, platforms);
    LibrariesRestored(f.reexports, platforms);
    UmbrellasRestored(ts, f.umbrellas);
    UUIDsRestored(ts, f.uuids);
    OldSurvivors(f.symbols, version, platforms);
    assert Content(f).targets == ts && Content(f).symbols == SymbolsOf(f.symbols);
  }

  lemma FlatParts(f: Interface)
    requires Flat(f)
    ensures SortedRefs(f.clients) && SortedRefs(f.reexports) && SortedUmbrellas(f.umbrellas) && SortedPairs(f.uuids)
  {
  }

  /** Written and read, a file comes back whole exactly when there is a word for its
      platforms and it can be restored with the platforms that the word tells. */
  lemma OldIsIdentity(f: Interface, version: nat, s: Option<Stub>, path: string, fileType: Version,
                      g: Option<Interface>)
    requires (version == 2 || version == 3) && Flat(f) && f.targets != [] && Trip(f, version, s, path, fileType, g)
    ensures g.Some? && Content(g.value) == Content(f).(path := path, fileType := fileType, documents := [])
       <==> Survives(f, version)
  {
    hide Trip, Flat, PlatformsRead, BackFrom, Content, Restorable;
    OldRoundTrip(f, version, s, path, fileType, g);
    if g.Some? {
      BackIsIdentity(f, version, path, fileType, PlatformsRead(f, version).value);
    }
  }

  // ----- files with more than one platform, or another one than the word tells -----

  lemma MadeOn(a: Arch, platform: nat)
    requires a != AK_UNKNOWN && platform < 256 && platform != CATALYST
    ensures Members(Synthesized({a}, {platform})) == {Target(a, MapToSim(platform, HasX86({a})))}
  {
    hide Synthesized;
    forall t ensures t in Synthesized({a}, {platform}) <==> t == Target(a, MapToSim(platform, HasX86({a}))) {
      SynthesizedTargets({a}, {platform}, t);
    }
  }

  lemma IOSWord(version: nat)
    ensures PlatformsBack({IOS, TVOS}, version) == Some({IOS}) == PlatformsBack({IOS_SIMULATOR}, version)
  {
    assert PlatformWord({IOS, TVOS}, version) == Some("ios") == PlatformWord({IOS_SIMULATOR}, version);
    assert ReadPlatformWord("ios", version) == Some({IOS});
  }

  lemma TwoTargetFacts(a: Arch, p: nat, q: nat)
    requires a != AK_UNKNOWN
    ensures var f := OnlyTargets([Target(a, p), Target(a, q)]);
            PlatformsOf(f.targets) == {p, q} && Members(f.targets) == {Target(a, p), Target(a, q)} &&
            ArchsOf(Members(f.targets)) == {a}
  {
    var ts := [Target(a, p), Target(a, q)];
    assert ts[0] in ts && ts[1] in ts;
    assert Members(ts) == {Target(a, p), Target(a, q)};
    assert Target(a, p) in Members(ts);
  }

  /** A file for iOS and tvOS on one architecture comes back for iOS alone. */
  lemma PlatformLost(a: Arch, version: nat, s: Option<Stub>, path: string, fileType: Version, g: Option<Interface>)
    requires (version == 2 || version == 3) && !HasX86({a}) && a != AK_UNKNOWN
    requires Trip(OnlyTargets([Target(a, IOS), Target(a, TVOS)]), version, s, path, fileType, g)
    ensures g.Some? && Content(g.value).targets == {Target(a, IOS)}
    ensures !Survives(OnlyTargets([Target(a, IOS), Target(a, TVOS)]), version)
  {
    var f := OnlyTargets([Target(a, IOS), Target(a, TVOS)]);
    hide Trip, Synthesized, PlatformsBack, PlatformsOf, Members, Content, ArchsOf, SurvivorsOld, Remade;
    TwoTargetFacts(a, IOS, TVOS);
    MadeOn(a, IOS);
    IOSWord(version);
    OldRoundTrip(f, version, s, path, fileType, g);
    assert Target(a, TVOS) in Members(f.targets);
  }

  /** A file for the iOS simulator alone survives although its platform is not the one
      that the word tells: the simulator is made up again from the Intel architecture. */
  lemma SimulatorSurvives(version: nat)
    ensures var f := OnlyTargets([Target(1, IOS_SIMULATOR)]);
            Survives(f, version) && !PlatformsKept(PlatformsOf(f.targets), version)
  {
    var f := OnlyTargets([Target(1, IOS_SIMULATOR)]);
    hide Synthesized, PlatformsBack, PlatformsOf, Members, ArchsOf, Restorable;
    SimulatorFacts();
    MadeOn(1, IOS);
    IOSWord(version);
    BareRestorable(f.targets, version, {IOS});
  }

  lemma BareRestorable(ts: seq<Target>, version: nat, platforms: set<nat>)
    ensures Restorable(OnlyTargets(ts), version, platforms) <==>
            Members(Synthesized(ArchsOf(Members(ts)), platforms)) == Members(ts)
  {
    hide Synthesized, Members, ArchsOf;
  }

  lemma SimulatorFacts()
    ensures var f := OnlyTargets([Target(1, IOS_SIMULATOR)]);
            PlatformsOf(f.targets) == {IOS_SIMULATOR} && Members(f.targets) == {Target(1, IOS_SIMULATOR)} &&
            ArchsOf(Members(f.targets)) == {1}
  {
    var ts := [Target(1, IOS_SIMULATOR)];
    assert ts[0] in ts;
    assert Members(ts) == {Target(1, IOS_SIMULATOR)};
    assert Target(1, IOS_SIMULATOR) in Members(ts);
  }

  // ----- canonical -----

  /** The written form depends only on the file, also where two symbols are written alike. */
  lemma OldWrittenOnce(f: Interface, t: TBD, u: TBD, version: nat)
    requires WrittenOld(f, t, version) && WrittenOld(f, u, version)
    ensures t == u
  {
    hide SpotsOld, LibrariesWritten;
    ArchsOrder();
    hide Written, ArchsLess, StrictOrder, Ascending;
    var groups, groups' := Groups(NameSections(t.exports)), Groups(NameSections(u.exports));
    AscendingCanonical(groups, groups', ArchsLess);
    AscendingCanonical(Groups(t.undefineds), Groups(u.undefineds), ArchsLess);
    SectionsCanonical(NameSections(t.exports), NameSections(u.exports), SpotsOld(f.symbols, false, version), groups);
    SectionsCanonical(t.undefineds, u.undefineds, SpotsOld(f.symbols, true, version), Groups(t.undefineds));
    SameExports(t.exports, u.exports, f);
  }

  lemma SameExports(es: seq<ExportSection>, es': seq<ExportSection>, f: Interface)
    requires NameSections(es) == NameSections(es')
    requires forall j :: 0 <= j < |es| ==> LibrariesWritten(es[j], f)
    requires forall j :: 0 <= j < |es'| ==> LibrariesWritten(es'[j], f)
    ensures es == es'
  {
    assert |es| == |NameSections(es)| == |NameSections(es')| == |es'|;
    forall j | 0 <= j < |es| ensures es[j] == es'[j] {
      assert NameSections(es)[j] == NameSections(es')[j];
      assert LibrariesWritten(es[j], f) && LibrariesWritten(es'[j], f);
    }
  }

  /** A symbol is filed by content alone. */
  lemma SameOldSpots(m: map<SymbolKey, XPI>, n: map<SymbolKey, XPI>, undefined: bool, version: nat)
    requires ListedOnce(m) && ListedOnce(n) && SymbolsOf(m) == SymbolsOf(n)
    ensures SpotsOld(m, undefined, version) == SpotsOld(n, undefined, version)
  {
    forall k | k in m || k in n
      ensures k in SpotsOld(m, undefined, version) <==> k in SpotsOld(n, undefined, version)
      ensures k in SpotsOld(m, undefined, version) ==>
                SpotsOld(m, undefined, version)[k] == SpotsOld(n, undefined, version)[k]
    {
      hide Available, ListedOnce, SymbolsOf, UsableArchs, Placed;
      SameSymbol(m, n, k);
    }
  }

  /** Files of the same content are written alike: in these versions neither the order
      of symbols nor that of their targets shows. */
  lemma OldWrittenAlike(f: Interface, g: Interface, t: TBD, u: TBD, version: nat)
    requires Flat(f) && Flat(g) && SansPath(Content(f)) == SansPath(Content(g))
    requires WrittenOld(f, t, version) && WrittenOld(g, u, version)
    ensures t == u
  {
    SameFields(f, g);
    SameOldSpots(f.symbols, g.symbols, false, version);
    SameOldSpots(f.symbols, g.symbols, true, version);
    assert WrittenOld(f, u, version) by {
      hide SpotsOld, Written, Ascending, SymbolsOf, Flat, SansPath, Content, ArchSets, GroupsOf;
      forall j | 0 <= j < |u.exports| ensures LibrariesWritten(u.exports[j], f) {
        assert LibrariesWritten(u.exports[j], g);
      }
    }
    OldWrittenOnce(f, t, u, version);
  }

  lemma StubsAlike(f: Interface, g: Interface, s: Option<Stub>, s': Option<Stub>, version: nat)
    requires Flat(f) && Flat(g) && SansPath(Content(f)) == SansPath(Content(g)) && f.targets != []
    ensures g.targets != []
    ensures StubWritten(f, version, s) && StubWritten(g, version, s') ==> s == s'
  {
    hide WrittenOld, PlatformWord, Flat, SansPath, Content, SymbolsOf, ListedOnce;
    SameFields(f, g);
    if StubWritten(f, version, s) && StubWritten(g, version, s') && s.Some? {
      OldWrittenAlike(f, g, s.value.body, s'.value.body, version);
    }
  }
}

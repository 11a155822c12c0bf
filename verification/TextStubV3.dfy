/** Text stubs before version 4: one platform for the whole file, and symbols
    grouped by architectures rather than by targets. */
module TextStubV3 {
  import opened InterfaceAlgebra
  import opened SortedVectors
  import opened InterfaceFiles
  import opened SymbolSets
  import opened InterfaceOperations
  import opened TextSections
  import opened TextStubV4

  // ----- architecture sets in the order of their bits -----

  /** The highest architecture that is in only one of the sets is in the second. */
  predicate ArchsLess(s: set<Arch>, t: set<Arch>) {
    exists m :: m in t && m !in s && forall a :: a in s + t && a > m ==> (a in s <==> a in t)
  }

  lemma {:induction false} Highest(s: set<Arch>) returns (m: Arch)
    requires s != {}
    ensures m in s && forall a :: a in s ==> a <= m
    decreases |s|
  {
    var x :| x in s;
    m := x;
    assert forall a :: a in s ==> a == x || a in s - {x};
    if s - {x} != {} {
      var y := Highest(s - {x});
      m := if y > x then y else x;
    }
  }

  lemma ArchsTransitive(s: set<Arch>, t: set<Arch>, u: set<Arch>)
    requires ArchsLess(s, t) && ArchsLess(t, u)
    ensures ArchsLess(s, u)
  {
    var m :| m in t && m !in s && forall a :: a in s + t && a > m ==> (a in s <==> a in t);
    var n :| n in u && n !in t && forall a :: a in t + u && a > n ==> (a in t <==> a in u);
    var top := if m > n then m else n;
    assert top in u && top !in s;
  }

  lemma ArchsTotal(s: set<Arch>, t: set<Arch>)
    requires s != t
    ensures ArchsLess(s, t) || ArchsLess(t, s)
  {
    var m := Highest((s - t) + (t - s));
    assert forall a :: a in s + t && a > m ==> (a in s <==> a in t);
  }

  lemma ArchsOrder()
    ensures StrictOrder(ArchsLess)
  {
    forall s, t, u | ArchsLess(s, t) && ArchsLess(t, u) ensures ArchsLess(s, u) {
      ArchsTransitive(s, t, u);
    }
    forall s, t | s != t ensures ArchsLess(s, t) || ArchsLess(t, s) {
      ArchsTotal(s, t);
    }
  }

  // ----- platforms -----

  const MACOS := 1
  const IOS := 2
  const TVOS := 3
  const WATCHOS := 4
  const CATALYST := 6
  const IOS_SIMULATOR := 7
  const TVOS_SIMULATOR := 8
  const WATCHOS_SIMULATOR := 9
  const AK_I386: Arch := 0

  predicate HasX86(archs: set<Arch>) {
    0 in archs || 1 in archs || 2 in archs
  }

  function MapToSim(platform: nat, wantSim: bool): nat {
    if !wantSim then platform
    else if platform == IOS then IOS_SIMULATOR
    else if platform == TVOS then TVOS_SIMULATOR
    else if platform == WATCHOS then WATCHOS_SIMULATOR
    else platform
  }

  /** The one word for the platforms; none where the program cannot go on. */
  function PlatformWord(platforms: set<nat>, version: nat): Option<string>
    requires platforms != {}
  {
    if MACOS in platforms && CATALYST in platforms then
      if version >= 3 then Some("zippered") else None
    else if 0 in platforms then Some("unknown")
    else if MACOS in platforms then Some("macosx")
    else if IOS in platforms then Some("ios")
    else if TVOS in platforms then Some("tvos")
    else if WATCHOS in platforms then Some("watchos")
    else if 5 in platforms then Some("unknown")
    else if CATALYST in platforms then
      if version >= 3 then Some("iosmac") else None
    else if IOS_SIMULATOR in platforms then Some("ios")
    else if TVOS_SIMULATOR in platforms then Some("tvos")
    else if WATCHOS_SIMULATOR in platforms then Some("watchos")
    else Some("unknown")
  }

  function ReadPlatformWord(word: string, version: nat): Option<set<nat>> {
    if word == "zippered" then
      if version >= 3 then Some({MACOS, CATALYST}) else None
    else if word == "macosx" then Some({MACOS})
    else if word == "ios" then Some({IOS})
    else if word == "watchos" then Some({WATCHOS})
    else if word == "tvos" then Some({TVOS})
    else if word == "iosmac" || word == "maccatalyst" then
      if version >= 3 then Some({CATALYST}) else None
    else Some({0})
  }

  /** The targets of an architecture set on the platforms of the file. */
  function Synthesized(archs: set<Arch>, platforms: set<nat>): seq<Target> {
    FromPlatform(archs, platforms, 0)
  }

  function FromPlatform(archs: set<Arch>, platforms: set<nat>, p: nat): seq<Target>
    decreases 256 - p
  {
    if p >= 256 then []
    else
      (if p in platforms then FromArch(archs, MapToSim(p, HasX86(archs)), 0) else []) +
      FromPlatform(archs, platforms, p + 1)
  }

  function FromArch(archs: set<Arch>, platform: nat, a: nat): seq<Target>
    decreases 32 - a
  {
    if a >= 32 then []
    else
      (if a in archs && a != AK_UNKNOWN && !(a == AK_I386 && platform == CATALYST) then [Target(a, platform)] else []) +
      FromArch(archs, platform, a + 1)
  }

  lemma {:induction false} FromArchListed(archs: set<Arch>, platform: nat, a: nat, t: Target)
    ensures t in FromArch(archs, platform, a) <==>
            t.arch >= a && t.arch in archs && t.arch != AK_UNKNOWN && t.platform == platform &&
              !(t.arch == AK_I386 && platform == CATALYST)
    decreases 32 - a
  {
    if a < 32 {
      var rest := FromArch(archs, platform, a + 1);
      var made := a in archs && a != AK_UNKNOWN && !(a == AK_I386 && platform == CATALYST);
      var head := if made then [Target(a, platform)] else [];
      assert FromArch(archs, platform, a) == head + rest;
      FromArchListed(archs, platform, a + 1, t);
      hide FromArch;
      assert t in head + rest <==> t in head || t in rest;
    }
  }

  predicate Synthetic(archs: set<Arch>, platforms: set<nat>, p: nat, t: Target) {
    t.arch in archs && t.arch != AK_UNKNOWN && !(t.arch == AK_I386 && t.platform == CATALYST) &&
    exists q :: p <= q < 256 && q in platforms && t.platform == MapToSim(q, HasX86(archs))
  }

  lemma {:induction false} FromPlatformListed(archs: set<Arch>, platforms: set<nat>, p: nat, t: Target)
    ensures t in FromPlatform(archs, platforms, p) <==> Synthetic(archs, platforms, p, t)
    decreases 256 - p
  {
    hide FromArch;
    if p < 256 {
      FromPlatformListed(archs, platforms, p + 1, t);
      FromArchListed(archs, MapToSim(p, HasX86(archs)), 0, t);
    }
  }

  /** Which targets are made up: each known architecture with each platform, a
      simulator where there is an Intel architecture, and no i386 Catalyst. */
  lemma SynthesizedTargets(archs: set<Arch>, platforms: set<nat>, t: Target)
    requires forall p :: p in platforms ==> p < 256
    ensures t in Synthesized(archs, platforms) <==>
            t.arch in archs && t.arch != AK_UNKNOWN && !(t.arch == AK_I386 && t.platform == CATALYST) &&
            exists q :: q in platforms && t.platform == MapToSim(q, HasX86(archs))
  {
    FromPlatformListed(archs, platforms, 0, t);
  }

  // ----- the normalized form -----

  datatype ExportSection = ExportSection(allowableClients: seq<string>, reexportedLibraries: seq<string>,
                                         names: Section<set<Arch>>)

  datatype TBD = TBD(
    architectures: set<Arch>, uuids: seq<(Target, string)>, platforms: set<nat>, installName: string,
    currentVersion: nat, compatibilityVersion: nat, swiftVersion: nat, flags: Flags, parentUmbrella: string,
    exports: seq<ExportSection>, undefineds: seq<Section<set<Arch>>>)

  // ----- symbols: names before and after version 3 -----

  const EH_PREFIX := "_OBJC_EHTYPE_$_"

  predicate IsEH(text: string) {
    |text| >= 15 && text[..15] == EH_PREFIX
  }

  /** The list and the name there; before version 3 names are mangled and exception
      types are among the plain symbols. */
  function Placed(kind: Kind, name: string, weak: bool, threadLocal: bool, version: nat): (Bucket, string) {
    match kind
    case GlobalSymbol => (if weak then Weak else if threadLocal then ThreadLocal else Plain, name)
    case ObjectiveCClass => (Classes, if version < 3 then "_" + name else name)
    case ObjectiveCClassEHType => if version < 3 then (Plain, EH_PREFIX + name) else (ClassEHs, name)
    case ObjectiveCInstanceVariable => (IVars, if version < 3 then "_" + name else name)
  }

  function Dropped(text: string): string {
    if text == "" then "" else text[1..]
  }

  function KeyRead(b: Bucket, text: string, version: nat): SymbolKey {
    match b
    case Plain =>
      if version < 3 && IsEH(text) then SymbolKey(ObjectiveCClassEHType, text[15..]) else SymbolKey(GlobalSymbol, text)
    case Classes => SymbolKey(ObjectiveCClass, if version < 3 then Dropped(text) else text)
    case ClassEHs => SymbolKey(ObjectiveCClassEHType, text)
    case IVars => SymbolKey(ObjectiveCInstanceVariable, if version < 3 then Dropped(text) else text)
    case _ => SymbolKey(GlobalSymbol, text)
  }

  /** Undefined symbols record whether they are weakly referenced, others whether
      they are weakly defined or thread local. */
  function SpotOld(k: SymbolKey, x: XPI, version: nat): Spot<set<Arch>> {
    var undefined := x.linkage == External;
    var spot := Placed(k.kind, k.name, if undefined then x.flags.weakReferenced else x.flags.weakDefined,
                       !undefined && x.flags.threadLocal, version);
    Spot(UsableArchs(SymbolOf(x)), spot.0, spot.1)
  }

  function SpotsOld(table: map<SymbolKey, XPI>, undefined: bool, version: nat): map<SymbolKey, Spot<set<Arch>>> {
    map k | k in table && Available(table[k]) && (table[k].linkage == External) == undefined ::
      SpotOld(k, table[k], version)
  }

  function FlagsOld(b: Bucket, undefined: bool): SymbolFlags {
    match b
    case Weak => if undefined then SymbolFlags(false, false, true) else SymbolFlags(false, true, false)
    case ThreadLocal => SymbolFlags(true, false, false)
    case _ => NO_FLAGS
  }

  function ReadingOld(undefined: bool, version: nat, platforms: set<nat>): Spot<set<Arch>> -> Fact {
    (e: Spot<set<Arch>>) => Fact(KeyRead(e.bucket, e.text, version), if undefined then External else Exported,
                                 FlagsOld(e.bucket, undefined), Synthesized(e.group, platforms))
  }

  lemma EHPrefix(name: string)
    ensures IsEH(EH_PREFIX + name) && (EH_PREFIX + name)[15..] == name
  {
    assert |EH_PREFIX| == 15;
    assert (EH_PREFIX + name)[..15] == EH_PREFIX;
  }

  /** The plain global names that version 2 takes for exception types. */
  predicate Misread(k: SymbolKey, x: XPI, version: nat) {
    version < 3 && k.kind == GlobalSymbol && SpotOld(k, x, version).bucket == Plain && IsEH(k.name)
  }

  /** A name is read as the symbol it was written for unless it is such a name. */
  lemma KeyReadBack(k: SymbolKey, x: XPI, version: nat)
    ensures KeyRead(SpotOld(k, x, version).bucket, SpotOld(k, x, version).text, version) == k
         <==> !Misread(k, x, version)
  {
    hide UsableArchs;
    EHPrefix(k.name);
    assert ("_" + k.name)[1..] == k.name;
  }

  // ----- writing -----

  function ArchsOn(r: Ref): set<Arch> {
    ArchsOf(Members(r.targets))
  }

  /** The libraries for exactly these architectures, in the order of the file. */
  function NamesFor(refs: seq<Ref>, archs: set<Arch>): seq<string> {
    if refs == [] then []
    else
      var last := refs[|refs| - 1];
      NamesFor(refs[..|refs| - 1], archs) + if ArchsOn(last) == archs then [last.installName] else []
  }

  function ArchSets(refs: seq<Ref>): set<set<Arch>> {
    set i | 0 <= i < |refs| :: ArchsOn(refs[i])
  }

  function NameSections(es: seq<ExportSection>): seq<Section<set<Arch>>> {
    seq(|es|, i requires 0 <= i < |es| => es[i].names)
  }

  function FirstUmbrella(us: seq<(Target, string)>): string {
    if us == [] then "" else us[0].1
  }

  predicate LibrariesWritten(e: ExportSection, f: Interface) {
    e.allowableClients == NamesFor(f.clients, e.names.group) &&
      e.reexportedLibraries == NamesFor(f.reexports, e.names.group)
  }

  ghost predicate ExportsWritten(es: seq<ExportSection>, f: Interface, version: nat) {
    var groups, spots := Groups(NameSections(es)), SpotsOld(f.symbols, false, version);
    Ascending(groups, ArchsLess) && Members(groups) == ArchSets(f.clients) + ArchSets(f.reexports) + GroupsOf(spots) &&
    Written(NameSections(es), spots, groups) && forall j :: 0 <= j < |es| ==> LibrariesWritten(es[j], f)
  }

  ghost predicate UndefinedsWritten(ss: seq<Section<set<Arch>>>, f: Interface, version: nat) {
    var groups, spots := Groups(ss), SpotsOld(f.symbols, true, version);
    Ascending(groups, ArchsLess) && Members(groups) == GroupsOf(spots) && Written(ss, spots, groups)
  }

  ghost predicate WrittenOld(f: Interface, t: TBD, version: nat) {
    t.architectures == ArchsOf(Members(f.targets)) && t.uuids == f.uuids && t.platforms == PlatformsOf(f.targets) &&
    t.installName == f.header.installName && t.currentVersion == f.header.currentVersion &&
    t.compatibilityVersion == f.header.compatibilityVersion && t.swiftVersion == f.swiftVersion &&
    t.flags == Flags(!f.header.twoLevelNamespace, !f.header.appExtensionSafe, f.header.installAPI) &&
    t.parentUmbrella == FirstUmbrella(f.umbrellas) &&
    ExportsWritten(t.exports, f, version) && UndefinedsWritten(t.undefineds, f, version)
  }

  function PlatformsOf(ts: seq<Target>): set<nat> {
    set t | t in ts :: t.platform
  }

  lemma ArchSetsNext(refs: seq<Ref>, i: nat)
    requires i < |refs|
    ensures ArchSets(refs[..i + 1]) == ArchSets(refs[..i]) + {ArchsOn(refs[i])}
  {
    var before, after := refs[..i], refs[..i + 1];
    assert after[i] == refs[i] && forall j :: 0 <= j < i ==> after[j] == before[j];
  }

  method AddArchs(groups: seq<set<Arch>>, archs: set<Arch>) returns (more: seq<set<Arch>>)
    requires Ascending(groups, ArchsLess)
    ensures Ascending(more, ArchsLess) && Members(more) == Members(groups) + {archs}
  {
    ArchsOrder();
    more := AddKey(groups, archs, ArchsLess);
  }

  method CollectLibraries(groups: seq<set<Arch>>, refs: seq<Ref>) returns (more: seq<set<Arch>>)
    requires Ascending(groups, ArchsLess)
    ensures Ascending(more, ArchsLess) && Members(more) == Members(groups) + ArchSets(refs)
  {
    more := groups;
    for i := 0 to |refs|
      invariant Ascending(more, ArchsLess) && Members(more) == Members(groups) + ArchSets(refs[..i])
    {
      hide Ascending, ArchSets;
      ArchSetsNext(refs, i);
      var archs := InterfaceOperations.ArchitecturesOf(refs[i].targets);
      more := AddArchs(more, archs);
    }
    assert refs[..|refs|] == refs;
  }

  method CollectSymbols(groups: seq<set<Arch>>, table: map<SymbolKey, XPI>, undefined: bool, version: nat)
    returns (spots: map<SymbolKey, Spot<set<Arch>>>, more: seq<set<Arch>>)
    requires Ascending(groups, ArchsLess)
    ensures spots == SpotsOld(table, undefined, version)
    ensures Ascending(more, ArchsLess) && Members(more) == Members(groups) + GroupsOf(spots)
  {
    hide Ascending, GroupsOf, SpotsOld, Available, SpotOld, Members, ArchsLess;
    spots, more := map[], groups;
    var todo := table.Keys;
    ghost var goal := SpotsOld(table, undefined, version);
    SpotsFrom(table, undefined, version);
    NoneMore(Members(groups));
    NothingDone(map[], goal, todo);
    while todo != {}
      invariant todo <= table.Keys && spots == map[] + (goal - todo)
      invariant Ascending(more, ArchsLess) && Members(more) == Members(groups) + GroupsOf(spots)
      decreases |todo|
    {
      var k :| k in todo;
      SpotOfSymbol(table, undefined, version, k);
      if Available(table[k]) && (table[k].linkage == External) == undefined {
        var spot := SpotOld(k, table[k], version);
        FillOne(map[], goal, todo, k);
        GroupsNext(spots, k, spot);
        OneMore(Members(groups), GroupsOf(spots), spot.group);
        more := AddArchs(more, spot.group);
        spots := spots[k := spot];
      } else {
        SkipOne(map[], goal, todo, k);
      }
      todo := todo - {k};
    }
    NothingLeft(map[], goal);
  }

  lemma OneMore<T>(s: set<T>, t: set<T>, x: T)
    ensures s + (t + {x}) == s + t + {x}
  {
  }

  lemma NoneMore<T>(s: set<T>)
    ensures s + {} == s
  {
  }

  lemma SpotsFrom(table: map<SymbolKey, XPI>, undefined: bool, version: nat)
    ensures SpotsOld(table, undefined, version).Keys <= table.Keys
    ensures GroupsOf<set<Arch>>(map[]) == {}
  {
  }

  lemma SpotOfSymbol(table: map<SymbolKey, XPI>, undefined: bool, version: nat, k: SymbolKey)
    requires k in table
    ensures k in SpotsOld(table, undefined, version) <==>
            Available(table[k]) && (table[k].linkage == External) == undefined
    ensures k in SpotsOld(table, undefined, version) ==>
            SpotsOld(table, undefined, version)[k] == SpotOld(k, table[k], version)
  {
    hide Available, SpotOld;
  }

  method WriteLibraryNames(refs: seq<Ref>, archs: set<Arch>) returns (names: seq<string>)
    ensures names == NamesFor(refs, archs)
  {
    names := [];
    for i := 0 to |refs|
      invariant names == NamesFor(refs[..i], archs)
    {
      assert refs[..i + 1][..i] == refs[..i];
      var have := InterfaceOperations.ArchitecturesOf(refs[i].targets);
      if have == archs {
        names := names + [refs[i].installName];
      }
    }
    assert refs[..|refs|] == refs;
  }

  method WriteExports(f: Interface, version: nat) returns (es: seq<ExportSection>)
    ensures ExportsWritten(es, f, version)
  {
    var groups := CollectLibraries([], f.clients);
    groups := CollectLibraries(groups, f.reexports);
    var spots;
    spots, groups := CollectSymbols(groups, f.symbols, false, version);
    es := [];
    for i := 0 to |groups|
      invariant |es| == i
      invariant forall j :: 0 <= j < i ==> WrittenFor(es[j].names, spots, groups[j]) && LibrariesWritten(es[j], f)
    {
      hide WrittenFor, Ascending, SpotsOld;
      var names := WriteExportNames(spots, groups[i]);
      var clients := WriteLibraryNames(f.clients, groups[i]);
      var libraries := WriteLibraryNames(f.reexports, groups[i]);
      es := es + [ExportSection(clients, libraries, names)];
    }
    hide WrittenFor, Ascending, SpotsOld;
    AllWritten(es, spots, groups);
  }

  method WriteExportNames(spots: map<SymbolKey, Spot<set<Arch>>>, group: set<Arch>) returns (names: Section<set<Arch>>)
    ensures WrittenFor(names, spots, group) && names.group == group
  {
    names := WriteSection(spots, group);
  }

  lemma AllWritten(es: seq<ExportSection>, spots: map<SymbolKey, Spot<set<Arch>>>, groups: seq<set<Arch>>)
    requires |es| == |groups| && forall j :: 0 <= j < |es| ==> WrittenFor(es[j].names, spots, groups[j])
    ensures Groups(NameSections(es)) == groups && Written(NameSections(es), spots, groups)
  {
    forall j | 0 <= j < |es| ensures es[j].names.group == groups[j] {
      assert WrittenFor(es[j].names, spots, groups[j]);
    }
    hide WrittenFor;
  }

  method WriteUndefineds(f: Interface, version: nat) returns (ss: seq<Section<set<Arch>>>)
    ensures UndefinedsWritten(ss, f, version)
  {
    var spots, groups := CollectSymbols([], f.symbols, true, version);
    ss := WriteSections(spots, groups);
    assert Groups(ss) == groups by {
      forall j | 0 <= j < |ss| ensures ss[j].group == groups[j] {
        assert WrittenFor(ss[j], spots, groups[j]);
      }
    }
  }

  method NormalizeOld(f: Interface, version: nat) returns (t: TBD)
    ensures WrittenOld(f, t, version)
  {
    var archs := InterfaceOperations.ArchitecturesOf(f.targets);
    var flags := Flags(!f.header.twoLevelNamespace, !f.header.appExtensionSafe, f.header.installAPI);
    var exports := WriteExports(f, version);
    var undefineds := WriteUndefineds(f, version);
    t := TBD(archs, f.uuids, PlatformsOf(f.targets), f.header.installName, f.header.currentVersion,
             f.header.compatibilityVersion, f.swiftVersion, flags, FirstUmbrella(f.umbrellas), exports, undefineds);
  }

  // ----- the written file -----

  /** The normalized form, with one word in place of the platforms. */
  datatype Stub = Stub(body: TBD, platform: string)

  lemma SomePlatform(ts: seq<Target>)
    requires ts != []
    ensures PlatformsOf(ts) != {}
  {
    assert ts[0].platform in PlatformsOf(ts);
  }

  /** Nothing is written when there is no word for the platforms. */
  ghost predicate StubWritten(f: Interface, version: nat, s: Option<Stub>)
    requires f.targets != []
  {
    SomePlatform(f.targets);
    match PlatformWord(PlatformsOf(f.targets), version)
    case None => s == None
    case Some(word) => s.Some? && s.value.platform == word && WrittenOld(f, s.value.body, version)
  }

  method WriteStub(f: Interface, version: nat) returns (s: Option<Stub>)
    requires f.targets != []
    ensures StubWritten(f, version, s)
  {
    hide WrittenOld;
    SomePlatform(f.targets);
    var body := NormalizeOld(f, version);
    match PlatformWord(PlatformsOf(f.targets), version)
    case None => s := None;
    case Some(word) => s := Some(Stub(body, word));
  }
}

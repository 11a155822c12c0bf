/** What a reader takes from a stub, told in the texts of the stub, whoever wrote it. */
module StubReading {
  import opened InterfaceAlgebra
  import opened SortedVectors
  import opened InterfaceFiles
  import opened TextSections
  import opened TextStubV4
  import opened TextStubV3
  import opened TextRoundTrip
  import opened TextRoundTripV3

  // ----- entries of any sections -----

  lemma {:induction false} EntriesListed<G>(ss: seq<Section<G>>, e: Spot<G>)
    ensures e in AllEntries(ss) <==>
            exists j :: 0 <= j < |ss| && ss[j].group == e.group && e.text in NamesIn(ss[j], e.bucket)
  {
    hide Entries, NamesIn;
    if ss != [] {
      var n := |ss| - 1;
      EntriesListed(ss[..n], e);
      EntryListed(ss[n], e);
      assert forall j :: 0 <= j < n ==> ss[..n][j] == ss[j];
      hide AllEntries;
      assert e in AllEntries(ss) <==> e in AllEntries(ss[..n]) || e in Entries(ss[n]) by {
        LastEntries(ss);
      }
    }
  }

  lemma LastEntries<G>(ss: seq<Section<G>>)
    requires ss != []
    ensures AllEntries(ss) == AllEntries(ss[..|ss| - 1]) + Entries(ss[|ss| - 1])
  {
  }

  /** What becomes of one symbol when these facts are read: the first decides the
      linkage, and all bring their targets. */
  lemma {:induction false} Learnt(m: map<SymbolKey, Symbol>, facts: seq<Fact>, k: SymbolKey, linkage: Linkage)
    requires forall i :: 0 <= i < |facts| ==> facts[i].linkage == linkage
    ensures var r := ReadAll(m, facts);
            (k in r <==> k in m || Mentioned(facts, k)) &&
            (k in r ==>
               r[k].linkage == (if k in m then m[k].linkage else linkage) &&
               r[k].avail.Keys == (if k in m then m[k].avail.Keys else {}) + TargetsFor(facts, k))
  {
    if facts == [] {
      assert k in m ==> m[k].avail.Keys + TargetsFor(facts, k) == m[k].avail.Keys;
    } else {
      var front, last := facts[..|facts| - 1], facts[|facts| - 1];
      Learnt(m, front, k, linkage);
      TargetsForNext(facts, k);
      if !Mentioned(front, k) { NoTargetsFor(front, k); }
      hide TargetsFor, Mentioned, AddSymbol, AsRequest;
      LearntNext(ReadAll(m, front), last, k);
      if k in ReadAll(m, front) {
        SameUnion(if k in m then m[k].avail.Keys else {}, TargetsFor(front, k), Members(last.targets));
        SameUnion(if k in m then m[k].avail.Keys else {}, TargetsFor(front, k), {});
      }
    }
  }

  lemma LearntNext(m: map<SymbolKey, Symbol>, f: Fact, k: SymbolKey)
    ensures var r := AddSymbol(m, f.key, AsRequest(f));
            (k in r <==> k in m || f.key == k) &&
            (k in r ==>
               r[k].linkage == (if k in m then m[k].linkage else f.linkage) &&
               r[k].avail.Keys == (if k in m then m[k].avail.Keys else {}) +
                                  (if f.key == k then Members(f.targets) else {}))
  {
  }

  /** Three lists read one after the other. */
  lemma ThreeLearnt(a: seq<Fact>, b: seq<Fact>, c: seq<Fact>, k: SymbolKey, la: Linkage, lb: Linkage, lc: Linkage)
    requires forall i :: 0 <= i < |a| ==> a[i].linkage == la
    requires forall i :: 0 <= i < |b| ==> b[i].linkage == lb
    requires forall i :: 0 <= i < |c| ==> c[i].linkage == lc
    ensures var r := ReadAll(ReadAll(ReadAll(map[], a), b), c);
            (k in r <==> Mentioned(a, k) || Mentioned(b, k) || Mentioned(c, k)) &&
            (k in r ==>
               r[k].linkage == (if Mentioned(a, k) then la else if Mentioned(b, k) then lb else lc) &&
               r[k].avail.Keys == TargetsFor(a, k) + TargetsFor(b, k) + TargetsFor(c, k))
  {
    Learnt(map[], a, k, la);
    Learnt(ReadAll(map[], a), b, k, lb);
    Learnt(ReadAll(ReadAll(map[], a), b), c, k, lc);
    if !Mentioned(a, k) { NoTargetsFor(a, k); }
    if !Mentioned(b, k) { NoTargetsFor(b, k); }
    hide ReadAll, Mentioned, TargetsFor;
  }

  lemma TwoLearnt(a: seq<Fact>, c: seq<Fact>, k: SymbolKey, la: Linkage, lc: Linkage)
    requires forall i :: 0 <= i < |a| ==> a[i].linkage == la
    requires forall i :: 0 <= i < |c| ==> c[i].linkage == lc
    ensures var r := ReadAll(ReadAll(map[], a), c);
            (k in r <==> Mentioned(a, k) || Mentioned(c, k)) &&
            (k in r ==>
               r[k].linkage == (if Mentioned(a, k) then la else lc) &&
               r[k].avail.Keys == TargetsFor(a, k) + TargetsFor(c, k))
  {
    ThreeLearnt(a, [], c, k, la, la, lc);
    assert ReadAll(ReadAll(map[], a), []) == ReadAll(map[], a);
    assert !Mentioned([], k) && TargetsFor([], k) == {};
    hide ReadAll, Mentioned, TargetsFor;
    assert TargetsFor(a, k) + {} == TargetsFor(a, k);
  }

  /** Some section lists a text that the reader takes for the symbol. */
  predicate TakenFrom<G>(ss: seq<Section<G>>, read: Spot<G> -> Fact, k: SymbolKey) {
    exists j, b, text :: 0 <= j < |ss| && text in NamesIn(ss[j], b) && read(Spot(ss[j].group, b, text)).key == k
  }

  predicate TakenOn<G>(ss: seq<Section<G>>, read: Spot<G> -> Fact, k: SymbolKey, t: Target) {
    exists j, b, text ::
      0 <= j < |ss| && text in NamesIn(ss[j], b) && read(Spot(ss[j].group, b, text)).key == k &&
      t in read(Spot(ss[j].group, b, text)).targets
  }

  lemma MentionedInSections<G>(ss: seq<Section<G>>, read: Spot<G> -> Fact, k: SymbolKey)
    ensures Mentioned(Facts(AllEntries(ss), read), k) <==> TakenFrom(ss, read, k)
  {
    var es := AllEntries(ss);
    hide AllEntries, NamesIn;
    if Mentioned(Facts(es, read), k) {
      var i :| 0 <= i < |es| && Facts(es, read)[i].key == k;
      EntriesListed(ss, es[i]);
      var j :| 0 <= j < |ss| && ss[j].group == es[i].group && es[i].text in NamesIn(ss[j], es[i].bucket);
      assert es[i] == Spot(ss[j].group, es[i].bucket, es[i].text);
    }
    if TakenFrom(ss, read, k) {
      var j, b, text :| 0 <= j < |ss| && text in NamesIn(ss[j], b) && read(Spot(ss[j].group, b, text)).key == k;
      EntriesListed(ss, Spot(ss[j].group, b, text));
      var i :| 0 <= i < |es| && es[i] == Spot(ss[j].group, b, text);
      assert Facts(es, read)[i].key == k;
    }
  }

  lemma TargetsInSections<G>(ss: seq<Section<G>>, read: Spot<G> -> Fact, k: SymbolKey, t: Target)
    ensures t in TargetsFor(Facts(AllEntries(ss), read), k) <==> TakenOn(ss, read, k, t)
  {
    var es := AllEntries(ss);
    hide AllEntries, NamesIn;
    if t in TargetsFor(Facts(es, read), k) {
      var i :| 0 <= i < |es| && Facts(es, read)[i].key == k && t in Facts(es, read)[i].targets;
      EntriesListed(ss, es[i]);
      var j :| 0 <= j < |ss| && ss[j].group == es[i].group && es[i].text in NamesIn(ss[j], es[i].bucket);
      assert es[i] == Spot(ss[j].group, es[i].bucket, es[i].text);
    }
    if TakenOn(ss, read, k, t) {
      var j, b, text :| 0 <= j < |ss| && text in NamesIn(ss[j], b) && read(Spot(ss[j].group, b, text)).key == k &&
        t in read(Spot(ss[j].group, b, text)).targets;
      EntriesListed(ss, Spot(ss[j].group, b, text));
      var i :| 0 <= i < |es| && es[i] == Spot(ss[j].group, b, text);
      assert Facts(es, read)[i].key == k && t in Facts(es, read)[i].targets;
    }
  }

  // ----- version 4 -----

  predicate Named<G>(s: Section<G>, k: SymbolKey) {
    match k.kind
    case GlobalSymbol => k.name in s.symbols || k.name in s.weakSymbols || k.name in s.tlvSymbols
    case ObjectiveCClass => k.name in s.classes
    case ObjectiveCClassEHType => k.name in s.classEHs
    case ObjectiveCInstanceVariable => k.name in s.ivars
  }

  predicate NamedAt(s: Section<seq<Target>>, linkage: Linkage, k: SymbolKey) {
    exists b, text :: text in NamesIn(s, b) && Reading(linkage)(Spot(s.group, b, text)).key == k
  }

  lemma NamedInOne(s: Section<seq<Target>>, linkage: Linkage, k: SymbolKey)
    ensures Named(s, k) <==> NamedAt(s, linkage, k)
  {
    hide FlagsRead;
    forall b, text ensures Reading(linkage)(Spot(s.group, b, text)).key == SymbolKey(KindIn(b), text) {
    }
    hide Reading;
    if Named(s, k) {
      var b := if k.kind == ObjectiveCClass then Classes else if k.kind == ObjectiveCClassEHType then ClassEHs
        else if k.kind == ObjectiveCInstanceVariable then IVars
        else if k.name in s.symbols then Plain else if k.name in s.weakSymbols then Weak else ThreadLocal;
      assert k.name in NamesIn(s, b) && Reading(linkage)(Spot(s.group, b, k.name)).key == k;
    }
  }

  predicate NamedOn(ss: seq<Section<seq<Target>>>, k: SymbolKey, t: Target) {
    exists j :: 0 <= j < |ss| && Named(ss[j], k) && t in ss[j].group
  }

  predicate NamedIn(ss: seq<Section<seq<Target>>>, k: SymbolKey) {
    exists j :: 0 <= j < |ss| && Named(ss[j], k)
  }

  lemma NamedIsTaken(ss: seq<Section<seq<Target>>>, linkage: Linkage, k: SymbolKey, t: Target)
    ensures var facts := Facts(AllEntries(ss), Reading(linkage));
            (Mentioned(facts, k) <==> NamedIn(ss, k)) && (t in TargetsFor(facts, k) <==> NamedOn(ss, k, t)) &&
            forall i :: 0 <= i < |facts| ==> facts[i].linkage == linkage
  {
    var read := Reading(linkage);
    MentionedInSections(ss, read, k);
    TargetsInSections(ss, read, k, t);
    hide FlagsRead, Mentioned, TargetsFor, AllEntries, NamesIn, Named, KindIn;
    forall j | 0 <= j < |ss| ensures Named(ss[j], k) <==> NamedAt(ss[j], linkage, k) {
      NamedInOne(ss[j], linkage, k);
    }
    assert forall j, b, text :: 0 <= j < |ss| && text in NamesIn(ss[j], b) ==>
                                  read(Spot(ss[j].group, b, text)).targets == ss[j].group;
    hide Reading;
    assert TakenFrom(ss, read, k) <==> NamedIn(ss, k);
    assert TakenOn(ss, read, k, t) <==> NamedOn(ss, k, t);
  }

  /** A symbol is in the file that is read exactly when some section lists its name in a
      list for its kind, on the targets of all such sections; it is exported if an export
      section lists it, else reexported if a section of those does, else external. */
  lemma Understood(t: TBDv4, path: string, fileType: Version, g: Interface, k: SymbolKey, at: Target)
    requires ReadAs(t, path, fileType, true, g)
    ensures var symbols := Content(g).symbols;
            (k in symbols <==> NamedIn(t.exports, k) || NamedIn(t.reexports, k) || NamedIn(t.undefineds, k)) &&
            (k in symbols ==>
               symbols[k].linkage == (if NamedIn(t.exports, k) then Exported
                                      else if NamedIn(t.reexports, k) then Reexported else External) &&
               (at in symbols[k].avail <==>
                NamedOn(t.exports, k, at) || NamedOn(t.reexports, k, at) || NamedOn(t.undefineds, k, at)))
  {
    assert Content(g).symbols == SymbolsRead(t);
    hide ReadAs, Content, ReadAll, Facts, AllEntries, Reading, NamedIn, NamedOn, Mentioned, TargetsFor;
    NamedIsTaken(t.exports, Exported, k, at);
    NamedIsTaken(t.reexports, Reexported, k, at);
    NamedIsTaken(t.undefineds, External, k, at);
    ThreeLearnt(Facts(AllEntries(t.exports), Reading(Exported)), Facts(AllEntries(t.reexports), Reading(Reexported)),
                Facts(AllEntries(t.undefineds), Reading(External)), k, Exported, Reexported, External);
  }

  // ----- before version 4 -----

  /** Before version 3 the first character of the text of a class or an instance variable
      is not part of its name. */
  predicate NamedBehind(texts: seq<string>, name: string, version: nat) {
    if version >= 3 then name in texts
    else (name == "" && "" in texts) || exists text :: text in texts && text != "" && text[1..] == name
  }

  predicate NamedOld(s: Section<set<Arch>>, k: SymbolKey, version: nat) {
    match k.kind
    case GlobalSymbol =>
      (k.name in s.symbols && (version >= 3 || |k.name| < 15 || k.name[..15] != "_OBJC_EHTYPE_$_")) ||
      k.name in s.weakSymbols || k.name in s.tlvSymbols
    case ObjectiveCClass => NamedBehind(s.classes, k.name, version)
    case ObjectiveCInstanceVariable => NamedBehind(s.ivars, k.name, version)
    case ObjectiveCClassEHType =>
      k.name in s.classEHs || (version < 3 && "_OBJC_EHTYPE_$_" + k.name in s.symbols)
  }

  predicate TakenFor(s: Section<set<Arch>>, k: SymbolKey, version: nat) {
    exists b, text :: text in NamesIn(s, b) && KeyRead(b, text, version) == k
  }

  lemma BehindIsTaken(texts: seq<string>, b: Bucket, kind: Kind, name: string, version: nat)
    requires (b == Classes && kind == ObjectiveCClass) || (b == IVars && kind == ObjectiveCInstanceVariable)
    ensures NamedBehind(texts, name, version) <==>
            exists text :: text in texts && KeyRead(b, text, version) == SymbolKey(kind, name)
  {
    if version < 3 {
      if NamedBehind(texts, name, version) {
        var text :| text in texts && ((name == "" && text == "") || (text != "" && text[1..] == name));
        assert KeyRead(b, text, version) == SymbolKey(kind, name);
      }
    } else {
      assert KeyRead(b, name, version) == SymbolKey(kind, name);
    }
  }

  lemma OldInOne(s: Section<set<Arch>>, k: SymbolKey, version: nat)
    ensures NamedOld(s, k, version) <==> TakenFor(s, k, version)
  {
    BehindIsTaken(s.classes, Classes, ObjectiveCClass, k.name, version);
    BehindIsTaken(s.ivars, IVars, ObjectiveCInstanceVariable, k.name, version);
    hide NamedBehind;
    if NamedOld(s, k, version) { OldIsTaken(s, k, version); }
    if TakenFor(s, k, version) {
      var b, text :| text in NamesIn(s, b) && KeyRead(b, text, version) == k;
      assert IsEH(text) ==> text == EH_PREFIX + text[15..];
    }
  }

  lemma OldIsTaken(s: Section<set<Arch>>, k: SymbolKey, version: nat)
    requires NamedOld(s, k, version)
    ensures TakenFor(s, k, version)
  {
    match k.kind
    case GlobalSymbol =>
      var b := if k.name in s.weakSymbols then Weak else if k.name in s.tlvSymbols then ThreadLocal else Plain;
      assert k.name in NamesIn(s, b) && KeyRead(b, k.name, version) == k;
    case ObjectiveCClass =>
      BehindIsTaken(s.classes, Classes, ObjectiveCClass, k.name, version);
      var text :| text in s.classes && KeyRead(Classes, text, version) == k;
      assert text in NamesIn(s, Classes);
    case ObjectiveCInstanceVariable =>
      BehindIsTaken(s.ivars, IVars, ObjectiveCInstanceVariable, k.name, version);
      var text :| text in s.ivars && KeyRead(IVars, text, version) == k;
      assert text in NamesIn(s, IVars);
    case ObjectiveCClassEHType =>
      EHPrefix(k.name);
      if k.name in s.classEHs {
        assert k.name in NamesIn(s, ClassEHs) && KeyRead(ClassEHs, k.name, version) == k;
      } else {
        assert EH_PREFIX + k.name in NamesIn(s, Plain) && KeyRead(Plain, EH_PREFIX + k.name, version) == k;
      }
  }

  predicate OldNamedIn(ss: seq<Section<set<Arch>>>, k: SymbolKey, version: nat) {
    exists j :: 0 <= j < |ss| && NamedOld(ss[j], k, version)
  }

  predicate OldNamedOn(ss: seq<Section<set<Arch>>>, k: SymbolKey, version: nat, platforms: set<nat>, t: Target) {
    exists j :: 0 <= j < |ss| && NamedOld(ss[j], k, version) && t in Synthesized(ss[j].group, platforms)
  }

  lemma OldNamedIsTaken(ss: seq<Section<set<Arch>>>, undefined: bool, version: nat, platforms: set<nat>, k: SymbolKey,
                        t: Target)
    ensures var facts := Facts(AllEntries(ss), ReadingOld(undefined, version, platforms));
            (Mentioned(facts, k) <==> OldNamedIn(ss, k, version)) &&
            (t in TargetsFor(facts, k) <==> OldNamedOn(ss, k, version, platforms, t)) &&
            forall i :: 0 <= i < |facts| ==> facts[i].linkage == if undefined then External else Exported
  {
    var read := ReadingOld(undefined, version, platforms);
    MentionedInSections(ss, read, k);
    TargetsInSections(ss, read, k, t);
    hide FlagsOld, Mentioned, TargetsFor, AllEntries, NamesIn, NamedOld, KeyRead, Synthesized;
    forall j | 0 <= j < |ss| ensures NamedOld(ss[j], k, version) <==> TakenFor(ss[j], k, version) {
      OldInOne(ss[j], k, version);
    }
    assert forall j, b, text :: 0 <= j < |ss| && text in NamesIn(ss[j], b) ==>
                                  read(Spot(ss[j].group, b, text)).key == KeyRead(b, text, version) &&
                                  read(Spot(ss[j].group, b, text)).targets == Synthesized(ss[j].group, platforms);
    hide ReadingOld;
    assert TakenFrom(ss, read, k) <==> OldNamedIn(ss, k, version);
    assert TakenOn(ss, read, k, t) <==> OldNamedOn(ss, k, version, platforms, t);
  }

  /** The same for the older forms: the targets are made up from architectures and
      platforms, and what is not external is exported. */
  lemma OldUnderstood(t: TBD, version: nat, path: string, fileType: Version, g: Interface, k: SymbolKey, at: Target)
    requires ReadOldAs(t, version, path, fileType, true, g)
    ensures var symbols, exports := Content(g).symbols, NameSections(t.exports);
            (k in symbols <==> OldNamedIn(exports, k, version) || OldNamedIn(t.undefineds, k, version)) &&
            (k in symbols ==>
               symbols[k].linkage == (if OldNamedIn(exports, k, version) then Exported else External) &&
               (at in symbols[k].avail <==>
                OldNamedOn(exports, k, version, t.platforms, at) ||
                OldNamedOn(t.undefineds, k, version, t.platforms, at)))
  {
    assert Content(g).symbols == SymbolsReadOld(t, version);
    hide ReadOldAs, Content, Facts, AllEntries, ReadingOld, ReadAll, TargetsFor, OldNamedIn, OldNamedOn;
    hide Mentioned, NameSections;
    var ss := NameSections(t.exports);
    OldNamedIsTaken(ss, false, version, t.platforms, k, at);
    OldNamedIsTaken(t.undefineds, true, version, t.platforms, k, at);
    var exports, undefineds := Facts(AllEntries(ss), ReadingOld(false, version, t.platforms)),
      Facts(AllEntries(t.undefineds), ReadingOld(true, version, t.platforms));
    TwoLearnt(exports, undefineds, k, Exported, External);
  }

  /** The other fields of an older stub: version 1 has no flags and means two-level
      namespace and extension safe; the one umbrella goes to every target, unless it is
      empty; a uuid goes to the targets of its architecture, the last one staying; a
      library counts for the made-up targets of its section. */
  lemma OldFieldsUnderstood(t: TBD, version: nat, path: string, fileType: Version, withSymbols: bool, g: Interface,
                            at: Target, name: string)
    requires ReadOldAs(t, version, path, fileType, withSymbols, g)
    ensures g.header.installName == t.installName && g.header.currentVersion == t.currentVersion &&
            g.header.compatibilityVersion == t.compatibilityVersion && g.swiftVersion == t.swiftVersion
    ensures version == 1 ==> g.header.twoLevelNamespace && g.header.appExtensionSafe && !g.header.installAPI
    ensures version != 1 ==>
              g.header.twoLevelNamespace == !t.flags.flatNamespace &&
              g.header.appExtensionSafe == !t.flags.notAppExtensionSafe && g.header.installAPI == t.flags.installAPI
    ensures at in g.targets <==> at in Synthesized(t.architectures, t.platforms)
    ensures at in AsMap(g.umbrellas) <==> at in g.targets && t.parentUmbrella != ""
    ensures at in AsMap(g.umbrellas) ==> AsMap(g.umbrellas)[at] == t.parentUmbrella
    ensures (name, at) in Links(g.clients) <==>
            exists j :: 0 <= j < |t.exports| && name in t.exports[j].allowableClients &&
                        at in Synthesized(t.exports[j].names.group, t.platforms)
    ensures (name, at) in Links(g.reexports) <==>
            exists j :: 0 <= j < |t.exports| && name in t.exports[j].reexportedLibraries &&
                        at in Synthesized(t.exports[j].names.group, t.platforms)
  {
    hide Synthesized, AsMap, Links, Flat, SymbolsReadOld, Spread, SymbolsOf;
    assert at in Members(g.targets) <==> at in g.targets;
    NamedLibrary(t.exports, t.platforms, at, name);
  }

  lemma NamedLibrary(es: seq<ExportSection>, platforms: set<nat>, at: Target, name: string)
    ensures (name, at) in MetadataLinks(ClientSections(es, platforms)) <==>
            exists j :: 0 <= j < |es| && name in es[j].allowableClients &&
                        at in Synthesized(es[j].names.group, platforms)
    ensures (name, at) in MetadataLinks(LibrarySections(es, platforms)) <==>
            exists j :: 0 <= j < |es| && name in es[j].reexportedLibraries &&
                        at in Synthesized(es[j].names.group, platforms)
  {
    hide Synthesized;
    var cs, ls := ClientSections(es, platforms), LibrarySections(es, platforms);
    assert forall j :: 0 <= j < |es| ==>
      cs[j].values == es[j].allowableClients && cs[j].targets == Synthesized(es[j].names.group, platforms);
    assert forall j :: 0 <= j < |es| ==>
      ls[j].values == es[j].reexportedLibraries && ls[j].targets == Synthesized(es[j].names.group, platforms);
  }

  lemma UUIDUnderstood(t: TBD, version: nat, path: string, fileType: Version, withSymbols: bool, g: Interface,
                       at: Target, i: nat)
    requires ReadOldAs(t, version, path, fileType, withSymbols, g) && at in g.targets && i < |t.uuids|
    requires t.uuids[i].0.arch == at.arch && forall j :: i < j < |t.uuids| ==> t.uuids[j].0.arch != at.arch
    ensures at in AsMap(g.uuids) && AsMap(g.uuids)[at] == t.uuids[i].1
  {
    hide Synthesized, Links, Flat, SymbolsReadOld, SymbolsOf, MetadataLinks, Everywhere, HeaderRead, AsMap;
    assert at in Members(g.targets);
    hide ReadOldAs;
    LastSpread(Members(g.targets), t.uuids, at, i);
  }

  lemma {:induction false} LastSpread(ts: set<Target>, ids: seq<(Target, string)>, at: Target, i: nat)
    requires at in ts && i < |ids|
    requires ids[i].0.arch == at.arch && forall j :: i < j < |ids| ==> ids[j].0.arch != at.arch
    ensures at in Spread(ts, ids) && Spread(ts, ids)[at] == ids[i].1
    decreases |ids|
  {
    if i < |ids| - 1 {
      LastSpread(ts, ids[..|ids| - 1], at, i);
    }
  }
}

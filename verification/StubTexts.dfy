/** The texts a written stub holds, told in the fields of the file. */
module StubTexts {
  import opened InterfaceAlgebra
  import opened SortedVectors
  import opened InterfaceFiles
  import opened SymbolSets
  import opened TextSections
  import opened TextStubV4
  import opened TextContent
  import opened TextStubV3
  import opened TextRoundTrip

  // ----- the symbols a stub tells of -----

  /** On some target the symbol is neither unavailable nor obsoleted. */
  predicate Live(x: XPI) {
    exists i :: 0 <= i < |x.avail| && !x.avail[i].1.unavailable && x.avail[i].1.obsoleted == 0
  }

  lemma AvailableIsLive(x: XPI)
    ensures Available(x) <==> Live(x)
  {
  }

  predicate TargetsAre(x: XPI, ts: seq<Target>) {
    |x.avail| == |ts| && forall i :: 0 <= i < |ts| ==> x.avail[i].0 == ts[i]
  }

  /** The file has the live symbol, with one of these linkages, on these targets. */
  predicate Lists(f: Interface, kind: Kind, name: string, ts: seq<Target>, linkages: set<Linkage>) {
    var k := SymbolKey(kind, name);
    k in f.symbols && Live(f.symbols[k]) && TargetsAre(f.symbols[k], ts) && f.symbols[k].linkage in linkages
  }

  function FlagsIn(f: Interface, name: string): SymbolFlags {
    var k := SymbolKey(GlobalSymbol, name);
    if k in f.symbols then f.symbols[k].flags else NO_FLAGS
  }

  /** The six lists of a section of a version 4 stub. */
  predicate TellsOf(s: Section<seq<Target>>, f: Interface, name: string, linkages: set<Linkage>) {
    var flags := FlagsIn(f, name);
    (name in s.symbols <==>
     Lists(f, GlobalSymbol, name, s.group, linkages) && !flags.weakDefined && !flags.threadLocal) &&
    (name in s.weakSymbols <==> Lists(f, GlobalSymbol, name, s.group, linkages) && flags.weakDefined) &&
    (name in s.tlvSymbols <==>
     Lists(f, GlobalSymbol, name, s.group, linkages) && !flags.weakDefined && flags.threadLocal) &&
    (name in s.classes <==> Lists(f, ObjectiveCClass, name, s.group, linkages)) &&
    (name in s.classEHs <==> Lists(f, ObjectiveCClassEHType, name, s.group, linkages)) &&
    (name in s.ivars <==> Lists(f, ObjectiveCInstanceVariable, name, s.group, linkages))
  }

  lemma TargetsListed(x: XPI, ts: seq<Target>)
    ensures AllTargets(x.avail) == ts <==> TargetsAre(x, ts)
  {
    var all := AllTargets(x.avail);
    if TargetsAre(x, ts) {
      assert forall i :: 0 <= i < |ts| ==> all[i] == ts[i];
    }
  }

  predicate Linked(linkage: Linkage, linkages: set<Linkage>) {
    (linkage == Exported && linkages == {Linkage.Unknown, Internal, Exported}) ||
    (linkage == Reexported && linkages == {Reexported}) ||
    (linkage == External && linkages == {External})
  }

  /** A symbol is written at a spot exactly when it is the one of that name. */
  lemma SpotTold(f: Interface, linkage: Linkage, linkages: set<Linkage>, k: SymbolKey, e: Spot<seq<Target>>)
    requires Linked(linkage, linkages)
    ensures var spots := SpotsOf(f.symbols, linkage);
            k in spots && spots[k] == e <==>
            Lists(f, k.kind, k.name, e.group, linkages) && BucketOf(k.kind, f.symbols[k].flags) == e.bucket &&
            k.name == e.text
  {
    hide Available, Live, TargetsAre, AllTargets, BucketOf;
    if k in f.symbols {
      AvailableIsLive(f.symbols[k]);
      TargetsListed(f.symbols[k], e.group);
      assert LinkageRead(f.symbols[k].linkage) == linkage <==> f.symbols[k].linkage in linkages;
    }
  }

  lemma ListTold(s: Section<seq<Target>>, f: Interface, linkage: Linkage, linkages: set<Linkage>, b: Bucket,
                 name: string)
    requires Linked(linkage, linkages) && Gathered(s, SpotsOf(f.symbols, linkage), s.group)
    ensures name in NamesIn(s, b) <==>
            exists kind :: Lists(f, kind, name, s.group, linkages) &&
              BucketOf(kind, f.symbols[SymbolKey(kind, name)].flags) == b
  {
    var spots, e := SpotsOf(f.symbols, linkage), Spot(s.group, b, name);
    GatheredName(s, spots, s.group, b, name);
    hide Gathered, SpotsOf, BucketOf, Live, TargetsAre, Linked;
    if k :| k in spots && spots[k] == e {
      SpotTold(f, linkage, linkages, k, e);
      assert k == SymbolKey(k.kind, name);
    }
    if kind :| Lists(f, kind, name, s.group, linkages) && BucketOf(kind, f.symbols[SymbolKey(kind, name)].flags) == b {
      SpotTold(f, linkage, linkages, SymbolKey(kind, name), e);
    }
  }

  lemma SectionTold(s: Section<seq<Target>>, f: Interface, linkage: Linkage, linkages: set<Linkage>, name: string)
    requires Linked(linkage, linkages) && Gathered(s, SpotsOf(f.symbols, linkage), s.group)
    ensures TellsOf(s, f, name, linkages)
  {
    hide Gathered, SpotsOf, Live, TargetsAre, Linked;
    ListTold(s, f, linkage, linkages, Plain, name);
    ListTold(s, f, linkage, linkages, Weak, name);
    ListTold(s, f, linkage, linkages, ThreadLocal, name);
    ListTold(s, f, linkage, linkages, Classes, name);
    ListTold(s, f, linkage, linkages, ClassEHs, name);
    ListTold(s, f, linkage, linkages, IVars, name);
  }

  lemma SectionsTold(ss: seq<Section<seq<Target>>>, f: Interface, linkage: Linkage, linkages: set<Linkage>,
                     name: string, kind: Kind)
    requires Linked(linkage, linkages) && WrittenSymbols(ss, SpotsOf(f.symbols, linkage))
    ensures forall j :: 0 <= j < |ss| ==> TellsOf(ss[j], f, name, linkages)
    ensures forall ts :: Lists(f, kind, name, ts, linkages) ==> exists j :: 0 <= j < |ss| && ss[j].group == ts
  {
    var spots := SpotsOf(f.symbols, linkage);
    forall j | 0 <= j < |ss| ensures TellsOf(ss[j], f, name, linkages) {
      assert WrittenFor(ss[j], spots, Groups(ss)[j]);
      hide SpotsOf, WrittenSymbols, Gathered, Linked, TellsOf;
      SectionTold(ss[j], f, linkage, linkages, name);
    }
    forall ts | Lists(f, kind, name, ts, linkages) ensures exists j :: 0 <= j < |ss| && ss[j].group == ts {
      var k := SymbolKey(kind, name);
      var e := Spot(ts, BucketOf(kind, f.symbols[k].flags), name);
      GroupsListed(ss, spots);
      hide SpotsOf, WrittenSymbols, BucketOf, Linked;
      SpotTold(f, linkage, linkages, k, e);
      assert spots[k].group in Groups(ss);
    }
  }

  /** A version 4 stub tells of exactly the live symbols: those of an exported, internal or
      unknown linkage among the exports, the reexported and the external ones apart, each
      under its bare name in the section of its targets. */
  lemma StubTells(f: Interface, t: TBDv4, name: string, kind: Kind)
    requires WrittenAs(f, t)
    ensures forall j :: 0 <= j < |t.exports| ==>
              TellsOf(t.exports[j], f, name, {Linkage.Unknown, Internal, Exported})
    ensures forall j :: 0 <= j < |t.reexports| ==> TellsOf(t.reexports[j], f, name, {Reexported})
    ensures forall j :: 0 <= j < |t.undefineds| ==> TellsOf(t.undefineds[j], f, name, {External})
    ensures forall ts :: Lists(f, kind, name, ts, {Linkage.Unknown, Internal, Exported}) ==>
              exists j :: 0 <= j < |t.exports| && t.exports[j].group == ts
    ensures forall ts :: Lists(f, kind, name, ts, {Reexported}) ==>
              exists j :: 0 <= j < |t.reexports| && t.reexports[j].group == ts
    ensures forall ts :: Lists(f, kind, name, ts, {External}) ==>
              exists j :: 0 <= j < |t.undefineds| && t.undefineds[j].group == ts
  {
    hide WrittenSymbols, SpotsOf, WrittenMetadata, TellsOf, Lists;
    SectionsTold(t.exports, f, Exported, {Linkage.Unknown, Internal, Exported}, name, kind);
    SectionsTold(t.reexports, f, Reexported, {Reexported}, name, kind);
    SectionsTold(t.undefineds, f, External, {External}, name, kind);
  }

  // ----- the older forms -----

  predicate CountsOn(x: XPI, a: Arch) {
    a != 14 && exists i :: 0 <= i < |x.avail| && x.avail[i].0.arch == a &&
                     !x.avail[i].1.unavailable && x.avail[i].1.obsoleted == 0
  }

  /** The known architectures with a target where the symbol is neither unavailable nor
      obsoleted. */
  predicate ArchsAre(x: XPI, archs: set<Arch>) {
    forall a :: a in archs <==> CountsOn(x, a)
  }

  predicate ListsOld(f: Interface, kind: Kind, name: string, archs: set<Arch>, undefined: bool) {
    var k := SymbolKey(kind, name);
    k in f.symbols && Live(f.symbols[k]) && ArchsAre(f.symbols[k], archs) &&
    (f.symbols[k].linkage == External) == undefined
  }

  predicate IsWeak(f: Interface, name: string, undefined: bool) {
    if undefined then FlagsIn(f, name).weakReferenced else FlagsIn(f, name).weakDefined
  }

  /** The lists of a section before version 3: a class or an instance variable behind an
      underscore, an exception type behind its prefix and among the plain symbols. */
  predicate TellsOld2(s: Section<set<Arch>>, f: Interface, text: string, undefined: bool) {
    (text in s.symbols <==>
     (ListsOld(f, GlobalSymbol, text, s.group, undefined) && !IsWeak(f, text, undefined) &&
      (undefined || !FlagsIn(f, text).threadLocal)) ||
     (|text| >= 15 && text[..15] == "_OBJC_EHTYPE_$_" &&
      ListsOld(f, ObjectiveCClassEHType, text[15..], s.group, undefined))) &&
    (text in s.classes <==>
     |text| >= 1 && text[0] == '_' && ListsOld(f, ObjectiveCClass, text[1..], s.group, undefined)) &&
    (text in s.ivars <==>
     |text| >= 1 && text[0] == '_' && ListsOld(f, ObjectiveCInstanceVariable, text[1..], s.group, undefined)) &&
    text !in s.classEHs
  }

  /** From version 3 on: bare names, each kind in its list. */
  predicate TellsOld3(s: Section<set<Arch>>, f: Interface, text: string, undefined: bool) {
    (text in s.symbols <==>
     ListsOld(f, GlobalSymbol, text, s.group, undefined) && !IsWeak(f, text, undefined) &&
     (undefined || !FlagsIn(f, text).threadLocal)) &&
    (text in s.classes <==> ListsOld(f, ObjectiveCClass, text, s.group, undefined)) &&
    (text in s.ivars <==> ListsOld(f, ObjectiveCInstanceVariable, text, s.group, undefined)) &&
    (text in s.classEHs <==> ListsOld(f, ObjectiveCClassEHType, text, s.group, undefined))
  }

  /** Weak and thread-local symbols are listed as they are in all versions. */
  predicate TellsOld(s: Section<set<Arch>>, f: Interface, text: string, undefined: bool, version: nat) {
    (text in s.weakSymbols <==>
     ListsOld(f, GlobalSymbol, text, s.group, undefined) && IsWeak(f, text, undefined)) &&
    (text in s.tlvSymbols <==>
     ListsOld(f, GlobalSymbol, text, s.group, undefined) && !IsWeak(f, text, undefined) &&
     !undefined && FlagsIn(f, text).threadLocal) &&
    if version < 3 then TellsOld2(s, f, text, undefined) else TellsOld3(s, f, text, undefined)
  }

  lemma ArchsListed(x: XPI, archs: set<Arch>)
    requires DistinctKeys(x.avail)
    ensures UsableArchs(SymbolOf(x)) == archs <==> ArchsAre(x, archs)
  {
    UsableListed(x);
    hide UsableArchs, SymbolOf;
    forall a ensures a in UsableArchs(SymbolOf(x)) <==> CountsOn(x, a) {
    }
  }

  /** The list and the text in it, as far as they depend on kind, flags and version. */
  predicate Goes(k: SymbolKey, flags: SymbolFlags, undefined: bool, version: nat, b: Bucket, text: string) {
    var weak := if undefined then flags.weakReferenced else flags.weakDefined;
    match k.kind
    case GlobalSymbol =>
      text == k.name && b == if weak then Weak else if !undefined && flags.threadLocal then ThreadLocal else Plain
    case ObjectiveCClass =>
      b == Classes && if version < 3 then text != "" && text[0] == '_' && text[1..] == k.name else text == k.name
    case ObjectiveCInstanceVariable =>
      b == IVars && if version < 3 then text != "" && text[0] == '_' && text[1..] == k.name else text == k.name
    case ObjectiveCClassEHType =>
      if version < 3 then b == Plain && |text| >= 15 && text[..15] == "_OBJC_EHTYPE_$_" && text[15..] == k.name
      else b == ClassEHs && text == k.name
  }

  lemma Prefixed(prefix: string, name: string, text: string)
    ensures prefix + name == text <==>
            |text| >= |prefix| && text[..|prefix|] == prefix && text[|prefix|..] == name
  {
    assert (prefix + name)[..|prefix|] == prefix && (prefix + name)[|prefix|..] == name;
    if |text| >= |prefix| && text[..|prefix|] == prefix && text[|prefix|..] == name {
      assert text == text[..|prefix|] + text[|prefix|..];
    }
  }

  lemma Underscored(name: string, text: string)
    ensures "_" + name == text <==> text != "" && text[0] == '_' && text[1..] == name
  {
    Prefixed("_", name, text);
    assert text != "" ==> text[..1] == [text[0]];
  }

  lemma PlacedGoes(k: SymbolKey, flags: SymbolFlags, undefined: bool, version: nat, b: Bucket, text: string)
    ensures Placed(k.kind, k.name, if undefined then flags.weakReferenced else flags.weakDefined,
                   !undefined && flags.threadLocal, version) == (b, text) <==>
            Goes(k, flags, undefined, version, b, text)
  {
    Underscored(k.name, text);
    assert |EH_PREFIX| == 15;
    Prefixed(EH_PREFIX, k.name, text);
  }

  lemma SpotToldOld(f: Interface, undefined: bool, version: nat, k: SymbolKey, e: Spot<set<Arch>>)
    requires ListedOnce(f.symbols)
    ensures var spots := SpotsOld(f.symbols, undefined, version);
            k in spots && spots[k] == e <==>
            ListsOld(f, k.kind, k.name, e.group, undefined) &&
            Goes(k, f.symbols[k].flags, undefined, version, e.bucket, e.text)
  {
    hide Available, Live, ArchsAre, DistinctKeys, Goes, Placed, UsableArchs, SymbolOf;
    assert k in SpotsOld(f.symbols, undefined, version) ==> k in f.symbols;
    hide SpotsOld;
    if k in f.symbols {
      SpotOfSymbol(f.symbols, undefined, version, k);
      AvailableIsLive(f.symbols[k]);
      ArchsListed(f.symbols[k], e.group);
      PlacedGoes(k, f.symbols[k].flags, f.symbols[k].linkage == External, version, e.bucket, e.text);
    }
  }

  lemma ListToldOld(s: Section<set<Arch>>, f: Interface, undefined: bool, version: nat, b: Bucket, text: string)
    requires ListedOnce(f.symbols) && Gathered(s, SpotsOld(f.symbols, undefined, version), s.group)
    ensures text in NamesIn(s, b) <==>
            exists k: SymbolKey ::
              ListsOld(f, k.kind, k.name, s.group, undefined) &&
              Goes(k, f.symbols[k].flags, undefined, version, b, text)
  {
    var spots, e := SpotsOld(f.symbols, undefined, version), Spot(s.group, b, text);
    GatheredName(s, spots, s.group, b, text);
    hide Gathered, SpotsOld, Goes, Live, ArchsAre, ListedOnce;
    if k :| k in spots && spots[k] == e {
      SpotToldOld(f, undefined, version, k, e);
    }
    if k: SymbolKey :| ListsOld(f, k.kind, k.name, s.group, undefined) &&
                       Goes(k, f.symbols[k].flags, undefined, version, b, text)
    {
      SpotToldOld(f, undefined, version, k, e);
    }
  }

  /** Only this symbol can be in the list under this text. */
  lemma OneListed(s: Section<set<Arch>>, f: Interface, undefined: bool, version: nat, b: Bucket, text: string,
                  k: SymbolKey)
    requires ListedOnce(f.symbols) && Gathered(s, SpotsOld(f.symbols, undefined, version), s.group)
    requires forall flags, j :: Goes(j, flags, undefined, version, b, text) ==> j == k
    ensures text in NamesIn(s, b) <==>
            ListsOld(f, k.kind, k.name, s.group, undefined) &&
            Goes(k, f.symbols[k].flags, undefined, version, b, text)
  {
    hide Gathered, SpotsOld, Goes, Live, ArchsAre, ListedOnce;
    ListToldOld(s, f, undefined, version, b, text);
  }

  lemma NothingListed(s: Section<set<Arch>>, f: Interface, undefined: bool, version: nat, b: Bucket, text: string)
    requires ListedOnce(f.symbols) && Gathered(s, SpotsOld(f.symbols, undefined, version), s.group)
    requires forall flags, j :: !Goes(j, flags, undefined, version, b, text)
    ensures text !in NamesIn(s, b)
  {
    hide Gathered, SpotsOld, Goes, Live, ArchsAre, ListedOnce;
    ListToldOld(s, f, undefined, version, b, text);
  }

  lemma GlobalsTold(s: Section<set<Arch>>, f: Interface, undefined: bool, version: nat, text: string)
    requires ListedOnce(f.symbols) && Gathered(s, SpotsOld(f.symbols, undefined, version), s.group)
    ensures text in s.weakSymbols <==>
            ListsOld(f, GlobalSymbol, text, s.group, undefined) && IsWeak(f, text, undefined)
    ensures text in s.tlvSymbols <==>
            ListsOld(f, GlobalSymbol, text, s.group, undefined) && !IsWeak(f, text, undefined) &&
            !undefined && FlagsIn(f, text).threadLocal
  {
    hide Gathered, SpotsOld, Live, ArchsAre, ListedOnce;
    OneListed(s, f, undefined, version, Weak, text, SymbolKey(GlobalSymbol, text));
    OneListed(s, f, undefined, version, ThreadLocal, text, SymbolKey(GlobalSymbol, text));
  }

  lemma PlainGoes(k: SymbolKey, flags: SymbolFlags, undefined: bool, version: nat, text: string)
    ensures Goes(k, flags, undefined, version, Plain, text) <==>
            (k == SymbolKey(GlobalSymbol, text) && !(if undefined then flags.weakReferenced else flags.weakDefined) &&
             (undefined || !flags.threadLocal)) ||
            (version < 3 && |text| >= 15 && text[..15] == "_OBJC_EHTYPE_$_" &&
             k == SymbolKey(ObjectiveCClassEHType, text[15..]))
  {
  }

  lemma PlainTold(s: Section<set<Arch>>, f: Interface, undefined: bool, version: nat, text: string)
    requires ListedOnce(f.symbols) && Gathered(s, SpotsOld(f.symbols, undefined, version), s.group)
    ensures text in s.symbols <==>
            (ListsOld(f, GlobalSymbol, text, s.group, undefined) && !IsWeak(f, text, undefined) &&
             (undefined || !FlagsIn(f, text).threadLocal)) ||
            (version < 3 && |text| >= 15 && text[..15] == "_OBJC_EHTYPE_$_" &&
             ListsOld(f, ObjectiveCClassEHType, text[15..], s.group, undefined))
  {
    hide Gathered, SpotsOld, Live, ArchsAre, ListedOnce, Goes;
    ListToldOld(s, f, undefined, version, Plain, text);
    forall k: SymbolKey, flags
      ensures Goes(k, flags, undefined, version, Plain, text) <==>
              (k == SymbolKey(GlobalSymbol, text) && !(if undefined then flags.weakReferenced else flags.weakDefined) &&
               (undefined || !flags.threadLocal)) ||
              (version < 3 && |text| >= 15 && text[..15] == "_OBJC_EHTYPE_$_" &&
               k == SymbolKey(ObjectiveCClassEHType, text[15..]))
    {
      PlainGoes(k, flags, undefined, version, text);
    }
    hide ListsOld;
  }

  lemma BareTold(s: Section<set<Arch>>, f: Interface, undefined: bool, version: nat, text: string)
    requires ListedOnce(f.symbols) && Gathered(s, SpotsOld(f.symbols, undefined, version), s.group) && version >= 3
    ensures TellsOld3(s, f, text, undefined)
  {
    PlainTold(s, f, undefined, version, text);
    hide Gathered, SpotsOld, ListsOld, ListedOnce;
    OneListed(s, f, undefined, version, Classes, text, SymbolKey(ObjectiveCClass, text));
    OneListed(s, f, undefined, version, IVars, text, SymbolKey(ObjectiveCInstanceVariable, text));
    OneListed(s, f, undefined, version, ClassEHs, text, SymbolKey(ObjectiveCClassEHType, text));
  }

  lemma MangledTold(s: Section<set<Arch>>, f: Interface, undefined: bool, version: nat, text: string)
    requires ListedOnce(f.symbols) && Gathered(s, SpotsOld(f.symbols, undefined, version), s.group) && version < 3
    ensures TellsOld2(s, f, text, undefined)
  {
    PlainTold(s, f, undefined, version, text);
    hide Gathered, SpotsOld, ListsOld, ListedOnce;
    NothingListed(s, f, undefined, version, ClassEHs, text);
    if text != "" && text[0] == '_' {
      OneListed(s, f, undefined, version, Classes, text, SymbolKey(ObjectiveCClass, text[1..]));
      OneListed(s, f, undefined, version, IVars, text, SymbolKey(ObjectiveCInstanceVariable, text[1..]));
    } else {
      NothingListed(s, f, undefined, version, Classes, text);
      NothingListed(s, f, undefined, version, IVars, text);
    }
  }

  lemma OldSectionTold(s: Section<set<Arch>>, f: Interface, undefined: bool, version: nat, text: string)
    requires ListedOnce(f.symbols) && Gathered(s, SpotsOld(f.symbols, undefined, version), s.group)
    ensures TellsOld(s, f, text, undefined, version)
  {
    GlobalsTold(s, f, undefined, version, text);
    hide Gathered, SpotsOld, ListsOld, ListedOnce, TellsOld2, TellsOld3;
    if version < 3 { MangledTold(s, f, undefined, version, text); } else { BareTold(s, f, undefined, version, text); }
  }

  /** The text under which a section lists a symbol. */
  predicate Carries(s: Section<set<Arch>>, kind: Kind, name: string, version: nat) {
    match kind
    case GlobalSymbol => name in s.symbols || name in s.weakSymbols || name in s.tlvSymbols
    case ObjectiveCClass => (if version < 3 then "_" + name else name) in s.classes
    case ObjectiveCInstanceVariable => (if version < 3 then "_" + name else name) in s.ivars
    case ObjectiveCClassEHType => if version < 3 then "_OBJC_EHTYPE_$_" + name in s.symbols else name in s.classEHs
  }

  lemma ListedIsCarried(s: Section<set<Arch>>, f: Interface, kind: Kind, name: string, undefined: bool, version: nat)
    requires ListedOnce(f.symbols) && Gathered(s, SpotsOld(f.symbols, undefined, version), s.group)
    requires ListsOld(f, kind, name, s.group, undefined)
    ensures Carries(s, kind, name, version)
  {
    hide Gathered, SpotsOld, ListsOld, ListedOnce;
    OldSectionTold(s, f, undefined, version, name);
    if version < 3 {
      OldSectionTold(s, f, undefined, version, "_" + name);
      OldSectionTold(s, f, undefined, version, EH_PREFIX + name);
      EHPrefix(name);
      assert ("_" + name)[1..] == name;
    }
  }

  ghost predicate FromSpots(ss: seq<Section<set<Arch>>>, f: Interface, undefined: bool, version: nat) {
    var spots := SpotsOld(f.symbols, undefined, version);
    GroupsOf(spots) <= Members(Groups(ss)) && Written(ss, spots, Groups(ss))
  }

  lemma OldSectionsTold(ss: seq<Section<set<Arch>>>, f: Interface, undefined: bool, version: nat, text: string,
                        kind: Kind, name: string)
    requires ListedOnce(f.symbols) && FromSpots(ss, f, undefined, version)
    ensures forall j :: 0 <= j < |ss| ==> TellsOld(ss[j], f, text, undefined, version)
    ensures forall archs :: ListsOld(f, kind, name, archs, undefined) ==>
              exists j :: 0 <= j < |ss| && ss[j].group == archs && Carries(ss[j], kind, name, version)
  {
    var spots := SpotsOld(f.symbols, undefined, version);
    forall j | 0 <= j < |ss| ensures Gathered(ss[j], spots, ss[j].group) {
      assert WrittenFor(ss[j], spots, Groups(ss)[j]);
    }
    forall j | 0 <= j < |ss| ensures TellsOld(ss[j], f, text, undefined, version) {
      hide Gathered, SpotsOld, FromSpots, ListedOnce, TellsOld;
      OldSectionTold(ss[j], f, undefined, version, text);
    }
    forall archs | ListsOld(f, kind, name, archs, undefined)
      ensures exists j :: 0 <= j < |ss| && ss[j].group == archs && Carries(ss[j], kind, name, version)
    {
      var k := SymbolKey(kind, name);
      var spot := SpotOld(k, f.symbols[k], version);
      var e := Spot(archs, spot.bucket, spot.text);
      PlacedGoes(k, f.symbols[k].flags, undefined, version, spot.bucket, spot.text);
      hide Gathered, Goes, Carries, ListedOnce, SpotsOld, SpotOld, Live, ArchsAre;
      SpotToldOld(f, undefined, version, k, e);
      assert archs in GroupsOf(spots);
      assert archs in Members(Groups(ss));
      var j :| 0 <= j < |ss| && Groups(ss)[j] == archs;
      ListedIsCarried(ss[j], f, kind, name, undefined, version);
    }
  }

  /** An older stub tells of exactly the live symbols, the external ones among the
      undefineds, in the section of their architectures. */
  lemma OldStubTells(f: Interface, t: TBD, version: nat, text: string, kind: Kind, name: string)
    requires Flat(f) && WrittenOld(f, t, version)
    ensures forall j :: 0 <= j < |t.exports| ==> TellsOld(t.exports[j].names, f, text, false, version)
    ensures forall j :: 0 <= j < |t.undefineds| ==> TellsOld(t.undefineds[j], f, text, true, version)
    ensures forall archs :: ListsOld(f, kind, name, archs, false) ==>
              exists j :: 0 <= j < |t.exports| && t.exports[j].names.group == archs &&
                          Carries(t.exports[j].names, kind, name, version)
    ensures forall archs :: ListsOld(f, kind, name, archs, true) ==>
              exists j :: 0 <= j < |t.undefineds| && t.undefineds[j].group == archs &&
                          Carries(t.undefineds[j], kind, name, version)
  {
    var ss := NameSections(t.exports);
    assert ListedOnce(f.symbols);
    assert FromSpots(ss, f, false, version);
    assert FromSpots(t.undefineds, f, true, version);
    hide Flat, WrittenOld, FromSpots, ListsOld, TellsOld, Carries;
    OldSectionsTold(ss, f, false, version, text, kind, name);
    OldSectionsTold(t.undefineds, f, true, version, text, kind, name);
    forall j | 0 <= j < |t.exports| ensures TellsOld(t.exports[j].names, f, text, false, version) {
      assert TellsOld(ss[j], f, text, false, version);
    }
    forall archs | ListsOld(f, kind, name, archs, false)
      ensures exists j :: 0 <= j < |t.exports| && t.exports[j].names.group == archs &&
                          Carries(t.exports[j].names, kind, name, version)
    {
      var j :| 0 <= j < |ss| && ss[j].group == archs && Carries(ss[j], kind, name, version);
      assert ss[j] == t.exports[j].names;
    }
  }

  ghost predicate GroupIs(ts: seq<Target>, group: set<Arch>) {
    forall a :: a in group <==> a != 14 && exists i :: 0 <= i < |ts| && ts[i].arch == a
  }

  /** The file has a library of that name on targets of exactly these architectures. */
  ghost predicate HasLibrary(refs: seq<Ref>, name: string, group: set<Arch>) {
    exists i :: 0 <= i < |refs| && refs[i].installName == name && GroupIs(refs[i].targets, group)
  }

  lemma {:induction false} NamesTold(refs: seq<Ref>, name: string, group: set<Arch>)
    ensures name in NamesFor(refs, group) <==> HasLibrary(refs, name, group)
  {
    if refs != [] {
      var n := |refs| - 1;
      NamesTold(refs[..n], name, group);
      GroupTold(refs[n], group);
      hide GroupIs, ArchsOn;
      assert forall i :: 0 <= i < n ==> refs[..n][i] == refs[i];
    }
  }

  lemma GroupTold(r: Ref, group: set<Arch>)
    ensures ArchsOn(r) == group <==> GroupIs(r.targets, group)
  {
    forall a ensures a in ArchsOn(r) <==> a != 14 && exists i :: 0 <= i < |r.targets| && r.targets[i].arch == a {
      if a != 14 {
        if i :| 0 <= i < |r.targets| && r.targets[i].arch == a {
          assert r.targets[i] in Members(r.targets);
        }
      }
    }
    hide ArchsOn;
  }

  /** The other fields of an older stub. */
  lemma OldFieldsTold(f: Interface, t: TBD, version: nat, j: nat, name: string, p: nat)
    requires WrittenOld(f, t, version)
    ensures j < |t.exports| ==>
              (name in t.exports[j].allowableClients <==> HasLibrary(f.clients, name, t.exports[j].names.group)) &&
              (name in t.exports[j].reexportedLibraries <==> HasLibrary(f.reexports, name, t.exports[j].names.group))
    ensures GroupIs(f.targets, t.architectures)
    ensures p in t.platforms <==> exists i :: 0 <= i < |f.targets| && f.targets[i].platform == p
  {
    hide UndefinedsWritten, Written, Ascending, NamesFor, HasLibrary, GroupIs;
    if j < |t.exports| {
      NamesTold(f.clients, name, t.exports[j].names.group);
      NamesTold(f.reexports, name, t.exports[j].names.group);
    }
    GroupTold(Ref("", f.targets), t.architectures);
  }

  // ----- a symbol that is nowhere available -----

  lemma NoGroups<G(!new)>(ss: seq<Section<G>>)
    ensures ss != [] ==> Members(Groups(ss)) != {}
  {
    if ss != [] {
      assert Groups(ss)[0] in Members(Groups(ss));
    }
  }

  lemma NoSpots(k: SymbolKey, x: XPI, linkage: Linkage, undefined: bool, version: nat)
    requires !Live(x)
    ensures GroupsOf(SpotsOf(map[k := x], linkage)) == {}
    ensures GroupsOf(SpotsOld(map[k := x], undefined, version)) == {}
  {
    AvailableIsLive(x);
    hide Live, Available, SpotOf, SpotOld;
  }

  /** A file whose one symbol is unavailable or obsoleted on each of its targets is
      written without any symbol in all forms. */
  lemma DeadIsNotWritten(k: SymbolKey, x: XPI, t: TBDv4, u: TBD, version: nat)
    requires forall i :: 0 <= i < |x.avail| ==> x.avail[i].1.unavailable || x.avail[i].1.obsoleted != 0
    requires WrittenAs(OneSymbol(k, x), t) && WrittenOld(OneSymbol(k, x), u, version)
    ensures t.exports == [] && t.reexports == [] && t.undefineds == [] && u.exports == [] && u.undefineds == []
  {
    assert !Live(x);
    hide SpotsOf, SpotsOld, GroupsOf, Written, Ascending, Live, WrittenMetadata;
    NoSpots(k, x, Exported, false, version);
    NoSpots(k, x, Reexported, true, version);
    NoSpots(k, x, External, true, version);
    NoGroups(t.exports);
    NoGroups(t.reexports);
    NoGroups(t.undefineds);
    NoGroups(NameSections(u.exports));
    NoGroups(u.undefineds);
  }

  // ----- the platforms and the umbrella of an older stub -----

  /** By number: platforms 2, 3 and 4 have the simulators 7, 8 and 9. */
  predicate MeansPlatform(platforms: set<nat>, intel: bool, p: nat) {
    if intel then
      (p in platforms && p != 2 && p != 3 && p != 4) || (p == 7 && 2 in platforms) || (p == 8 && 3 in platforms) ||
      (p == 9 && 4 in platforms)
    else p in platforms
  }

  lemma SimulatorsMeant(platforms: set<nat>, intel: bool, p: nat)
    ensures (exists q :: q in platforms && p == MapToSim(q, intel)) <==> MeansPlatform(platforms, intel, p)
  {
    forall q ensures p == MapToSim(q, intel) <==>
      if intel then (p == q && p != 2 && p != 3 && p != 4) || (p == 7 && q == 2) || (p == 8 && q == 3) ||
        (p == 9 && q == 4)
      else p == q
    {
    }
    assert p == MapToSim(p, intel) || (intel && 2 <= p <= 4);
    assert 7 == MapToSim(2, true) && 8 == MapToSim(3, true) && 9 == MapToSim(4, true);
    hide MapToSim;
  }

  /** Which targets a reader makes up, by number: on an Intel architecture iOS, tvOS and
      watchOS stand for their simulators. */
  lemma MadeUpTargets(archs: set<Arch>, platforms: set<nat>, t: Target)
    requires forall p :: p in platforms ==> p < 256
    ensures t in Synthesized(archs, platforms) <==>
            t.arch in archs && t.arch != 14 && !(t.arch == 0 && t.platform == 6) &&
            MeansPlatform(platforms, 0 in archs || 1 in archs || 2 in archs, t.platform)
  {
    SynthesizedTargets(archs, platforms, t);
    SimulatorsMeant(platforms, HasX86(archs), t.platform);
    hide Synthesized, MapToSim;
  }

  /** The one umbrella that is written is that of the least target that has one: by
      architecture, then by platform. */
  lemma LeastUmbrella(f: Interface, t: TBD, version: nat, i: nat)
    requires Flat(f) && WrittenOld(f, t, version) && i < |f.umbrellas|
    requires forall j :: 0 <= j < |f.umbrellas| ==>
               var s, u := f.umbrellas[i].0, f.umbrellas[j].0;
               s.arch < u.arch || (s.arch == u.arch && s.platform <= u.platform)
    ensures t.parentUmbrella == f.umbrellas[i].1 && t.parentUmbrella != ""
  {
    hide ExportsWritten, UndefinedsWritten;
    assert f.umbrellas[i].1 != "";
    assert i == 0 || TargetLess(f.umbrellas[0].0, f.umbrellas[i].0);
    assert i == 0;
  }

  // ----- the platform word -----

  /** What one platform, by number, is called; Catalyst has no name before version 3. */
  function Called(p: nat, version: nat): Option<string> {
    if p == 1 then Some("macosx")
    else if p == 2 || p == 7 then Some("ios")
    else if p == 3 || p == 8 then Some("tvos")
    else if p == 4 || p == 9 then Some("watchos")
    else if p == 6 then if version >= 3 then Some("iosmac") else None
    else Some("unknown")
  }

  /** The word of a file is what its least platform is called, unless it is for macOS and
      Catalyst together. */
  lemma WordOfLeast(platforms: set<nat>, version: nat, least: nat)
    requires least in platforms && forall p :: p in platforms ==> least <= p
    ensures !(1 in platforms && 6 in platforms) ==> PlatformWord(platforms, version) == Called(least, version)
    ensures 1 in platforms && 6 in platforms ==>
              PlatformWord(platforms, version) == if version >= 3 then Some("zippered") else None
  {
  }

  /** A reader takes each name for its platform, both names of Catalyst, and a word it does
      not know for the unknown platform. */
  lemma WordsRead(p: nat, word: string, version: nat)
    ensures p == 1 || p == 2 || p == 3 || p == 4 || p == 6 ==>
              Called(p, version).Some? ==> ReadPlatformWord(Called(p, version).value, version) == Some({p})
    ensures ReadPlatformWord("zippered", version) == if version >= 3 then Some({1, 6}) else None
    ensures ReadPlatformWord("iosmac", version) == ReadPlatformWord("maccatalyst", version)
         == if version >= 3 then Some({6}) else None
    ensures word !in {"zippered", "macosx", "ios", "tvos", "watchos", "iosmac", "maccatalyst"} ==>
              ReadPlatformWord(word, version) == Some({0})
  {
  }
}

/** The interface file under construction, and the operations that build one
    file from others. */
module InterfaceOperations {
  import opened InterfaceAlgebra
  import opened SortedVectors
  import opened InterfaceFiles
  import opened SymbolSets
  import opened InterfaceTheorems

  class InterfaceFile {
    var header: Header
    var fileType: Version
    var path: string
    var swiftVersion: nat
    var targets: seq<Target>
    var umbrellas: seq<(Target, string)>
    var clients: seq<Ref>
    var reexports: seq<Ref>
    var uuids: seq<(Target, string)>
    var documents: seq<Interface>
    const symbols: XPISet

    constructor ()
      ensures Value() == Interface(Header("", 0, 0, false, false, false), Version(0, 0), "", 0, [], [], [], [], [],
              map[], [])
      ensures fresh(symbols)
    {
      header, fileType, path, swiftVersion := Header("", 0, 0, false, false, false), Version(0, 0), "", 0;
      targets, umbrellas, clients, reexports, uuids, documents := [], [], [], [], [], [];
      symbols := new XPISet();
    }

    function Value(): Interface reads this, symbols {
      Interface(header, fileType, path, swiftVersion, targets, umbrellas, clients, reexports, uuids, symbols.table,
        documents)
    }

    // ----- single additions -----

    method AddTarget(target: Target)
      requires SortedTargets(targets)
      modifies `targets
      ensures SortedTargets(targets) && Members(targets) == old(Members(targets)) + {target}
    {
      targets := AddTargetEntry(targets, target);
    }

    method AddParentUmbrella(target: Target, umbrella: string)
      requires SortedUmbrellas(umbrellas)
      modifies `umbrellas
      ensures SortedUmbrellas(umbrellas)
      ensures AsMap(umbrellas)
           == if umbrella == "" then old(AsMap(umbrellas)) else old(AsMap(umbrellas))[target := umbrella]
    {
      umbrellas := SetUmbrella(umbrellas, target, umbrella);
    }

    method AddAllowableClient(installName: string, target: Target)
      requires SortedRefs(clients)
      modifies `clients
      ensures SortedRefs(clients) && Links(clients) == old(Links(clients)) + {(installName, target)}
    {
      clients := AddLink(clients, installName, target);
    }

    method AddReexportedLibrary(installName: string, target: Target)
      requires SortedRefs(reexports)
      modifies `reexports
      ensures SortedRefs(reexports) && Links(reexports) == old(Links(reexports)) + {(installName, target)}
    {
      reexports := AddLink(reexports, installName, target);
    }

    method AddUUID(target: Target, uuid: string)
      requires SortedPairs(uuids)
      modifies `uuids
      ensures SortedPairs(uuids) && AsMap(uuids) == old(AsMap(uuids))[target := uuid]
    {
      uuids := SetEntry(uuids, target, uuid);
    }

    /** The framework's own documents come up first, then the framework itself. */
    method InlineFramework(framework: Interface)
      requires SortedNames(DocumentNames(documents))
      modifies `documents
      ensures SortedNames(DocumentNames(documents))
      ensures AsMap(ByName(documents))
           == AllFirstWins(old(AsMap(ByName(documents))), framework.documents + [framework.(documents := [])])
    {
      ghost var was, all := AsMap(ByName(documents)), framework.documents + [framework.(documents := [])];
      for i := 0 to |framework.documents|
        invariant SortedNames(DocumentNames(documents))
        invariant AsMap(ByName(documents)) == AllFirstWins(was, framework.documents[..i])
      {
        hide SortedNames, DocumentNames, AsMap, ByName, FirstWins;
        assert framework.documents[..i + 1][..i] == framework.documents[..i];
        documents := AddFramework(documents, framework.documents[i]);
      }
      assert framework.documents[..|framework.documents|] == framework.documents == all[..|all| - 1];
      documents := AddFramework(documents, framework.(documents := []));
    }

    /** Records the fields that each operation copies over. */
    method CopyScalars(f: Interface, newest: Version, swift: nat)
      modifies `header, `fileType, `path, `swiftVersion
      ensures header == f.header && fileType == newest && path == f.path && swiftVersion == swift
    {
      header, fileType, path, swiftVersion := f.header, newest, f.path, swift;
    }

    // ----- taking over a file's vectors, one slice of it -----

    /** Every vector of `f`, restricted to the architectures to keep; the
        umbrellas are taken over whatever their architecture. */
    method TakeOver(f: Interface, keep: Arch -> bool)
      requires Flat(f) && SortedTargets(targets) && SortedUmbrellas(umbrellas) && SortedRefs(clients) &&
               SortedRefs(reexports) && SortedPairs(uuids)
      modifies `targets, `umbrellas, `clients, `reexports, `uuids
      ensures SortedTargets(targets) && SortedUmbrellas(umbrellas) && SortedRefs(clients) && SortedRefs(reexports) &&
              SortedPairs(uuids)
      ensures Members(targets) == old(Members(targets)) + KeptTargets(Members(f.targets), keep)
      ensures AsMap(umbrellas) == old(AsMap(umbrellas)) + AsMap(f.umbrellas)
      ensures Links(clients) == old(Links(clients)) + KeptLinks(Links(f.clients), keep)
      ensures Links(reexports) == old(Links(reexports)) + KeptLinks(Links(f.reexports), keep)
      ensures AsMap(uuids) == old(AsMap(uuids)) + KeptPairs(AsMap(f.uuids), keep)
    {
      hide SortedTargets, SortedUmbrellas, SortedRefs, SortedPairs, Members;
      hide AsMap, Links, KeptTargets, KeptLinks, KeptPairs;
      targets := AddTargetRange(targets, f.targets, keep);
      umbrellas := SetUmbrellaRange(umbrellas, f.umbrellas);
      clients := AddLinkRange(clients, f.clients, keep);
      reexports := AddLinkRange(reexports, f.reexports, keep);
      uuids := SetRange(uuids, f.uuids, keep);
    }
  }

  // ----- results -----

  function Outcome(r: Result<Interface>): Result<File> {
    match r
    case Ok(f) => Ok(Content(f))
    case Err(e) => Err(e)
  }

  /** getArchitectures */
  method ArchitecturesOf(ts: seq<Target>) returns (archs: set<Arch>)
    ensures archs == ArchsOf(Members(ts))
  {
    archs := {};
    for i := 0 to |ts|
      invariant archs == ArchsOf(Members(ts[..i]))
    {
      assert Members(ts[..i + 1]) == Members(ts[..i]) + {ts[i]};
      if ts[i].arch != AK_UNKNOWN {
        archs := archs + {ts[i].arch};
      }
    }
    assert ts[..|ts|] == ts;
  }

  lemma EmptyIsFlat()
    ensures SortedTargets([]) && SortedUmbrellas([]) && SortedRefs([]) && SortedPairs<string>([])
    ensures ListedOnce(map[]) && AllRenewed(map[])
    ensures Members<Target>([]) == {} && Links([]) == {} && AsMap<Target, string>([]) == map[] &&
            SymbolsOf(map[]) == map[]
  {
  }

  /** The slice of one architecture, without documents. */
  method ExtractSlice(f: Interface, a: Arch) returns (built: InterfaceFile)
    requires Flat(f)
    ensures fresh(built) && fresh(built.symbols) && built.documents == [] && Flat(built.Value())
    ensures Content(built.Value()) == ExtractTop(Content(f), a)
  {
    built := new InterfaceFile();
    EmptyIsFlat();
    hide SortedTargets, SortedUmbrellas, SortedRefs, SortedPairs, Members, AsMap, Links, ListedOnce, SymbolsOf;
    hide KeptTargets, KeptLinks, KeptPairs, ExtractSymbols, Content, ExtractTop;
    built.CopyScalars(f, f.fileType, f.swiftVersion);
    built.TakeOver(f, arch => arch == a);
    CopyExtracted(built.symbols, f.symbols, a);
    ExtractSliceContent(f, a, built.Value(), arch => arch == a);
  }

  predicate TakenOver(f: Interface, keep: Arch -> bool, g: Interface) {
    g.header == f.header && g.fileType == f.fileType && g.path == f.path && g.swiftVersion == f.swiftVersion &&
    Members(g.targets) == KeptTargets(Members(f.targets), keep) && AsMap(g.umbrellas) == AsMap(f.umbrellas) &&
    Links(g.clients) == KeptLinks(Links(f.clients), keep) &&
      Links(g.reexports) == KeptLinks(Links(f.reexports), keep) &&
    AsMap(g.uuids) == KeptPairs(AsMap(f.uuids), keep) && g.documents == []
  }

  lemma ExtractSliceContent(f: Interface, a: Arch, g: Interface, keep: Arch -> bool)
    requires TakenOver(f, keep, g) && forall arch :: keep(arch) <==> arch == a
    requires SymbolsOf(g.symbols) == ExtractSymbols(SymbolsOf(f.symbols), a)
    ensures Content(g) == ExtractTop(Content(f), a)
  {
    hide SymbolsOf, ExtractSymbols, AsMap, Links, Members;
  }

  /** What is left without one architecture, without documents. */
  method RemoveSlice(f: Interface, a: Arch) returns (built: InterfaceFile)
    requires Flat(f)
    ensures fresh(built) && fresh(built.symbols) && built.documents == [] && Flat(built.Value())
    ensures Content(built.Value()) == RemoveTop(Content(f), a)
  {
    built := new InterfaceFile();
    EmptyIsFlat();
    hide SortedTargets, SortedUmbrellas, SortedRefs, SortedPairs, Members, AsMap, Links, ListedOnce, SymbolsOf;
    hide KeptTargets, KeptLinks, KeptPairs, RemoveSymbols, Content, RemoveTop;
    built.CopyScalars(f, f.fileType, f.swiftVersion);
    built.TakeOver(f, arch => arch != a);
    CopyRemaining(built.symbols, f.symbols, a);
    RemoveSliceContent(f, a, built.Value(), arch => arch != a);
  }

  lemma RemoveSliceContent(f: Interface, a: Arch, g: Interface, keep: Arch -> bool)
    requires TakenOver(f, keep, g) && forall arch :: keep(arch) <==> arch != a
    requires SymbolsOf(g.symbols) == RemoveSymbols(SymbolsOf(f.symbols), a)
    ensures Content(g) == RemoveTop(Content(f), a)
  {
    hide SymbolsOf, RemoveSymbols, AsMap, Links, Members;
  }

  // ----- the documents -----

  /** The documents already built, in front of those still to come. */
  function Before(done: seq<Interface>, rest: Result<seq<File>>): Result<seq<File>> {
    match rest
    case Ok(fs) => Ok(Contents(done) + fs)
    case Err(e) => Err(e)
  }

  lemma BeforeAppend(done: seq<Interface>, f: Interface, rest: Result<seq<File>>)
    ensures Before(done + [f], rest)
         == match rest case Ok(fs) => Ok(Contents(done) + ([Content(f)] + fs)) case Err(e) => Err(e)
  {
    ContentsAppend(done, f);
    if rest.Ok? {
      assert (Contents(done) + [Content(f)]) + rest.value == Contents(done) + ([Content(f)] + rest.value);
    }
  }

  lemma ContentsFrom(fs: seq<Interface>, i: nat)
    requires i < |fs|
    ensures Contents(fs[i..]) == [Content(fs[i])] + Contents(fs[i + 1..])
  {
    assert fs[i..][0] == fs[i] && fs[i..][1..] == fs[i + 1..];
  }

  lemma AllDocuments(fs: seq<Interface>, r: Result<seq<File>>)
    ensures Contents(fs[0..]) == Contents(fs) && Contents(fs[|fs|..]) == []
    ensures Before([], r) == r && Before(fs, Ok([])) == Ok(Contents(fs))
  {
    assert fs[0..] == fs;
    var none := fs[|fs|..];
    assert none == [];
    assert Contents(none) + (if r.Ok? then r.value else []) == if r.Ok? then r.value else [];
    assert Contents(fs) + [] == Contents(fs);
  }

  lemma WithDocuments(f: Interface, ds: seq<Interface>)
    ensures Flat(f.(documents := ds)) <==> Flat(f)
    ensures Content(f.(documents := ds)) == Content(f).(documents := Contents(ds))
  {
  }

  // ----- extract -----

  method ExtractFile(f: Interface, a: Arch) returns (r: Result<Interface>)
    requires Valid(f)
    ensures Outcome(r) == Extract(Content(f), a) && (r.Ok? ==> Valid(r.value))
    decreases f
  {
    hide Flat, ExtractTop;
    var archs := ArchitecturesOf(f.targets);
    if a !in archs {
      return Err(MissingArchitecture);
    }
    var built := ExtractSlice(f, a);
    var documents := ExtractDocuments(f.documents, a);
    match documents
    case Err(e) => return Err(e);
    case Ok(parts) =>
      WithDocuments(built.Value(), parts);
      built.documents := parts;
      return Ok(built.Value());
  }

  /** Documents without the architecture are skipped. */
  method ExtractDocuments(ds: seq<Interface>, a: Arch) returns (r: Result<seq<Interface>>)
    requires forall j :: 0 <= j < |ds| ==> Valid(ds[j])
    ensures ExtractAll(Contents(ds), a) == match r case Ok(parts) => Ok(Contents(parts)) case Err(e) => Err(e)
    ensures r.Ok? ==> forall j :: 0 <= j < |r.value| ==> Valid(r.value[j])
    decreases ds
  {
    var parts := [];
    AllDocuments(ds, ExtractAll(Contents(ds), a));
    for i := 0 to |ds|
      invariant forall j :: 0 <= j < |parts| ==> Valid(parts[j])
      invariant ExtractAll(Contents(ds), a) == Before(parts, ExtractAll(Contents(ds[i..]), a))
    {
      hide Valid;
      ContentsFrom(ds, i);
      var has := ArchitecturesOf(ds[i].targets);
      if a in has {
        var part := ExtractFile(ds[i], a);
        if part.Err? {
          return Err(part.error);
        }
        BeforeAppend(parts, part.value, ExtractAll(Contents(ds[i + 1..]), a));
        parts := parts + [part.value];
      }
    }
    AllDocuments(parts, Ok([]));
    return Ok(parts);
  }

  // ----- remove -----

  method AnyDocumentHas(ds: seq<Interface>, a: Arch) returns (found: bool)
    ensures !found <==> forall i :: 0 <= i < |Contents(ds)| ==> a !in Archs(Contents(ds)[i])
  {
    found := false;
    var i := 0;
    while i < |ds| && !found
      invariant 0 <= i <= |ds|
      invariant found <==> exists j :: 0 <= j < i && a in Archs(Contents(ds)[j])
    {
      var has := ArchitecturesOf(ds[i].targets);
      ContentsAt(ds, i);
      found := a in has;
      i := i + 1;
    }
  }

  method RemoveFile(f: Interface, a: Arch) returns (r: Result<Interface>)
    requires Valid(f)
    ensures Outcome(r) == Remove(Content(f), a) && (r.Ok? ==> Valid(r.value))
    decreases f
  {
    hide Flat, RemoveTop;
    var archs := ArchitecturesOf(f.targets);
    if archs == Single(a) {
      return Err(LastArchitecture);
    }
    if a !in archs {
      var found := AnyDocumentHas(f.documents, a);
      if !found {
        assert Content(f).documents == Contents(f.documents);
        assert forall i :: 0 <= i < |Content(f).documents| ==> a !in Archs(Content(f).documents[i]);
        return Err(NoSuchArchitecture);
      }
    }
    var built := RemoveSlice(f, a);
    var documents := RemoveDocuments(f.documents, a);
    match documents
    case Err(e) => return Err(e);
    case Ok(parts) =>
      WithDocuments(built.Value(), parts);
      built.documents := parts;
      return Ok(built.Value());
  }

  /** Documents with only the architecture are dropped, documents without it are
      kept as they are. */
  method RemoveDocuments(ds: seq<Interface>, a: Arch) returns (r: Result<seq<Interface>>)
    requires forall j :: 0 <= j < |ds| ==> Valid(ds[j])
    ensures RemoveAll(Contents(ds), a) == match r case Ok(parts) => Ok(Contents(parts)) case Err(e) => Err(e)
    ensures r.Ok? ==> forall j :: 0 <= j < |r.value| ==> Valid(r.value[j])
    decreases ds
  {
    var parts := [];
    AllDocuments(ds, RemoveAll(Contents(ds), a));
    for i := 0 to |ds|
      invariant forall j :: 0 <= j < |parts| ==> Valid(parts[j])
      invariant RemoveAll(Contents(ds), a) == Before(parts, RemoveAll(Contents(ds[i..]), a))
    {
      hide Valid;
      ContentsFrom(ds, i);
      var has := ArchitecturesOf(ds[i].targets);
      if has != Single(a) {
        var part := Ok(ds[i]);
        if a in has {
          part := RemoveFile(ds[i], a);
        }
        if part.Err? {
          return Err(part.error);
        }
        BeforeAppend(parts, part.value, RemoveAll(Contents(ds[i + 1..]), a));
        parts := parts + [part.value];
      }
    }
    AllDocuments(parts, Ok([]));
    return Ok(parts);
  }

  // ----- merge -----

  lemma MergeFacts(f: Interface)
    ensures Content(f).header == f.header && Content(f).swiftVersion == f.swiftVersion
    ensures Valid(f) ==> Flat(f)
    ensures Flat(f) && f.documents == [] ==> Valid(f)
  {
  }

  /** The first difference found is reported. */
  method CompareFiles(f: Interface, g: Interface) returns (e: Option<Difference>)
    ensures e == if Compatible(Content(f), Content(g)) then None else Some(FirstDifference(Content(f), Content(g)))
  {
    MergeFacts(f);
    MergeFacts(g);
    hide Content;
    if f.header.installName != g.header.installName {
      return Some(InstallNames);
    }
    if f.header.currentVersion != g.header.currentVersion {
      return Some(CurrentVersions);
    }
    if f.header.compatibilityVersion != g.header.compatibilityVersion {
      return Some(CompatibilityVersions);
    }
    if f.swiftVersion != 0 && g.swiftVersion != 0 && f.swiftVersion != g.swiftVersion {
      return Some(SwiftVersions);
    }
    if f.header.twoLevelNamespace != g.header.twoLevelNamespace {
      return Some(NamespaceFlags);
    }
    if f.header.appExtensionSafe != g.header.appExtensionSafe {
      return Some(ExtensionFlags);
    }
    if f.header.installAPI != g.header.installAPI {
      return Some(InstallAPIFlags);
    }
    assert f.header == g.header;
    return None;
  }

  /** Every symbol of `h` lists the targets it has in `f`, then those it gets from `g`. */
  ghost predicate OrderJoined(f: Interface, g: Interface, h: Interface) {
    forall k :: OrderOf(h.symbols, k) == Appended(OrderOf(f.symbols, k), OrderOf(g.symbols, k))
  }

  method MergeFiles(f: Interface, g: Interface) returns (r: Result<Interface>)
    requires Valid(f) && Valid(g)
    ensures Outcome(r) == Merge(Content(f), Content(g)) && (r.Ok? ==> Valid(r.value) && OrderJoined(f, g, r.value))
  {
    var difference := CompareFiles(f, g);
    MergeFacts(f);
    MergeFacts(g);
    hide Valid, Flat, Content, Union, OrderJoined;
    if difference.Some? {
      return Err(Mismatch(difference.value));
    }
    var built := MergeSlices(f, g);
    MergeFacts(built.Value());
    return Ok(built.Value());
  }

  method MergeSlices(f: Interface, g: Interface) returns (built: InterfaceFile)
    requires Flat(f) && Flat(g)
    ensures fresh(built) && fresh(built.symbols) && built.documents == [] && Flat(built.Value())
    ensures Content(built.Value()) == Union(Content(f), Content(g)) && OrderJoined(f, g, built.Value())
  {
    var every := (arch: Arch) => true;
    built := MergeVectors(f, g, every);
    EmptyIsFlat();
    MergeFromNothing(SymbolsOf(f.symbols), SymbolsOf(g.symbols));
    hide SortedTargets, SortedUmbrellas, SortedRefs, SortedPairs, Members, AsMap, Links, ListedOnce, SymbolsOf;
    hide KeptTargets, KeptLinks, KeptPairs, MergeSymbols, AllRenewed, Content, Union, Later, OrderOf, Appended;
    hide OrderJoined;
    ghost var none := built.symbols.table;
    CopyAll(built.symbols, f.symbols);
    ghost var first := built.symbols.table;
    CopyAll(built.symbols, g.symbols);
    BothOrders(f, g, none, first, built.Value());
    MergedContent(f, g, built.Value(), every);
  }

  lemma BothOrders(f: Interface, g: Interface, none: map<SymbolKey, XPI>, first: map<SymbolKey, XPI>, h: Interface)
    requires ListedOnce(f.symbols) && none == map[]
    requires forall k :: OrderOf(first, k) == Appended(OrderOf(none, k), OrderOf(f.symbols, k))
    requires forall k :: OrderOf(h.symbols, k) == Appended(OrderOf(first, k), OrderOf(g.symbols, k))
    ensures OrderJoined(f, g, h)
  {
    forall k ensures OrderOf(first, k) == OrderOf(f.symbols, k) {
      OrderFromNothing(f, k);
      assert OrderOf(none, k) == [];
    }
  }

  lemma OrderFromNothing(f: Interface, k: SymbolKey)
    requires ListedOnce(f.symbols)
    ensures Appended([], OrderOf(f.symbols, k)) == OrderOf(f.symbols, k)
  {
    AppendedToNothing(OrderOf(f.symbols, k));
  }

  method MergeVectors(f: Interface, g: Interface, every: Arch -> bool) returns (built: InterfaceFile)
    requires Flat(f) && Flat(g)
    ensures fresh(built) && fresh(built.symbols) && built.symbols.table == map[] && Flat(built.Value())
    ensures BothTakenOver(f, g, every, built.Value())
  {
    built := new InterfaceFile();
    EmptyIsFlat();
    hide SortedTargets, SortedUmbrellas, SortedRefs, SortedPairs, Members, AsMap, Links, ListedOnce, SymbolsOf;
    hide KeptTargets, KeptLinks, KeptPairs, Later;
    built.CopyScalars(f, Later(f.fileType, g.fileType), if f.swiftVersion == 0 then g.swiftVersion else f.swiftVersion);
    built.TakeOver(f, every);
    built.TakeOver(g, every);
  }

  predicate BothTakenOver(f: Interface, g: Interface, every: Arch -> bool, h: Interface) {
    h.header == f.header && h.fileType == Later(f.fileType, g.fileType) && h.path == f.path &&
    h.swiftVersion == (if f.swiftVersion == 0 then g.swiftVersion else f.swiftVersion) &&
    Members(h.targets) == {} + KeptTargets(Members(f.targets), every) + KeptTargets(Members(g.targets), every) &&
    AsMap(h.umbrellas) == map[] + AsMap(f.umbrellas) + AsMap(g.umbrellas) &&
    Links(h.clients) == {} + KeptLinks(Links(f.clients), every) + KeptLinks(Links(g.clients), every) &&
    Links(h.reexports) == {} + KeptLinks(Links(f.reexports), every) + KeptLinks(Links(g.reexports), every) &&
    AsMap(h.uuids) == map[] + KeptPairs(AsMap(f.uuids), every) + KeptPairs(AsMap(g.uuids), every) && h.documents == []
  }

  lemma MergedContent(f: Interface, g: Interface, h: Interface, every: Arch -> bool)
    requires BothTakenOver(f, g, every, h) && forall arch :: every(arch)
    requires SymbolsOf(h.symbols) == MergeSymbols(SymbolsOf(f.symbols), SymbolsOf(g.symbols))
    ensures Content(h) == Union(Content(f), Content(g))
  {
    hide SymbolsOf, MergeSymbols, AsMap, Links, Members, Later, KeptTargets, KeptLinks, KeptPairs;
    KeptEverything(f, every);
    KeptEverything(g, every);
    FromNothing(Members(f.targets), Links(f.clients), Links(f.reexports), AsMap(f.umbrellas), AsMap(f.uuids));
  }

  lemma FromNothing(ts: set<Target>, clients: set<(string, Target)>, reexports: set<(string, Target)>,
                    umbrellas: map<Target, string>, uuids: map<Target, string>)
    ensures {} + ts == ts && {} + clients == clients && {} + reexports == reexports
    ensures map[] + umbrellas == umbrellas && map[] + uuids == uuids
  {
  }

  lemma KeptEverything(f: Interface, keep: Arch -> bool)
    requires forall arch :: keep(arch)
    ensures KeptTargets(Members(f.targets), keep) == Members(f.targets)
    ensures KeptLinks(Links(f.clients), keep) == Links(f.clients) &&
            KeptLinks(Links(f.reexports), keep) == Links(f.reexports)
    ensures KeptPairs(AsMap(f.uuids), keep) == AsMap(f.uuids)
  {
  }

  /** The targets of a symbol in the order in which the inputs bring them. */
  function ArrivalOrder(inputs: seq<Interface>, k: SymbolKey): seq<Target> {
    if inputs == [] then []
    else Appended(ArrivalOrder(inputs[..|inputs| - 1], k), OrderOf(inputs[|inputs| - 1].symbols, k))
  }

  ghost predicate InArrivalOrder(inputs: seq<Interface>, output: Interface) {
    forall k :: OrderOf(output.symbols, k) == ArrivalOrder(inputs, k)
  }

  lemma FirstArrives(inputs: seq<Interface>)
    requires inputs != [] && Valid(inputs[0])
    ensures InArrivalOrder(inputs[..1], inputs[0])
  {
    assert inputs[..1][..0] == [];
    forall k ensures OrderOf(inputs[0].symbols, k) == ArrivalOrder(inputs[..1], k) {
      OrderFromNothing(inputs[0], k);
    }
  }

  lemma NextArrives(inputs: seq<Interface>, i: nat, output: Interface, merged: Interface)
    requires i < |inputs| && InArrivalOrder(inputs[..i], output) && OrderJoined(output, inputs[i], merged)
    ensures InArrivalOrder(inputs[..i + 1], merged)
  {
    assert inputs[..i + 1][..i] == inputs[..i];
  }

  /** The archive tool's merge action. */
  method MergeArchive(inputs: seq<Interface>) returns (r: Result<Interface>)
    requires inputs != [] && forall i :: 0 <= i < |inputs| ==> Valid(inputs[i])
    ensures Outcome(r) == MergeAll(Contents(inputs))
    ensures r.Ok? ==> Valid(r.value) && InArrivalOrder(inputs, r.value)
  {
    FirstArrives(inputs);
    hide Valid, OrderJoined, InArrivalOrder;
    var output := inputs[0];
    AllDocuments(inputs, Ok([]));
    ContentsFrom(inputs, 0);
    for i := 1 to |inputs|
      invariant Valid(output) && InArrivalOrder(inputs[..i], output)
      invariant MergeAll(Contents(inputs)) == MergeInto(Content(output), Contents(inputs[i..]))
    {
      ContentsFrom(inputs, i);
      var merged := MergeFiles(output, inputs[i]);
      if merged.Err? {
        return merged;
      }
      NextArrives(inputs, i, output, merged.value);
      output := merged.value;
    }
    assert inputs[..|inputs|] == inputs;
    return Ok(output);
  }
}

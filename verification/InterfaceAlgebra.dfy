/** Interface files by content: what extract, remove and merge mean, apart from
    how the vectors are filled. */
module InterfaceAlgebra {

  /** Architectures by number; the last one stands for an unknown name. */
  type Arch = a: nat | a < 32

  const AK_UNKNOWN: Arch := 14

  datatype Target = Target(arch: Arch, platform: nat)

  datatype Kind = GlobalSymbol | ObjectiveCClass | ObjectiveCClassEHType | ObjectiveCInstanceVariable

  datatype Linkage = Unknown | Internal | External | Reexported | Exported

  datatype Access = NoAccess | Project | Private | Public

  datatype SymbolFlags = SymbolFlags(threadLocal: bool, weakDefined: bool, weakReferenced: bool)

  const NO_FLAGS := SymbolFlags(false, false, false)

  datatype Availability = Availability(introduced: nat, obsoleted: nat, unavailable: bool)

  const DEFAULT := Availability(0, 0, false)

  datatype SymbolKey = SymbolKey(kind: Kind, name: string)

  datatype Symbol = Symbol(linkage: Linkage, flags: SymbolFlags, access: Access, avail: map<Target, Availability>)

  datatype Version = Version(fileType: nat, version: nat)

  /** The scalar fields that merge compares or copies. */
  datatype Header = Header(installName: string, currentVersion: nat, compatibilityVersion: nat,
                           twoLevelNamespace: bool, appExtensionSafe: bool, installAPI: bool)

  datatype File = File(
    header: Header, fileType: Version, path: string, swiftVersion: nat,
    targets: set<Target>, umbrellas: map<Target, string>,
    clients: set<(string, Target)>, reexports: set<(string, Target)>,
    uuids: map<Target, string>, symbols: map<SymbolKey, Symbol>, documents: seq<File>)

  /** What two files to be merged differ in. */
  datatype Difference =
    | InstallNames | CurrentVersions | CompatibilityVersions | SwiftVersions
    | NamespaceFlags | ExtensionFlags | InstallAPIFlags

  datatype Error = MissingArchitecture | NoSuchArchitecture | LastArchitecture | Mismatch(what: Difference)

  datatype Result<T> = Ok(value: T) | Err(error: Error)

  datatype Option<T> = Some(value: T) | None

  // ----- architectures -----

  function ArchsOf(ts: set<Target>): set<Arch> {
    set t | t in ts && t.arch != AK_UNKNOWN :: t.arch
  }

  /** An architecture set built from one architecture. */
  function Single(a: Arch): set<Arch> {
    if a == AK_UNKNOWN then {} else {a}
  }

  function Archs(f: File): set<Arch> {
    ArchsOf(f.targets)
  }

  // ----- symbols -----

  predicate Usable(i: Availability) {
    !i.unavailable && i.obsoleted == 0
  }

  /** The architectures a symbol is available on. */
  function UsableArchs(s: Symbol): set<Arch> {
    ArchsOf(set t | t in s.avail && Usable(s.avail[t]))
  }

  function UpdateAccess(have: Access, new_access: Access): Access {
    if new_access == NoAccess then have
    else if have == NoAccess then new_access
    else if have == Private && new_access == Public then Public
    else have
  }

  function MakeAvailable(avail: map<Target, Availability>, ts: set<Target>): map<Target, Availability> {
    map t | t in avail.Keys + ts ::
      if t !in avail then DEFAULT
      else if t in ts then avail[t].(unavailable := false)
      else avail[t]
  }

  /** addSymbol over a range of targets: the first writer decides linkage and
      flags, the access is updated, the targets accumulate. */
  function AddSymbol(symbols: map<SymbolKey, Symbol>, k: SymbolKey, s: Symbol): map<SymbolKey, Symbol> {
    var have := if k in symbols then symbols[k] else FreshSymbol(k, s);
    symbols[k := have.(access := UpdateAccess(have.access, s.access), avail := MakeAvailable(have.avail, s.avail.Keys))]
  }

  /** Only global symbols carry flags. */
  function FreshSymbol(k: SymbolKey, s: Symbol): Symbol {
    Symbol(s.linkage, if k.kind == GlobalSymbol then s.flags else NO_FLAGS, s.access, map[])
  }

  function RestrictSymbol(s: Symbol, archs: set<Arch>): Symbol {
    s.(avail := map t | t in s.avail && t.arch in archs :: s.avail[t])
  }

  /** The symbol a fresh file gets from `s`. */
  function Renewed(k: SymbolKey, s: Symbol): Symbol {
    FreshSymbol(k, s).(avail := map t | t in s.avail :: DEFAULT)
  }

  // ----- extract and remove -----

  function ExtractSymbols(symbols: map<SymbolKey, Symbol>, a: Arch): map<SymbolKey, Symbol> {
    map k | k in symbols :: Renewed(k, RestrictSymbol(symbols[k], Single(a)))
  }

  function RemoveSymbols(symbols: map<SymbolKey, Symbol>, a: Arch): map<SymbolKey, Symbol> {
    map k | k in symbols && UsableArchs(symbols[k]) - {a} != {} ::
      Renewed(k, RestrictSymbol(symbols[k], UsableArchs(symbols[k]) - {a}))
  }

  function Extract(f: File, a: Arch): (r: Result<File>)
    decreases f
  {
    if a !in Archs(f) then Err(MissingArchitecture)
    else
      match ExtractAll(f.documents, a)
      case Err(e) => Err(e)
      case Ok(documents) => Ok(ExtractTop(f, a).(documents := documents))
  }

  /** Everything but the inlined documents. The umbrellas of all targets stay. */
  function ExtractTop(f: File, a: Arch): File {
    f.(targets := (set t | t in f.targets && t.arch == a),
       clients := (set p | p in f.clients && p.1.arch == a),
       reexports := (set p | p in f.reexports && p.1.arch == a),
       uuids := (map t | t in f.uuids && t.arch == a :: f.uuids[t]),
       symbols := ExtractSymbols(f.symbols, a),
       documents := [])
  }

  function ExtractAll(ds: seq<File>, a: Arch): Result<seq<File>>
    decreases ds
  {
    if ds == [] then Ok([])
    else if a !in Archs(ds[0]) then ExtractAll(ds[1..], a)
    else
      match Extract(ds[0], a)
      case Err(e) => Err(e)
      case Ok(d) =>
        match ExtractAll(ds[1..], a)
        case Err(e) => Err(e)
        case Ok(rest) => Ok([d] + rest)
  }

  function Remove(f: File, a: Arch): Result<File>
    decreases f
  {
    if Archs(f) == Single(a) then Err(LastArchitecture)
    else if a !in Archs(f) && forall i :: 0 <= i < |f.documents| ==> a !in Archs(f.documents[i])
    then Err(NoSuchArchitecture)
    else
      match RemoveAll(f.documents, a)
      case Err(e) => Err(e)
      case Ok(documents) => Ok(RemoveTop(f, a).(documents := documents))
  }

  function RemoveTop(f: File, a: Arch): File {
    f.(targets := (set t | t in f.targets && t.arch != a),
       clients := (set p | p in f.clients && p.1.arch != a),
       reexports := (set p | p in f.reexports && p.1.arch != a),
       uuids := (map t | t in f.uuids && t.arch != a :: f.uuids[t]),
       symbols := RemoveSymbols(f.symbols, a),
       documents := [])
  }

  function RemoveAll(ds: seq<File>, a: Arch): Result<seq<File>>
    decreases ds
  {
    if ds == [] then Ok([])
    else if Archs(ds[0]) == Single(a) then RemoveAll(ds[1..], a)
    else if a !in Archs(ds[0]) then
      match RemoveAll(ds[1..], a)
      case Err(e) => Err(e)
      case Ok(rest) => Ok([ds[0]] + rest)
    else
      match Remove(ds[0], a)
      case Err(e) => Err(e)
      case Ok(d) =>
        match RemoveAll(ds[1..], a)
        case Err(e) => Err(e)
        case Ok(rest) => Ok([d] + rest)
  }

  // ----- merge -----

  predicate VersionLess(v: Version, w: Version) {
    v.fileType < w.fileType || (v.fileType == w.fileType && v.version < w.version)
  }

  function Later(v: Version, w: Version): Version {
    if VersionLess(v, w) then w else v
  }

  /** Swift version 0 means none is recorded. */
  predicate Compatible(f: File, g: File) {
    f.header == g.header && (f.swiftVersion == 0 || g.swiftVersion == 0 || f.swiftVersion == g.swiftVersion)
  }

  function MergeSymbols(m: map<SymbolKey, Symbol>, n: map<SymbolKey, Symbol>): map<SymbolKey, Symbol> {
    map k | k in m.Keys + n.Keys ::
      if k !in n then Renewed(k, m[k]) else if k !in m then Renewed(k, n[k]) else Joined(k, m[k], n[k])
  }

  function Joined(k: SymbolKey, s: Symbol, s': Symbol): Symbol {
    Renewed(k, s).(access := UpdateAccess(s.access, s'.access),
      avail := map t | t in s.avail.Keys + s'.avail.Keys :: DEFAULT)
  }

  /** The first difference that keeps two files from being merged. */
  function FirstDifference(f: File, g: File): Difference
    requires !Compatible(f, g)
  {
    if f.header.installName != g.header.installName then InstallNames
    else if f.header.currentVersion != g.header.currentVersion then CurrentVersions
    else if f.header.compatibilityVersion != g.header.compatibilityVersion then CompatibilityVersions
    else if f.swiftVersion != 0 && g.swiftVersion != 0 && f.swiftVersion != g.swiftVersion then SwiftVersions
    else if f.header.twoLevelNamespace != g.header.twoLevelNamespace then NamespaceFlags
    else if f.header.appExtensionSafe != g.header.appExtensionSafe then ExtensionFlags
    else InstallAPIFlags
  }

  function Merge(f: File, g: File): Result<File> {
    if !Compatible(f, g) then Err(Mismatch(FirstDifference(f, g)))
    else Ok(Union(f, g))
  }

  /** The inlined documents of both files are dropped. */
  function Union(f: File, g: File): File {
    File(f.header, Later(f.fileType, g.fileType), f.path,
      if f.swiftVersion == 0 then g.swiftVersion else f.swiftVersion,
         f.targets + g.targets, f.umbrellas + g.umbrellas, f.clients + g.clients, f.reexports + g.reexports,
         f.uuids + g.uuids, MergeSymbols(f.symbols, g.symbols), [])
  }

  /** The archive tool's merge: the first input, then each further one merged in. */
  function MergeInto(output: File, inputs: seq<File>): Result<File>
    decreases |inputs|
  {
    if inputs == [] then Ok(output)
    else
      match Merge(output, inputs[0])
      case Err(e) => Err(e)
      case Ok(merged) => MergeInto(merged, inputs[1..])
  }

  /** Only global symbols carry flags; other kinds are created without. */
  predicate SymbolsOk(symbols: map<SymbolKey, Symbol>) {
    forall k :: k in symbols && k.kind != GlobalSymbol ==> symbols[k].flags == NO_FLAGS
  }
}

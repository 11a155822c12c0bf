/** The JSON form of an API: how records are written as objects and read back. */
module ApiJson {
  import opened InterfaceAlgebra
  import opened PackedVersions
  import opened ApiRecords

  /** The field names of all the objects. */
  datatype Key =
    | KName | KLoc | KAvailability | KLinkage | KWeakDefined | KWeakReferenced | KThreadLocal | KAccess | KKind
    | KOptional | KDynamic | KAttr | KGetter | KSetter | KAccessControl
    | KProtocols | KInstanceMethods | KClassMethods | KProperties | KIvars
    | KSuper | KHasException | KCategories | KInterface
    | KGlobals | KInterfaces | KEnums | KTypedefs

  datatype Json = Text(text: string) | Truth(truth: bool) | Array(items: seq<Json>) | Object(fields: map<Key, Json>)

  type Fields = map<Key, Json>

  datatype Parsed<T> = Parsed(value: T) | Malformed

  // ----- text helpers -----

  function Before(s: string, c: char): (n: nat)
    ensures n <= |s| && (n < |s| ==> s[n] == c) && forall i :: 0 <= i < n ==> s[i] != c
  {
    if s == "" || s[0] == c then 0 else 1 + Before(s[1..], c)
  }

  /** The part before the first such character and the part after it. */
  function SplitFirst(s: string, c: char): (string, string) {
    var n := Before(s, c);
    if n == |s| then (s, "") else (s[..n], s[n + 1..])
  }

  function LastAt(s: string, c: char): (n: nat)
    ensures n <= |s| && (n < |s| ==> s[n] == c) && forall i :: n < i < |s| ==> s[i] != c
    ensures n == |s| ==> forall i :: 0 <= i < |s| ==> s[i] != c
  {
    if s == "" then 0
    else if s[|s| - 1] == c then |s| - 1
    else
      var n := LastAt(s[..|s| - 1], c);
      if n == |s| - 1 then |s| else n
  }

  /** The part before the last such character and the part after it. */
  function SplitLast(s: string, c: char): (string, string) {
    var n := LastAt(s, c);
    if n == |s| then (s, "") else (s[..n], s[n + 1..])
  }

  lemma SplitFirstJoined(s: string, c: char, t: string)
    requires c !in s
    ensures SplitFirst(s + [c] + t, c) == (s, t)
  {
    var whole := s + [c] + t;
    var n := Before(whole, c);
    assert whole[|s|] == c;
    assert forall i :: 0 <= i < |s| ==> whole[i] == s[i];
    assert whole[..|s|] == s && whole[|s| + 1..] == t;
  }

  lemma SplitLastJoined(s: string, c: char, t: string)
    requires c !in t
    ensures SplitLast(s + [c] + t, c) == (s, t)
  {
    var whole := s + [c] + t;
    var n := LastAt(whole, c);
    assert whole[|s|] == c;
    assert forall i :: |s| < i < |whole| ==> whole[i] == t[i - |s| - 1];
    assert whole[..|s|] == s && whole[|s| + 1..] == t;
  }

  const UINT32_LIMIT: nat := 0x1_0000_0000

  function ParseNumber(s: string): Parsed<nat> {
    if Numeric(s) && Value(s) < UINT32_LIMIT then Parsed(Value(s)) else Malformed
  }

  // ----- locations -----

  function LocText(loc: Loc): string {
    loc.file + ":" + Decimal(loc.line) + ":" + Decimal(loc.column)
  }

  /** Taken apart from the right, so that colons in the file name do no harm. */
  function ParseLoc(s: string): Parsed<Loc> {
    var right := SplitLast(s, ':');
    match ParseNumber(right.1)
    case Malformed => Malformed
    case Parsed(column) =>
      var left := SplitLast(right.0, ':');
      match ParseNumber(left.1)
      case Malformed => Malformed
      case Parsed(line) => Parsed(Loc(left.0, line, column))
  }

  lemma LocBack(loc: Loc)
    requires loc.line < UINT32_LIMIT && loc.column < UINT32_LIMIT
    ensures ParseLoc(LocText(loc)) == Parsed(loc)
  {
    DecimalValue(loc.line);
    DecimalValue(loc.column);
    var left := loc.file + ":" + Decimal(loc.line);
    assert LocText(loc) == left + [':'] + Decimal(loc.column);
    SplitLastJoined(left, ':', Decimal(loc.column));
    SplitLastJoined(loc.file, ':', Decimal(loc.line));
    hide SplitLast, Digits, Decimal, Value;
    assert ParseNumber(Decimal(loc.column)) == Parsed(loc.column) && ParseNumber(Decimal(loc.line)) == Parsed(loc.line);
  }

  // ----- availability -----

  function AvailabilityText(a: Availability): string {
    "i:" + Printed(a.introduced) + " o:" + Printed(a.obsoleted) + " u:" + Decimal(if a.unavailable then 1 else 0)
  }

  function ParseVersion(s: string): Parsed<nat> {
    if Accepted32(s) then Parsed(Recorded(PackedVersions.Split(s), 3, 0xFFFF, 0xFF)) else Malformed
  }

  /** What follows a two-letter label. */
  function Labelled(s: string, initial: char): Parsed<string> {
    if |s| >= 2 && s[0] == initial && s[1] == ':' then Parsed(s[2..]) else Malformed
  }

  function ParseAvailability(s: string): Parsed<Availability> {
    match Labelled(s, 'i')
    case Malformed => Malformed
    case Parsed(rest) =>
      var first := SplitFirst(rest, ' ');
      match (ParseVersion(first.0), Labelled(first.1, 'o'))
      case (Parsed(introduced), Parsed(more)) =>
        var second := SplitFirst(more, ' ');
        (match (ParseVersion(second.0), Labelled(second.1, 'u'))
         case (Parsed(obsoleted), Parsed(last)) =>
           (match ParseNumber(last)
            case Malformed => Malformed
            case Parsed(n) => if n <= 1 then Parsed(Availability(introduced, obsoleted, n == 1)) else Malformed)
         case _ => Malformed)
      case _ => Malformed
  }

  lemma {:induction false} JoinedPlain(ns: seq<nat>)
    ensures ' ' !in PackedVersions.Joined(ns)
  {
    if ns != [] {
      DecimalValue(ns[0]);
      JoinedPlain(ns[1..]);
    }
  }

  lemma VersionBack(v: nat)
    requires v < UINT32_LIMIT
    ensures ParseVersion(Printed(v)) == Parsed(v) && ' ' !in Printed(v)
  {
    PrintThenParse(v);
    JoinedPlain(Shown(v));
  }

  lemma AvailabilityBack(a: Availability)
    requires a.introduced < UINT32_LIMIT && a.obsoleted < UINT32_LIMIT
    ensures ParseAvailability(AvailabilityText(a)) == Parsed(a)
  {
    hide Printed, ParseVersion, SplitFirst, Decimal;
    var n := if a.unavailable then 1 else 0;
    VersionBack(a.introduced);
    VersionBack(a.obsoleted);
    DecimalValue(n);
    var last := "u:" + Decimal(n);
    var more := Printed(a.obsoleted) + [' '] + last;
    var rest := Printed(a.introduced) + [' '] + ("o:" + more);
    assert AvailabilityText(a) == "i:" + rest;
    assert ("i:" + rest)[2..] == rest && ("o:" + more)[2..] == more && last[2..] == Decimal(n);
    SplitFirstJoined(Printed(a.introduced), ' ', "o:" + more);
    SplitFirstJoined(Printed(a.obsoleted), ' ', last);
  }

  // ----- fields -----

  datatype Field<T> = Present(value: T) | Absent

  function FieldAt(o: Fields, k: Key): Field<Json> {
    if k in o then Present(o[k]) else Absent
  }

  function TextAt(o: Fields, k: Key): Field<string> {
    match FieldAt(o, k)
    case Present(Text(s)) => Present(s)
    case _ => Absent
  }

  function TruthAt(o: Fields, k: Key): bool {
    FieldAt(o, k) == Present(Truth(true))
  }

  function ArrayAt(o: Fields, k: Key): seq<Json> {
    match FieldAt(o, k)
    case Present(Array(items)) => items
    case _ => []
  }

  /** Sets a field, or leaves it out. */
  function With(o: Fields, k: Key, f: Field<Json>): Fields {
    match f
    case Absent => o
    case Present(j) => o[k := j]
  }

  function AsText(text: Field<string>): Field<Json> {
    match text
    case Absent => Absent
    case Present(s) => Present(Text(s))
  }

  /** False is left out. */
  function AsTruth(b: bool): Field<Json> {
    if b then Present(Truth(true)) else Absent
  }

  /** An empty array is left out. */
  function AsArray(items: seq<Json>): Field<Json> {
    if items == [] then Absent else Present(Array(items))
  }

  lemma WithAt(o: Fields, k: Key, f: Field<Json>, j: Key)
    ensures FieldAt(With(o, k, f), j) == if j == k && f.Present? then f else FieldAt(o, j)
  {
  }

  // ----- linkage, access, kind -----

  function LinkageText(l: Linkage): Field<string> {
    match l
    case Exported => Present("exported")
    case Reexported => Present("re-exported")
    case Internal => Present("internal")
    case External => Present("external")
    case Unknown => Absent
  }

  function ParseLinkage(o: Fields): Parsed<Linkage> {
    match TextAt(o, KLinkage)
    case Absent => Parsed(Unknown)
    case Present(s) =>
      if s == "exported" then Parsed(Exported)
      else if s == "re-exported" then Parsed(Reexported)
      else if s == "internal" then Parsed(Internal)
      else if s == "external" then Parsed(External)
      else Malformed
  }

  function AccessText(a: Access): Field<string> {
    match a
    case Public => Present("public")
    case Private => Present("private")
    case Project => Present("project")
    case NoAccess => Absent
  }

  function ParseAccess(o: Fields): Parsed<Access> {
    match TextAt(o, KAccess)
    case Absent => Parsed(NoAccess)
    case Present(s) =>
      if s == "public" then Parsed(Public)
      else if s == "private" then Parsed(Private)
      else if s == "project" then Parsed(Project)
      else Malformed
  }

  function KindText(k: GlobalKind): Field<string> {
    match k
    case Function => Present("function")
    case Variable => Present("variable")
    case UnknownKind => Absent
  }

  function ParseKind(o: Fields): Parsed<GlobalKind> {
    match TextAt(o, KKind)
    case Absent => Parsed(UnknownKind)
    case Present(s) =>
      if s == "function" then Parsed(Function) else if s == "variable" then Parsed(Variable) else Malformed
  }

  /** The control of an instance variable is looked up under the access key. */
  function ParseControl(o: Fields): Parsed<Control> {
    match TextAt(o, KAccess)
    case Absent => Parsed(NoControl)
    case Present(s) =>
      if s == "private" then Parsed(PrivateControl)
      else if s == "protected" || s == "public" || s == "package" then Parsed(ProtectedControl)
      else Malformed
  }

  function ControlText(c: Control): Field<string> {
    match c
    case PrivateControl => Present("private")
    case ProtectedControl => Present("protected")
    case PublicControl => Present("public")
    case PackageControl => Present("package")
    case NoControl => Absent
  }

  function ParseFlags(o: Fields): SymbolFlags {
    SymbolFlags(TruthAt(o, KThreadLocal), TruthAt(o, KWeakDefined), TruthAt(o, KWeakReferenced))
  }

  // ----- the common part of a record -----

  /** What a record's object has under each key. */
  function RecordField(r: Record, k: Key): Field<Json> {
    match k
    case KName => Present(Text(r.name))
    case KLoc => if r.loc.file == "" then Absent else Present(Text(LocText(r.loc)))
    case KAvailability => if r.availability == DEFAULT then Absent else Present(Text(AvailabilityText(r.availability)))
    case KLinkage => AsText(LinkageText(r.linkage))
    case KWeakDefined => AsTruth(r.flags.weakDefined)
    case KWeakReferenced => AsTruth(r.flags.weakReferenced)
    case KThreadLocal => AsTruth(r.flags.threadLocal)
    case KAccess => AsText(AccessText(r.access))
    case _ => Absent
  }

  function RecordFields(r: Record): Fields {
    var o := With(map[], KName, RecordField(r, KName));
    var o := With(o, KLoc, RecordField(r, KLoc));
    var o := With(o, KAvailability, RecordField(r, KAvailability));
    var o := With(o, KLinkage, RecordField(r, KLinkage));
    var o := With(o, KWeakDefined, RecordField(r, KWeakDefined));
    var o := With(o, KWeakReferenced, RecordField(r, KWeakReferenced));
    var o := With(o, KThreadLocal, RecordField(r, KThreadLocal));
    With(o, KAccess, RecordField(r, KAccess))
  }

  lemma OtherFields(r: Record, k: Key)
    requires !Common(k)
    ensures RecordField(r, k) == Absent
  {
  }

  lemma RecordFieldAt(r: Record, k: Key)
    ensures FieldAt(RecordFields(r), k) == RecordField(r, k)
  {
    if !Common(k) {
      OtherFields(r, k);
    }
    hide RecordField;
    var o1 := With(map[], KName, RecordField(r, KName));
    WithAt(map[], KName, RecordField(r, KName), k);
    var o2 := With(o1, KLoc, RecordField(r, KLoc));
    WithAt(o1, KLoc, RecordField(r, KLoc), k);
    var o3 := With(o2, KAvailability, RecordField(r, KAvailability));
    WithAt(o2, KAvailability, RecordField(r, KAvailability), k);
    var o4 := With(o3, KLinkage, RecordField(r, KLinkage));
    WithAt(o3, KLinkage, RecordField(r, KLinkage), k);
    var o5 := With(o4, KWeakDefined, RecordField(r, KWeakDefined));
    WithAt(o4, KWeakDefined, RecordField(r, KWeakDefined), k);
    var o6 := With(o5, KWeakReferenced, RecordField(r, KWeakReferenced));
    WithAt(o5, KWeakReferenced, RecordField(r, KWeakReferenced), k);
    var o7 := With(o6, KThreadLocal, RecordField(r, KThreadLocal));
    WithAt(o6, KThreadLocal, RecordField(r, KThreadLocal), k);
    WithAt(o7, KAccess, RecordField(r, KAccess), k);
    assert FieldAt(map[], k) == Absent;
    hide With, FieldAt;
  }

  /** Name, location, availability and access, which every parser reads. */
  function ParseRecord(o: Fields): Parsed<Record> {
    match (TextAt(o, KName), ParseAccess(o), ParseLocAt(o), ParseAvailabilityAt(o))
    case (Present(name), Parsed(access), Parsed(loc), Parsed(availability)) =>
      Parsed(Record(name, loc, availability, Unknown, NO_FLAGS, access))
    case _ => Malformed
  }

  function ParseLocAt(o: Fields): Parsed<Loc> {
    match TextAt(o, KLoc)
    case Absent => Parsed(NOWHERE)
    case Present(s) => ParseLoc(s)
  }

  function ParseAvailabilityAt(o: Fields): Parsed<Availability> {
    match TextAt(o, KAvailability)
    case Absent => Parsed(DEFAULT)
    case Present(s) => ParseAvailability(s)
  }

  /** Numbers that fit their fields, and one form of an invalid location. */
  predicate RecordOk(r: Record) {
    r.loc.line < UINT32_LIMIT && r.loc.column < UINT32_LIMIT && (r.loc.file == "" ==> r.loc == NOWHERE) &&
    r.availability.introduced < UINT32_LIMIT && r.availability.obsoleted < UINT32_LIMIT
  }

  /** The keys of the common part. */
  predicate Common(k: Key) {
    k == KName || k == KLoc || k == KAvailability || k == KLinkage || k == KWeakDefined || k == KWeakReferenced ||
    k == KThreadLocal || k == KAccess
  }

  /** An object that has a record's fields and others of its own. */
  predicate Carries(o: Fields, r: Record) {
    forall k :: Common(k) ==> FieldAt(o, k) == RecordField(r, k)
  }

  lemma RecordBack(o: Fields, r: Record)
    requires Carries(o, r) && RecordOk(r)
    ensures ParseRecord(o) == Parsed(r.(linkage := Unknown, flags := NO_FLAGS))
    ensures ParseLinkage(o) == Parsed(r.linkage) && ParseFlags(o) == r.flags
    ensures TextAt(o, KAccess) == AccessText(r.access)
  {
    hide LocText, ParseLoc, AvailabilityText, ParseAvailability, FieldAt;
    assert Common(KName) && Common(KLoc) && Common(KAvailability) && Common(KLinkage) && Common(KAccess);
    assert Common(KWeakDefined) && Common(KWeakReferenced) && Common(KThreadLocal);
    LocBack(r.loc);
    AvailabilityBack(r.availability);
  }

  lemma CarriesAll(o: Fields, r: Record)
    requires forall k :: Common(k) ==> FieldAt(o, k) == RecordField(r, k)
    ensures Carries(o, r)
  {
  }

  // ----- globals -----

  function GlobalJson(g: Global): Json {
    Object(With(RecordFields(g.record), KKind, AsText(KindText(g.kind))))
  }

  function ParseGlobal(j: Json): Parsed<Global> {
    if !j.Object? then Malformed
    else
      match (ParseRecord(j.fields), ParseKind(j.fields), ParseLinkage(j.fields))
      case (Parsed(r), Parsed(kind), Parsed(linkage)) =>
        Parsed(Global(r.(linkage := linkage, flags := ParseFlags(j.fields)), kind))
      case _ => Malformed
  }

  lemma GlobalBack(g: Global)
    requires RecordOk(g.record)
    ensures ParseGlobal(GlobalJson(g)) == Parsed(g)
  {
    hide RecordFields, ParseRecord, ParseLinkage, ParseFlags, Carries, With, FieldAt;
    var base, o := RecordFields(g.record), GlobalJson(g).fields;
    forall k ensures FieldAt(o, k) == if k == KKind then AsText(KindText(g.kind)) else RecordField(g.record, k) {
      RecordFieldAt(g.record, k);
      WithAt(base, KKind, AsText(KindText(g.kind)), k);
    }
    CarriesAll(o, g.record);
    RecordBack(o, g.record);
  }

  // ----- enum constants and typedefs -----

  predicate Bare(r: Record) {
    r.linkage == Unknown && r.flags == NO_FLAGS
  }

  function RecordJson(r: Record): Json {
    Object(RecordFields(r))
  }

  function ParseBare(j: Json): Parsed<Record> {
    if j.Object? then ParseRecord(j.fields) else Malformed
  }

  lemma BareBack(r: Record)
    requires RecordOk(r) && Bare(r)
    ensures ParseBare(RecordJson(r)) == Parsed(r)
  {
    hide RecordFields, ParseRecord, ParseLinkage, ParseFlags, Carries, FieldAt;
    forall k ensures FieldAt(RecordFields(r), k) == RecordField(r, k) {
      RecordFieldAt(r, k);
    }
    CarriesAll(RecordFields(r), r);
    RecordBack(RecordFields(r), r);
  }

  // ----- methods -----

  function MethodJson(m: Method): Json {
    Object(With(With(RecordFields(m.record), KOptional, AsTruth(m.isOptional)), KDynamic, AsTruth(m.isDynamic)))
  }

  function ParseMethod(j: Json, isInstance: bool): Parsed<Method> {
    if !j.Object? then Malformed
    else
      match ParseRecord(j.fields)
      case Malformed => Malformed
      case Parsed(r) => Parsed(Method(r, isInstance, TruthAt(j.fields, KOptional), TruthAt(j.fields, KDynamic)))
  }

  lemma MethodBack(m: Method)
    requires RecordOk(m.record) && Bare(m.record)
    ensures ParseMethod(MethodJson(m), m.isInstance) == Parsed(m)
  {
    hide RecordFields, ParseRecord, ParseLinkage, ParseFlags, Carries, With, FieldAt;
    var base, o := RecordFields(m.record), MethodJson(m).fields;
    forall k ensures FieldAt(o, k) == if k == KOptional then AsTruth(m.isOptional)
                                      else if k == KDynamic then AsTruth(m.isDynamic) else RecordField(m.record, k) {
      RecordFieldAt(m.record, k);
      WithAt(base, KOptional, AsTruth(m.isOptional), k);
      WithAt(With(base, KOptional, AsTruth(m.isOptional)), KDynamic, AsTruth(m.isDynamic), k);
    }
    CarriesAll(o, m.record);
    RecordBack(o, m.record);
  }

  // ----- properties -----

  function Attributes(p: Property): seq<Json> {
    (if p.readOnly then [Text("readonly")] else []) + (if p.dynamic then [Text("dynamic")] else []) +
    (if p.classProperty then [Text("class")] else [])
  }

  datatype Attr = Attr(readOnly: bool, dynamic: bool, classProperty: bool)

  function ParseAttributes(items: seq<Json>): Parsed<Attr> {
    if items == [] then Parsed(Attr(false, false, false))
    else
      match ParseAttributes(items[..|items| - 1])
      case Malformed => Malformed
      case Parsed(a) => ParseAttribute(a, items[|items| - 1])
  }

  function ParseAttribute(a: Attr, j: Json): Parsed<Attr> {
    if !j.Text? then Malformed
    else if j.text == "readonly" then Parsed(a.(readOnly := true))
    else if j.text == "dynamic" then Parsed(a.(dynamic := true))
    else if j.text == "class" then Parsed(a.(classProperty := true))
    else Malformed
  }

  lemma AttributesAppend(items: seq<Json>, j: Json)
    ensures ParseAttributes(items + [j]) ==
            match ParseAttributes(items) case Malformed => Malformed case Parsed(a) => ParseAttribute(a, j)
  {
    assert (items + [j])[..|items|] == items;
  }

  lemma AttributesBack(p: Property)
    ensures ParseAttributes(Attributes(p)) == Parsed(Attr(p.readOnly, p.dynamic, p.classProperty))
  {
    var one := if p.readOnly then [Text("readonly")] else [];
    var two := one + if p.dynamic then [Text("dynamic")] else [];
    if p.readOnly { AttributesAppend([], Text("readonly")); assert [] + [Text("readonly")] == one; }
    if p.dynamic { AttributesAppend(one, Text("dynamic")); } else { assert two == one; }
    if p.classProperty { AttributesAppend(two, Text("class")); } else { assert Attributes(p) == two; }
  }

  /** Only a property that can be written records a setter. */
  function PropertyJson(p: Property): (j: Json)
    ensures j.Object?
  {
    var o := With(RecordFields(p.record), KAttr, AsArray(Attributes(p)));
    var o := With(o, KOptional, AsTruth(p.isOptional));
    var o := With(o, KGetter, Present(Text(p.getter)));
    Object(if p.readOnly then o else With(o, KSetter, Present(Text(p.setter))))
  }

  function ParseProperty(j: Json): Parsed<Property> {
    if !j.Object? then Malformed
    else
      match (ParseRecord(j.fields), ParseAttributes(ArrayAt(j.fields, KAttr)), TextAt(j.fields, KGetter))
      case (Parsed(r), Parsed(a), Present(getter)) =>
        var optional := TruthAt(j.fields, KOptional);
        if a.readOnly then Parsed(Property(r, true, a.dynamic, a.classProperty, getter, "", optional))
        else
          (match TextAt(j.fields, KSetter)
           case Absent => Malformed
           case Present(setter) => Parsed(Property(r, false, a.dynamic, a.classProperty, getter, setter, optional)))
      case _ => Malformed
  }

  function PropertyAfter(p: Property): Property {
    if p.readOnly then p.(setter := "") else p
  }

  function PropertyField(p: Property, k: Key): Field<Json> {
    match k
    case KAttr => AsArray(Attributes(p))
    case KOptional => AsTruth(p.isOptional)
    case KGetter => Present(Text(p.getter))
    case KSetter => if p.readOnly then Absent else Present(Text(p.setter))
    case _ => RecordField(p.record, k)
  }

  lemma PropertyFieldAt(p: Property, k: Key)
    ensures FieldAt(PropertyJson(p).fields, k) == PropertyField(p, k)
  {
    hide RecordFields, With, FieldAt, Attributes;
    RecordFieldAt(p.record, k);
    if !Common(k) {
      OtherFields(p.record, k);
    }
    hide RecordField;
    var o0 := RecordFields(p.record);
    var o1 := With(o0, KAttr, AsArray(Attributes(p)));
    WithAt(o0, KAttr, AsArray(Attributes(p)), k);
    var o2 := With(o1, KOptional, AsTruth(p.isOptional));
    WithAt(o1, KOptional, AsTruth(p.isOptional), k);
    var o3 := With(o2, KGetter, Present(Text(p.getter)));
    WithAt(o2, KGetter, Present(Text(p.getter)), k);
    WithAt(o3, KSetter, Present(Text(p.setter)), k);
  }

  lemma PropertyFields(p: Property)
    ensures var o := PropertyJson(p).fields;
            Carries(o, p.record) && ArrayAt(o, KAttr) == Attributes(p) && TruthAt(o, KOptional) == p.isOptional &&
            TextAt(o, KGetter) == Present(p.getter) &&
              TextAt(o, KSetter) == if p.readOnly then Absent else Present(p.setter)
  {
    hide RecordFields, Carries, With, FieldAt, Attributes;
    var o := PropertyJson(p).fields;
    PropertyFieldAt(p, KAttr);
    PropertyFieldAt(p, KOptional);
    PropertyFieldAt(p, KGetter);
    PropertyFieldAt(p, KSetter);
    forall k | Common(k) ensures FieldAt(o, k) == RecordField(p.record, k) {
      PropertyFieldAt(p, k);
    }
    CarriesAll(o, p.record);
  }

  lemma PropertyBack(p: Property)
    requires RecordOk(p.record) && Bare(p.record)
    ensures ParseProperty(PropertyJson(p)) == Parsed(PropertyAfter(p))
  {
    hide RecordFields, ParseRecord, ParseLinkage, ParseFlags, Carries, With, Attributes, ParseAttributes;
    hide TextAt, ArrayAt, TruthAt, PropertyJson;
    PropertyFields(p);
    RecordBack(PropertyJson(p).fields, p.record);
    AttributesBack(p);
  }

  // ----- instance variables -----

  function IvarJson(v: Ivar): Json {
    Object(With(RecordFields(v.record), KAccessControl, AsText(ControlText(v.control))))
  }

  function ParseIvar(j: Json): Parsed<Ivar> {
    if !j.Object? then Malformed
    else
      match (ParseRecord(j.fields), ParseControl(j.fields), ParseLinkage(j.fields))
      case (Parsed(r), Parsed(control), Parsed(linkage)) => Parsed(Ivar(r.(linkage := linkage), control))
      case _ => Malformed
  }

  /** The control that is read is made up from the access. */
  function IvarAfter(v: Ivar): Parsed<Ivar> {
    match v.record.access
    case NoAccess => Parsed(v.(control := NoControl))
    case Private => Parsed(v.(control := PrivateControl))
    case Public => Parsed(v.(control := ProtectedControl))
    case Project => Malformed
  }

  lemma IvarBack(v: Ivar)
    requires RecordOk(v.record) && v.record.flags == NO_FLAGS
    ensures ParseIvar(IvarJson(v)) == IvarAfter(v)
  {
    hide RecordFields, ParseRecord, ParseLinkage, ParseFlags, Carries, With, FieldAt;
    var base, o := RecordFields(v.record), IvarJson(v).fields;
    forall k
      ensures FieldAt(o, k) == if k == KAccessControl then AsText(ControlText(v.control)) else RecordField(v.record, k)
    {
      RecordFieldAt(v.record, k);
      WithAt(base, KAccessControl, AsText(ControlText(v.control)), k);
    }
    CarriesAll(o, v.record);
    RecordBack(o, v.record);
  }
}

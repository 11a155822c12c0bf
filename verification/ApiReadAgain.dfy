/** Whatever API was read from a document can be written and read again. */
module ApiReadAgain {
  import opened InterfaceAlgebra
  import opened PackedVersions
  import opened ApiRecords
  import opened ApiJson
  import opened ApiRoundTrip
  import opened ApiStore
  import opened ApiMerged

  // ----- locations -----

  /** A location without a file is written as no location. */
  predicate Located(r: Record) {
    r.loc.file == "" ==> r.loc.line == 0 && r.loc.column == 0
  }

  predicate PartsLocated(c: Container) {
    Located(c.record) && (forall i :: 0 <= i < |c.methods| ==> Located(c.methods[i].record)) &&
    (forall i :: 0 <= i < |c.properties| ==> Located(c.properties[i].record)) &&
    forall i :: 0 <= i < |c.ivars| ==> Located(c.ivars[i].record)
  }

  /** No record of a document has a location without a file. */
  predicate AllLocated(d: Data) {
    (forall i :: 0 <= i < |d.typedefs| ==> Located(d.typedefs[i])) &&
    (forall i :: 0 <= i < |d.enums| ==> Located(d.enums[i])) &&
    (forall i :: 0 <= i < |d.globals| ==> Located(d.globals[i].record)) &&
    (forall i :: 0 <= i < |d.protocols| ==> PartsLocated(d.protocols[i])) &&
    (forall i :: 0 <= i < |d.classes| ==> PartsLocated(d.classes[i].container)) &&
    forall i :: 0 <= i < |d.categories| ==> PartsLocated(d.categories[i].container)
  }

  // ----- what the parsers give -----

  lemma NumbersFit(s: string)
    ensures ParseNumber(s).Parsed? ==> ParseNumber(s).value < UINT32_LIMIT
    ensures ParseVersion(s).Parsed? ==> ParseVersion(s).value < UINT32_LIMIT
  {
    var parts := PackedVersions.Split(s);
    ClampedInRange(parts, Taken(parts, 0, 0xFFFF, 0xFF));
    hide Clamped, Taken, Accepted32;
  }

  lemma LocFits(s: string)
    requires ParseLoc(s).Parsed?
    ensures ParseLoc(s).value.line < UINT32_LIMIT && ParseLoc(s).value.column < UINT32_LIMIT
  {
    hide ParseNumber, SplitLast;
    var right := SplitLast(s, ':');
    NumbersFit(right.1);
    NumbersFit(SplitLast(right.0, ':').1);
  }

  lemma AvailabilityFits(s: string)
    requires ParseAvailability(s).Parsed?
    ensures ParseAvailability(s).value.introduced < UINT32_LIMIT && ParseAvailability(s).value.obsoleted < UINT32_LIMIT
  {
    hide ParseNumber, ParseVersion, SplitFirst;
    var first := SplitFirst(Labelled(s, 'i').value, ' ');
    NumbersFit(first.0);
    NumbersFit(SplitFirst(Labelled(first.1, 'o').value, ' ').0);
  }

  lemma RecordRead(o: Fields)
    requires ParseRecord(o).Parsed? && Located(ParseRecord(o).value)
    ensures RecordOk(ParseRecord(o).value) && Bare(ParseRecord(o).value)
  {
    hide ParseLoc, ParseAvailability;
    if TextAt(o, KLoc).Present? { LocFits(TextAt(o, KLoc).value); }
    if TextAt(o, KAvailability).Present? { AvailabilityFits(TextAt(o, KAvailability).value); }
  }

  predicate MethodOk(m: Method) { Located(m.record) ==> RecordOk(m.record) && Bare(m.record) }

  predicate PropertyOk(p: Property) { Located(p.record) ==> RecordOk(p.record) && Bare(p.record) }

  predicate IvarOk(v: Ivar) {
    v.record.access != Project && (Located(v.record) ==> RecordOk(v.record) && v.record.flags == NO_FLAGS)
  }

  lemma MethodRead(j: Json, isInstance: bool)
    requires ParseMethod(j, isInstance).Parsed?
    ensures MethodOk(ParseMethod(j, isInstance).value)
  {
    hide ParseRecord;
    if Located(ParseRecord(j.fields).value) { RecordRead(j.fields); }
  }

  lemma PropertyRead(j: Json)
    requires ParseProperty(j).Parsed?
    ensures PropertyOk(ParseProperty(j).value)
  {
    hide ParseRecord, ParseAttributes;
    if Located(ParseRecord(j.fields).value) { RecordRead(j.fields); }
  }

  lemma IvarIsRead(j: Json)
    requires ParseIvar(j).Parsed?
    ensures IvarOk(ParseIvar(j).value)
  {
    assert ParseRecord(j.fields).value.access != Project by {
      hide ParseLocAt, ParseAvailabilityAt, ParseLinkage;
    }
    hide ParseRecord, ParseLinkage, ParseControl;
    if Located(ParseRecord(j.fields).value) { RecordRead(j.fields); }
  }

  lemma {:induction false} EachRead<T>(items: seq<Json>, parse: Json -> Parsed<T>, i: nat)
    requires ParseEach(items, parse).Parsed? && i < |ParseEach(items, parse).value|
    ensures exists j :: j in items && parse(j) == Parsed(ParseEach(items, parse).value[i])
  {
    var n := |items| - 1;
    var front := ParseEach(items[..n], parse).value;
    if i < |front| {
      EachRead(items[..n], parse, i);
      var j :| j in items[..n] && parse(j) == Parsed(front[i]);
      assert j in items;
    } else {
      assert items[n] in items;
    }
  }

  // ----- containers -----

  lemma MethodsRead(items: seq<Json>, isInstance: bool)
    requires ParseEach(items, ReadMethod(isInstance)).Parsed?
    ensures var ms := ParseEach(items, ReadMethod(isInstance)).value;
            forall i :: 0 <= i < |ms| ==> MethodOk(ms[i])
  {
    hide ParseMethod, MethodOk;
    var ms := ParseEach(items, ReadMethod(isInstance)).value;
    forall i | 0 <= i < |ms| ensures MethodOk(ms[i]) {
      EachRead(items, ReadMethod(isInstance), i);
      var j :| j in items && ReadMethod(isInstance)(j) == Parsed(ms[i]);
      MethodRead(j, isInstance);
    }
  }

  lemma PropertiesRead(items: seq<Json>)
    requires ParseEach(items, ParseProperty).Parsed?
    ensures var ps := ParseEach(items, ParseProperty).value; forall i :: 0 <= i < |ps| ==> PropertyOk(ps[i])
  {
    hide ParseProperty, PropertyOk;
    var ps := ParseEach(items, ParseProperty).value;
    forall i | 0 <= i < |ps| ensures PropertyOk(ps[i]) {
      EachRead(items, ParseProperty, i);
      var j :| j in items && ParseProperty(j) == Parsed(ps[i]);
      PropertyRead(j);
    }
  }

  lemma IvarsRead(items: seq<Json>)
    requires ParseEach(items, ParseIvar).Parsed?
    ensures var vs := ParseEach(items, ParseIvar).value; forall i :: 0 <= i < |vs| ==> IvarOk(vs[i])
  {
    hide ParseIvar, IvarOk;
    var vs := ParseEach(items, ParseIvar).value;
    forall i | 0 <= i < |vs| ensures IvarOk(vs[i]) {
      EachRead(items, ParseIvar, i);
      var j :| j in items && ParseIvar(j) == Parsed(vs[i]);
      IvarIsRead(j);
    }
  }

  /** What is read of a container can be written and read again. */
  predicate Readable(c: Container) {
    !Unreadable(c) && ContainerOk(c)
  }

  lemma PartsRead(o: Fields, r: Record)
    requires ParseParts(o, r).Parsed? && PartsLocated(ParseParts(o, r).value) && r.flags == NO_FLAGS && RecordOk(r)
    ensures Readable(ParseParts(o, r).value) && ParseParts(o, r).value.record == r
  {
    hide ParseEach, RecordOk, Bare, ArrayAt;
    MethodsRead(ArrayAt(o, KInstanceMethods), true);
    MethodsRead(ArrayAt(o, KClassMethods), false);
    PropertiesRead(ArrayAt(o, KProperties));
    IvarsRead(ArrayAt(o, KIvars));
  }

  lemma ProtocolRead(j: Json)
    requires ParseProtocol(j).Parsed? && PartsLocated(ParseProtocol(j).value)
    ensures Readable(ParseProtocol(j).value) && ParseProtocol(j).value.record.linkage == Unknown
  {
    hide ParseRecord, ParseParts, Readable, RecordOk, Unreadable, ContainerOk;
    var r := ParseRecord(j.fields).value;
    SameRecord(j.fields, r);
    RecordRead(j.fields);
    PartsRead(j.fields, r);
  }

  lemma SameRecord(o: Fields, r: Record)
    ensures ParseParts(o, r).Parsed? ==> ParseParts(o, r).value.record == r
  {
    hide ParseEach;
  }

  lemma CategoryRead(j: Json)
    requires ParseCategory(j).Parsed? && PartsLocated(ParseCategory(j).value.container)
    ensures Readable(ParseCategory(j).value.container) && ParseCategory(j).value.container.record.linkage == Unknown
  {
    hide ParseRecord, ParseParts, Readable, RecordOk, Unreadable, ContainerOk;
    var r := ParseRecord(j.fields).value;
    SameRecord(j.fields, r);
    RecordRead(j.fields);
    PartsRead(j.fields, r);
  }

  lemma ClassIsRead(j: Json)
    requires ParseClass(j).Parsed? && PartsLocated(ParseClass(j).value.container)
    ensures Readable(ParseClass(j).value.container)
  {
    hide ParseRecord, ParseParts, Readable, Unreadable, ContainerOk, ParseLinkage;
    var r := ParseRecord(j.fields).value;
    var linked := r.(linkage := ParseLinkage(j.fields).value);
    SameRecord(j.fields, linked);
    RecordRead(j.fields);
    PartsRead(j.fields, linked);
  }

  lemma GlobalRead(j: Json)
    requires ParseGlobal(j).Parsed? && Located(ParseGlobal(j).value.record)
    ensures RecordOk(ParseGlobal(j).value.record)
  {
    hide ParseRecord, ParseLinkage, ParseKind, ParseFlags;
    RecordRead(j.fields);
  }

  lemma BareRead(j: Json)
    requires ParseBare(j).Parsed? && Located(ParseBare(j).value)
    ensures RecordOk(ParseBare(j).value) && Bare(ParseBare(j).value)
  {
    hide ParseRecord;
    RecordRead(j.fields);
  }

  // ----- the store -----

  /** What holds of all elements added and is kept by joining holds of all stored. */
  lemma {:induction false} AllKept<T(!new), K(!new)>(ts: seq<T>, add: (seq<T>, T) -> seq<T>, key: T -> K,
                                                     join: (T, T) -> T, good: T -> bool)
    requires Keyed(add, key, join) && forall x, y :: good(x) && good(y) ==> good(join(x, y))
    requires forall t :: t in ts ==> good(t)
    ensures forall t :: t in AddEach([], ts, add) ==> good(t)
  {
    if ts != [] {
      var front, t := ts[..|ts| - 1], ts[|ts| - 1];
      AllKept(front, add, key, join, good);
      var before := AddEach([], front, add);
      assert Joins(add(before, t), before, t, key, join);
      hide Keyed;
      var i := JoinedAt(add(before, t), before, t, key, join);
      hide Joins, AddEach;
      assert i < |before| ==> before[i] in before;
    }
  }

  lemma ExtendedReadable(c: Container, d: Container)
    requires Readable(c) && Readable(d)
    ensures Readable(Extended(c, d)) && Extended(c, d).record == c.record
  {
    hide RecordOk, Bare;
  }

  function GlobalName(g: Global): string { g.record.name }

  function JoinGlobal(g: Global, h: Global): Global {
    g.(record := g.record.(access := LowerAccess(g.record.access, h.record.access),
                           linkage := HigherLinkage(g.record.linkage, h.record.linkage)))
  }

  lemma GlobalsAreKeyed()
    ensures Keyed(WithGlobal, GlobalName, JoinGlobal)
  {
    hide LowerAccess, HigherLinkage;
    forall s, t ensures Joins(WithGlobal(s, t), s, t, GlobalName, JoinGlobal) {
      var i := Place(s, t.record.name);
    }
  }

  predicate GoodRecord(r: Record) { RecordOk(r) && Bare(r) }
  predicate GoodGlobal(g: Global) { RecordOk(g.record) }
  predicate GoodProtocol(c: Container) { Readable(c) && c.record.linkage == Unknown }
  predicate GoodClass(c: Class) { Readable(c.container) }
  predicate GoodCategory(c: Category) { Readable(c.container) && c.container.record.linkage == Unknown }

  predicate AllGood(d: Data) {
    (forall r :: r in d.typedefs ==> GoodRecord(r)) && (forall r :: r in d.enums ==> GoodRecord(r)) &&
    (forall g :: g in d.globals ==> GoodGlobal(g)) && (forall c :: c in d.protocols ==> GoodProtocol(c)) &&
    (forall c :: c in d.classes ==> GoodClass(c)) && forall c :: c in d.categories ==> GoodCategory(c)
  }

  lemma RecordsGood(rs: seq<Record>)
    requires forall r :: r in rs ==> GoodRecord(r)
    ensures RecordsOk(AddEach([], rs, WithRecord))
  {
    ListsAreKeyed();
    AllKept(rs, WithRecord, RecordName, KeepFirst, GoodRecord);
    DistinctStored(rs, WithRecord, RecordName, KeepFirst);
    hide Keyed, AddEach, RecordOk, Bare;
    var stored := AddEach([], rs, WithRecord);
    assert forall i :: 0 <= i < |stored| ==> stored[i] in stored;
    assert forall i :: 0 <= i < |stored| ==> RecordName(stored[i]) == stored[i].name;
  }

  lemma GlobalsGood(gs: seq<Global>)
    requires forall g :: g in gs ==> GoodGlobal(g)
    ensures var stored := AddEach([], gs, WithGlobal);
            DistinctGlobals(stored) && forall i :: 0 <= i < |stored| ==> RecordOk(stored[i].record)
  {
    GlobalsAreKeyed();
    AllKept(gs, WithGlobal, GlobalName, JoinGlobal, GoodGlobal);
    DistinctStored(gs, WithGlobal, GlobalName, JoinGlobal);
    hide Keyed, AddEach, RecordOk;
    var stored := AddEach([], gs, WithGlobal);
    assert forall i :: 0 <= i < |stored| ==> stored[i] in stored;
    assert forall i :: 0 <= i < |stored| ==> GlobalName(stored[i]) == stored[i].record.name;
  }

  lemma ProtocolsGood(cs: seq<Container>)
    requires forall c :: c in cs ==> GoodProtocol(c)
    ensures var stored := AddEach([], cs, WithProtocol);
            Distinct(stored, ContainerName) && forall i :: 0 <= i < |stored| ==> GoodProtocol(stored[i])
  {
    ListsAreKeyed();
    forall c, d | GoodProtocol(c) && GoodProtocol(d) ensures GoodProtocol(Extended(c, d)) {
      ExtendedReadable(c, d);
    }
    hide GoodProtocol;
    AllKept(cs, WithProtocol, ContainerName, Extended, GoodProtocol);
    DistinctStored(cs, WithProtocol, ContainerName, Extended);
    hide Keyed, AddEach;
  }

  lemma ClassesGood(cs: seq<Class>)
    requires forall c :: c in cs ==> GoodClass(c)
    ensures var stored := AddEach([], cs, WithClass);
            Distinct(stored, ClassName) && forall i :: 0 <= i < |stored| ==> GoodClass(stored[i])
  {
    ListsAreKeyed();
    forall c, d | GoodClass(c) && GoodClass(d) ensures GoodClass(JoinClass(c, d)) {
      ExtendedReadable(c.container, d.container);
    }
    hide GoodClass;
    AllKept(cs, WithClass, ClassName, JoinClass, GoodClass);
    DistinctStored(cs, WithClass, ClassName, JoinClass);
    hide Keyed, AddEach;
  }

  lemma CategoriesGood(cs: seq<Category>)
    requires forall c :: c in cs ==> GoodCategory(c)
    ensures var stored := AddEach([], cs, WithCategory);
            Distinct(stored, CategoryName) && forall i :: 0 <= i < |stored| ==> GoodCategory(stored[i])
  {
    ListsAreKeyed();
    forall c, d | GoodCategory(c) && GoodCategory(d) ensures GoodCategory(JoinCategory(c, d)) {
      ExtendedReadable(c.container, d.container);
    }
    hide GoodCategory;
    AllKept(cs, WithCategory, CategoryName, JoinCategory, GoodCategory);
    DistinctStored(cs, WithCategory, CategoryName, JoinCategory);
    hide Keyed, AddEach;
  }

  /** Linking changes no container. */
  lemma {:induction false} LinkedContainers(cs: seq<Class>, cats: seq<Category>)
    ensures |AddEach(cs, cats, Linked)| == |cs|
    ensures forall i :: 0 <= i < |cs| ==> AddEach(cs, cats, Linked)[i].container == cs[i].container
  {
    if cats != [] {
      LinkedContainers(cs, cats[..|cats| - 1]);
    }
  }

  lemma FilledGood(more: Data)
    requires AllGood(more)
    ensures var d := Filled(Data([], [], [], [], [], []), more); DataOk(d) && !AnyUnreadable(d)
  {
    hide Readable, GoodRecord, GoodGlobal;
    RecordsGood(more.typedefs);
    RecordsGood(more.enums);
    GlobalsGood(more.globals);
    ProtocolsGood(more.protocols);
    ClassesGood(more.classes);
    CategoriesGood(more.categories);
    hide AllGood;
    var classes := AddEach([], more.classes, WithClass);
    LinkedContainers(classes, more.categories);
    hide AddEach, RecordsOk, DistinctGlobals;
    NowOk(Filled(Data([], [], [], [], [], []), more), classes);
  }

  lemma NowOk(d: Data, classes: seq<Class>)
    requires RecordsOk(d.typedefs) && RecordsOk(d.enums) && DistinctGlobals(d.globals)
    requires forall i :: 0 <= i < |d.globals| ==> RecordOk(d.globals[i].record)
    requires Distinct(d.protocols, ContainerName) && forall i :: 0 <= i < |d.protocols| ==> GoodProtocol(d.protocols[i])
    requires Distinct(classes, ClassName) && forall i :: 0 <= i < |classes| ==> GoodClass(classes[i])
    requires |d.classes| == |classes|
    requires forall i :: 0 <= i < |classes| ==> d.classes[i].container == classes[i].container
    requires Distinct(d.categories, CategoryName)
    requires forall i :: 0 <= i < |d.categories| ==> GoodCategory(d.categories[i])
    ensures DataOk(d) && !AnyUnreadable(d)
  {
    hide RecordsOk, DistinctGlobals, ContainerOk, Unreadable, RecordOk;
    assert forall i :: 0 <= i < |classes| ==> ClassName(classes[i]) == d.classes[i].container.record.name;
  }

  lemma ArraysGood(root: Fields)
    requires Arrays(root).Parsed? && AllLocated(Arrays(root).value)
    ensures AllGood(Arrays(root).value)
  {
    var d := Arrays(root).value;
    hide ArrayAt, ParseEach, ParseGlobal, ParseProtocol, ParseClass, ParseCategory, ParseBare, Located, PartsLocated;
    hide Readable, RecordOk, Bare;
    forall i | 0 <= i < |d.typedefs| ensures GoodRecord(d.typedefs[i]) {
      EachRead(ArrayAt(root, KTypedefs), ParseBare, i);
      var j :| ParseBare(j) == Parsed(d.typedefs[i]);
      BareRead(j);
    }
    forall i | 0 <= i < |d.enums| ensures GoodRecord(d.enums[i]) {
      EachRead(ArrayAt(root, KEnums), ParseBare, i);
      var j :| ParseBare(j) == Parsed(d.enums[i]);
      BareRead(j);
    }
    forall i | 0 <= i < |d.globals| ensures GoodGlobal(d.globals[i]) {
      EachRead(ArrayAt(root, KGlobals), ParseGlobal, i);
      var j :| ParseGlobal(j) == Parsed(d.globals[i]);
      GlobalRead(j);
    }
    forall i | 0 <= i < |d.protocols| ensures GoodProtocol(d.protocols[i]) {
      EachRead(ArrayAt(root, KProtocols), ParseProtocol, i);
      var j :| ParseProtocol(j) == Parsed(d.protocols[i]);
      ProtocolRead(j);
    }
    forall i | 0 <= i < |d.classes| ensures GoodClass(d.classes[i]) {
      EachRead(ArrayAt(root, KInterfaces), ParseClass, i);
      var j :| ParseClass(j) == Parsed(d.classes[i]);
      ClassIsRead(j);
    }
    forall i | 0 <= i < |d.categories| ensures GoodCategory(d.categories[i]) {
      EachRead(ArrayAt(root, KCategories), ParseCategory, i);
      var j :| ParseCategory(j) == Parsed(d.categories[i]);
      CategoryRead(j);
    }
  }

  /** Whatever document was read into an empty store, as long as no location in it lacks a
      file: the API has what the round trip asks for, and reading what is written of it
      succeeds and gives its normal form. */
  lemma ReadAgain(root: Fields, again: Fields)
    requires Arrays(root).Parsed? && AllLocated(Arrays(root).value)
    requires IsJsonOf(again, Filled(Data([], [], [], [], [], []), Arrays(root).value))
    ensures var empty := Data([], [], [], [], [], []);
            var d := Filled(empty, Arrays(root).value);
            DataOk(d) && !AnyUnreadable(d) && Arrays(again).Parsed? && Filled(empty, Arrays(again).value) == After(d)
  {
    ArraysGood(root);
    hide AllGood, Arrays, Filled, IsJsonOf, DataOk, AnyUnreadable, AllLocated, After;
    FilledGood(Arrays(root).value);
    ApiBack(again, Filled(Data([], [], [], [], [], []), Arrays(root).value));
  }
}

/** The store of records that the parser fills, and the round trip of a whole API. */
module ApiStore {
  import opened InterfaceAlgebra
  import opened ApiRecords
  import opened ApiJson
  import opened ApiRoundTrip

  datatype Data = Data(typedefs: seq<Record>, globals: seq<Global>, enums: seq<Record>, protocols: seq<Container>,
                       classes: seq<Class>, categories: seq<Category>)

  // ----- keyed additions -----

  function Find<T>(s: seq<T>, same: T -> bool): (i: nat)
    ensures i <= |s| && (i < |s| ==> same(s[i])) && forall j :: 0 <= j < i ==> !same(s[j])
  {
    if s == [] then 0 else if same(s[0]) then 0 else 1 + Find(s[1..], same)
  }

  /** The first record of a name stays. */
  function WithRecord(rs: seq<Record>, r: Record): seq<Record> {
    if Find(rs, (s: Record) => s.name == r.name) == |rs| then rs + [r] else rs
  }

  /** What is read into a container that is already there. */
  function Extended(c: Container, more: Container): Container {
    c.(methods := c.methods + more.methods, properties := c.properties + more.properties, ivars := c.ivars + more.ivars,
       protocols := c.protocols + more.protocols)
  }

  function WithProtocol(cs: seq<Container>, c: Container): seq<Container> {
    var i := Find(cs, (d: Container) => d.record.name == c.record.name);
    if i == |cs| then cs + [c] else cs[i := Extended(cs[i], c)]
  }

  function WithClass(cs: seq<Class>, c: Class): seq<Class> {
    var i := Find(cs, (d: Class) => d.container.record.name == c.container.record.name);
    if i == |cs| then cs + [c]
    else cs[i := cs[i].(container := Extended(cs[i].container, c.container), hasException := c.hasException)]
  }

  function WithCategory(cs: seq<Category>, c: Category): seq<Category> {
    var n := c.container.record.name;
    var i := Find(cs, (d: Category) => d.interface == c.interface && d.container.record.name == n);
    if i == |cs| then cs + [c] else cs[i := cs[i].(container := Extended(cs[i].container, c.container))]
  }

  /** A category is listed with its interface, if that is there. */
  function Linked(cs: seq<Class>, c: Category): seq<Class> {
    var i := Find(cs, (d: Class) => d.container.record.name == c.interface);
    if i == |cs| then cs else cs[i := cs[i].(categories := cs[i].categories + [c.container.record.name])]
  }

  // ----- reading into the store -----

  class API {
    var typedefs: seq<Record>
    var globals: seq<Global>
    var enums: seq<Record>
    var protocols: seq<Container>
    var classes: seq<Class>
    var categories: seq<Category>

    constructor ()
      ensures Value() == Data([], [], [], [], [], [])
    {
      typedefs, globals, enums, protocols, classes, categories := [], [], [], [], [], [];
    }

    function Value(): Data reads this {
      Data(typedefs, globals, enums, protocols, classes, categories)
    }

    method AddGlobal(g: Global)
      modifies `globals
      ensures globals == WithGlobal(old(globals), g)
    {
      var i := 0;
      while i < |globals| && globals[i].record.name != g.record.name
        invariant 0 <= i <= |globals| && globals == old(globals)
        invariant forall j :: 0 <= j < i ==> globals[j].record.name != g.record.name
      {
        i := i + 1;
      }
      if i == |globals| {
        globals := globals + [g];
      } else {
        var r := globals[i].record;
        var access := if AccessRank(r.access) <= AccessRank(g.record.access) then r.access else g.record.access;
        var linkage := if LinkageRank(r.linkage) >= LinkageRank(g.record.linkage) then r.linkage else g.record.linkage;
        globals := globals[i := globals[i].(record := r.(access := access, linkage := linkage))];
      }
    }

    method AddCategory(c: Category)
      modifies `categories, `classes
      ensures categories == WithCategory(old(categories), c) && classes == Linked(old(classes), c)
    {
      categories := WithCategory(categories, c);
      classes := Linked(classes, c);
    }

    method ParseGlobals(items: seq<Json>) returns (ok: bool)
      modifies `globals
      ensures ok <==> ParseEach(items, ParseGlobal).Parsed?
      ensures ok ==> globals == AddEach(old(globals), ParseEach(items, ParseGlobal).value, WithGlobal)
    {
      ghost var rs := [];
      for i := 0 to |items|
        invariant ParseEach(items[..i], ParseGlobal) == Parsed(rs) && globals == AddEach(old(globals), rs, WithGlobal)
      {
        hide ParseGlobal, WithGlobal;
        ParseNext(items, ParseGlobal, i);
        var g := ParseGlobal(items[i]);
        if g.Malformed? {
          EachMalformed(items, ParseGlobal, i);
          return false;
        }
        AddNext(old(globals), rs, g.value, WithGlobal);
        AddGlobal(g.value);
        rs := rs + [g.value];
      }
      assert items[..|items|] == items;
      return true;
    }

    method ParseProtocols(items: seq<Json>) returns (ok: bool)
      modifies `protocols
      ensures ok <==> ParseEach(items, ParseProtocol).Parsed?
      ensures ok ==> protocols == AddEach(old(protocols), ParseEach(items, ParseProtocol).value, WithProtocol)
    {
      ghost var rs := [];
      for i := 0 to |items|
        invariant ParseEach(items[..i], ParseProtocol) == Parsed(rs) &&
                  protocols == AddEach(old(protocols), rs, WithProtocol)
      {
        hide ParseProtocol, WithProtocol;
        ParseNext(items, ParseProtocol, i);
        var c := ParseProtocol(items[i]);
        if c.Malformed? {
          EachMalformed(items, ParseProtocol, i);
          return false;
        }
        AddNext(old(protocols), rs, c.value, WithProtocol);
        protocols := WithProtocol(protocols, c.value);
        rs := rs + [c.value];
      }
      assert items[..|items|] == items;
      return true;
    }

    method ParseClasses(items: seq<Json>) returns (ok: bool)
      modifies `classes
      ensures ok <==> ParseEach(items, ParseClass).Parsed?
      ensures ok ==> classes == AddEach(old(classes), ParseEach(items, ParseClass).value, WithClass)
    {
      ghost var rs := [];
      for i := 0 to |items|
        invariant ParseEach(items[..i], ParseClass) == Parsed(rs) && classes == AddEach(old(classes), rs, WithClass)
      {
        hide ParseClass, WithClass;
        ParseNext(items, ParseClass, i);
        var c := ParseClass(items[i]);
        if c.Malformed? {
          EachMalformed(items, ParseClass, i);
          return false;
        }
        AddNext(old(classes), rs, c.value, WithClass);
        classes := WithClass(classes, c.value);
        rs := rs + [c.value];
      }
      assert items[..|items|] == items;
      return true;
    }

    method ParseCategories(items: seq<Json>) returns (ok: bool)
      modifies `categories, `classes
      ensures ok <==> ParseEach(items, ParseCategory).Parsed?
      ensures ok ==> categories == AddEach(old(categories), ParseEach(items, ParseCategory).value, WithCategory)
      ensures ok ==> classes == AddEach(old(classes), ParseEach(items, ParseCategory).value, Linked)
    {
      ghost var rs := [];
      for i := 0 to |items|
        invariant ParseEach(items[..i], ParseCategory) == Parsed(rs)
        invariant categories == AddEach(old(categories), rs, WithCategory) &&
                  classes == AddEach(old(classes), rs, Linked)
      {
        hide ParseCategory, WithCategory, Linked;
        ParseNext(items, ParseCategory, i);
        var c := ParseCategory(items[i]);
        if c.Malformed? {
          EachMalformed(items, ParseCategory, i);
          return false;
        }
        AddNext(old(categories), rs, c.value, WithCategory);
        AddNext(old(classes), rs, c.value, Linked);
        AddCategory(c.value);
        rs := rs + [c.value];
      }
      assert items[..|items|] == items;
      return true;
    }

    /** Enum constants and typedefs are read alike. */
    method ParseBares(rs0: seq<Record>, items: seq<Json>) returns (ok: bool, rs: seq<Record>)
      ensures ok <==> ParseEach(items, ParseBare).Parsed?
      ensures ok ==> rs == AddEach(rs0, ParseEach(items, ParseBare).value, WithRecord)
    {
      rs := rs0;
      ghost var done := [];
      for i := 0 to |items|
        invariant ParseEach(items[..i], ParseBare) == Parsed(done) && rs == AddEach(rs0, done, WithRecord)
      {
        hide ParseBare, WithRecord;
        ParseNext(items, ParseBare, i);
        var r := ParseBare(items[i]);
        if r.Malformed? {
          EachMalformed(items, ParseBare, i);
          return false, rs;
        }
        AddNext(rs0, done, r.value, WithRecord);
        rs := WithRecord(rs, r.value);
        done := done + [r.value];
      }
      assert items[..|items|] == items;
      return true, rs;
    }

    /** Interfaces come before categories, so that every category finds its own. */
    method Parse(root: Fields) returns (ok: bool)
      modifies this
      ensures ok <==> Arrays(root).Parsed?
      ensures ok ==> Value() == Filled(old(Value()), Arrays(root).value)
    {
      hide AddEach, ParseEach, ArrayAt;
      ok := ParseGlobals(ArrayAt(root, KGlobals));
      if !ok { return; }
      ok := ParseProtocols(ArrayAt(root, KProtocols));
      if !ok { return; }
      ok := ParseClasses(ArrayAt(root, KInterfaces));
      if !ok { return; }
      ok := ParseCategories(ArrayAt(root, KCategories));
      if !ok { return; }
      ok, enums := ParseBares(enums, ArrayAt(root, KEnums));
      if !ok { return; }
      ok, typedefs := ParseBares(typedefs, ArrayAt(root, KTypedefs));
    }
  }

  /** The records in the arrays of a document. */
  function Arrays(root: Fields): Parsed<Data> {
    var globals, protocols := ParseEach(ArrayAt(root, KGlobals), ParseGlobal),
      ParseEach(ArrayAt(root, KProtocols), ParseProtocol);
    var classes, categories := ParseEach(ArrayAt(root, KInterfaces), ParseClass),
      ParseEach(ArrayAt(root, KCategories), ParseCategory);
    var enums, typedefs := ParseEach(ArrayAt(root, KEnums), ParseBare), ParseEach(ArrayAt(root, KTypedefs), ParseBare);
    if globals.Malformed? || protocols.Malformed? || classes.Malformed? || categories.Malformed? || enums.Malformed? ||
       typedefs.Malformed?
    then Malformed
    else Parsed(Data(typedefs.value, globals.value, enums.value, protocols.value, classes.value, categories.value))
  }

  /** A store after all records of the arrays were added to it. */
  function Filled(d: Data, more: Data): Data {
    Data(AddEach(d.typedefs, more.typedefs, WithRecord), AddEach(d.globals, more.globals, WithGlobal),
         AddEach(d.enums, more.enums, WithRecord), AddEach(d.protocols, more.protocols, WithProtocol),
         AddEach(AddEach(d.classes, more.classes, WithClass), more.categories, Linked),
         AddEach(d.categories, more.categories, WithCategory))
  }

  // ----- writing -----

  function WriteGlobal(): Global -> Json { g => GlobalJson(g) }
  function WriteRecord(): Record -> Json { r => RecordJson(r) }
  function WriteProtocol(): Container -> Json { c => ProtocolJson(c) }
  function WriteClass(): Class -> Json { c => ClassJson(c) }
  function WriteCategory(): Category -> Json { c => CategoryJson(c) }

  function RootField(d: Data, k: Key): Field<Json> {
    match k
    case KGlobals => AsArray(JsonOf(d.globals, WriteGlobal()))
    case KInterfaces => AsArray(JsonOf(d.classes, WriteClass()))
    case KCategories => AsArray(JsonOf(d.categories, WriteCategory()))
    case KProtocols => AsArray(JsonOf(d.protocols, WriteProtocol()))
    case KEnums => AsArray(JsonOf(d.enums, WriteRecord()))
    case KTypedefs => AsArray(JsonOf(d.typedefs, WriteRecord()))
    case _ => Absent
  }

  /** Each array under its key, empty ones left out. */
  ghost predicate IsJsonOf(root: Fields, d: Data) {
    forall k :: FieldAt(root, k) == RootField(d, k)
  }

  method Serialize(d: Data) returns (root: Fields)
    ensures IsJsonOf(root, d)
  {
    var typedefs := SerializeEach(d.typedefs, WriteRecord());
    var globals := SerializeEach(d.globals, WriteGlobal());
    var enums := SerializeEach(d.enums, WriteRecord());
    var protocols := SerializeEach(d.protocols, WriteProtocol());
    var classes := SerializeEach(d.classes, WriteClass());
    var categories := SerializeEach(d.categories, WriteCategory());
    hide JsonOf, With, IsJsonOf, AsArray, FieldAt;
    root := map[];
    root := With(root, KGlobals, AsArray(globals));
    root := With(root, KInterfaces, AsArray(classes));
    root := With(root, KCategories, AsArray(categories));
    root := With(root, KProtocols, AsArray(protocols));
    root := With(root, KEnums, AsArray(enums));
    root := With(root, KTypedefs, AsArray(typedefs));
    RootIs(d);
  }

  function RootFields(d: Data): Fields {
    var o := With(map[], KGlobals, RootField(d, KGlobals));
    var o := With(o, KInterfaces, RootField(d, KInterfaces));
    var o := With(o, KCategories, RootField(d, KCategories));
    var o := With(o, KProtocols, RootField(d, KProtocols));
    var o := With(o, KEnums, RootField(d, KEnums));
    With(o, KTypedefs, RootField(d, KTypedefs))
  }

  lemma RootIs(d: Data)
    ensures IsJsonOf(RootFields(d), d)
  {
    hide RootFields, JsonOf;
    forall k ensures FieldAt(RootFields(d), k) == RootField(d, k) {
      RootFieldAt(d, k);
    }
  }

  lemma RootFieldAt(d: Data, k: Key)
    ensures FieldAt(RootFields(d), k) == RootField(d, k)
  {
    hide FieldAt, With, JsonOf;
    var o1 := With(map[], KGlobals, RootField(d, KGlobals));
    WithAt(map[], KGlobals, RootField(d, KGlobals), k);
    var o2 := With(o1, KInterfaces, RootField(d, KInterfaces));
    WithAt(o1, KInterfaces, RootField(d, KInterfaces), k);
    var o3 := With(o2, KCategories, RootField(d, KCategories));
    WithAt(o2, KCategories, RootField(d, KCategories), k);
    var o4 := With(o3, KProtocols, RootField(d, KProtocols));
    WithAt(o3, KProtocols, RootField(d, KProtocols), k);
    var o5 := With(o4, KEnums, RootField(d, KEnums));
    WithAt(o4, KEnums, RootField(d, KEnums), k);
    WithAt(o5, KTypedefs, RootField(d, KTypedefs), k);
    NoField(k);
  }

  lemma NoField(k: Key)
    ensures FieldAt(map[], k) == Absent
  {
  }

  // ----- the round trip -----

  predicate RecordsOk(rs: seq<Record>) {
    (forall i :: 0 <= i < |rs| ==> RecordOk(rs[i]) && Bare(rs[i])) &&
    forall i, j :: 0 <= i < j < |rs| ==> rs[i].name != rs[j].name
  }

  /** What the constructors of the records and the keyed maps guarantee. */
  predicate DataOk(d: Data) {
    RecordsOk(d.typedefs) && RecordsOk(d.enums) && DistinctGlobals(d.globals) &&
    (forall i :: 0 <= i < |d.globals| ==> RecordOk(d.globals[i].record)) &&
    (forall i :: 0 <= i < |d.protocols| ==> ContainerOk(d.protocols[i]) && d.protocols[i].record.linkage == Unknown) &&
    (forall i :: 0 <= i < |d.classes| ==> ContainerOk(d.classes[i].container)) &&
    (forall i :: 0 <= i < |d.categories| ==>
       ContainerOk(d.categories[i].container) && d.categories[i].container.record.linkage == Unknown) &&
    DistinctContainers(d)
  }

  predicate DistinctContainers(d: Data) {
    (forall i, j :: 0 <= i < j < |d.protocols| ==> d.protocols[i].record.name != d.protocols[j].record.name) &&
    (forall i, j :: 0 <= i < j < |d.classes| ==>
      d.classes[i].container.record.name != d.classes[j].container.record.name) &&
    (forall i, j :: 0 <= i < j < |d.categories| ==>
       d.categories[i].interface != d.categories[j].interface ||
       d.categories[i].container.record.name != d.categories[j].container.record.name)
  }

  predicate AnyUnreadable(d: Data) {
    (exists i :: 0 <= i < |d.protocols| && Unreadable(d.protocols[i])) ||
    (exists i :: 0 <= i < |d.classes| && Unreadable(d.classes[i].container)) ||
    (exists i :: 0 <= i < |d.categories| && Unreadable(d.categories[i].container))
  }

  /** The categories of an interface, in the order of all categories. */
  function CategoriesOf(cs: seq<Category>, interface: string): seq<string> {
    if cs == [] then []
    else CategoriesOf(cs[..|cs| - 1], interface) +
         if cs[|cs| - 1].interface == interface then [cs[|cs| - 1].container.record.name] else []
  }

  function ClassRead(c: Class): Class
    requires !Unreadable(c.container)
  {
    Class(PartsAfter(c.container), c.super, c.hasException, [])
  }

  function ReadData(d: Data): Data
    requires !AnyUnreadable(d)
  {
    d.(protocols := seq(|d.protocols|, i requires 0 <= i < |d.protocols| && !Unreadable(d.protocols[i]) =>
         PartsAfter(d.protocols[i])),
       classes := seq(|d.classes|, i requires 0 <= i < |d.classes| && !Unreadable(d.classes[i].container) =>
         ClassRead(d.classes[i])),
       categories := seq(|d.categories|, i requires 0 <= i < |d.categories| && !Unreadable(d.categories[i].container) =>
         d.categories[i].(container := PartsAfter(d.categories[i].container))))
  }

  /** An API after it was written and read: each container after its own trip, and
      each interface linked to all its categories. */
  function After(d: Data): Data
    requires !AnyUnreadable(d)
  {
    var r := ReadData(d);
    r.(classes := seq(|r.classes|, i requires 0 <= i < |r.classes| =>
         r.classes[i].(categories := CategoriesOf(d.categories, r.classes[i].container.record.name))))
  }

  lemma GlobalsBack(gs: seq<Global>)
    requires forall i :: 0 <= i < |gs| ==> RecordOk(gs[i].record)
    ensures ParseEach(JsonOf(gs, WriteGlobal()), ParseGlobal) == Parsed(gs)
  {
    hide GlobalJson, ParseGlobal, RecordOk;
    var items := JsonOf(gs, WriteGlobal());
    forall i | 0 <= i < |items| ensures ParseGlobal(items[i]) == Parsed(gs[i]) {
      GlobalBack(gs[i]);
    }
    EachParsed(items, ParseGlobal, gs);
  }

  lemma RecordsBack(rs: seq<Record>)
    requires RecordsOk(rs)
    ensures ParseEach(JsonOf(rs, WriteRecord()), ParseBare) == Parsed(rs)
  {
    hide RecordJson, ParseBare, RecordOk, Bare;
    var items := JsonOf(rs, WriteRecord());
    forall i | 0 <= i < |items| ensures ParseBare(items[i]) == Parsed(rs[i]) {
      BareBack(rs[i]);
    }
    EachParsed(items, ParseBare, rs);
  }

  lemma ProtocolListBack(d: Data)
    requires DataOk(d)
    ensures (exists i :: 0 <= i < |d.protocols| && Unreadable(d.protocols[i])) ==>
              ParseEach(JsonOf(d.protocols, WriteProtocol()), ParseProtocol) == Malformed
    ensures !AnyUnreadable(d) ==>
            ParseEach(JsonOf(d.protocols, WriteProtocol()), ParseProtocol) == Parsed(ReadData(d).protocols)
  {
    hide ProtocolJson, ParseProtocol, Unreadable, PartsAfter, ContainerOk;
    var items := JsonOf(d.protocols, WriteProtocol());
    forall i | 0 <= i < |items|
      ensures ParseProtocol(items[i])
           == if Unreadable(d.protocols[i]) then Malformed else Parsed(PartsAfter(d.protocols[i]))
    {
      ProtocolBack(d.protocols[i]);
    }
    if i :| 0 <= i < |d.protocols| && Unreadable(d.protocols[i]) {
      EachMalformed(items, ParseProtocol, i);
    }
    if !AnyUnreadable(d) {
      EachParsed(items, ParseProtocol, ReadData(d).protocols);
    }
  }

  lemma ClassListBack(d: Data)
    requires DataOk(d)
    ensures (exists i :: 0 <= i < |d.classes| && Unreadable(d.classes[i].container)) ==>
              ParseEach(JsonOf(d.classes, WriteClass()), ParseClass) == Malformed
    ensures !AnyUnreadable(d) ==> ParseEach(JsonOf(d.classes, WriteClass()), ParseClass) == Parsed(ReadData(d).classes)
  {
    hide ClassJson, ParseClass, Unreadable, PartsAfter, ContainerOk;
    var items := JsonOf(d.classes, WriteClass());
    forall i | 0 <= i < |items|
      ensures ParseClass(items[i])
           == if Unreadable(d.classes[i].container) then Malformed else Parsed(ClassRead(d.classes[i]))
    {
      ClassBack(d.classes[i]);
    }
    if i :| 0 <= i < |d.classes| && Unreadable(d.classes[i].container) {
      EachMalformed(items, ParseClass, i);
    }
    if !AnyUnreadable(d) {
      EachParsed(items, ParseClass, ReadData(d).classes);
    }
  }

  lemma CategoryListBack(d: Data)
    requires DataOk(d)
    ensures (exists i :: 0 <= i < |d.categories| && Unreadable(d.categories[i].container)) ==>
              ParseEach(JsonOf(d.categories, WriteCategory()), ParseCategory) == Malformed
    ensures !AnyUnreadable(d) ==>
            ParseEach(JsonOf(d.categories, WriteCategory()), ParseCategory) == Parsed(ReadData(d).categories)
  {
    hide CategoryJson, ParseCategory, Unreadable, PartsAfter, ContainerOk;
    var items := JsonOf(d.categories, WriteCategory());
    forall i | 0 <= i < |items|
      ensures ParseCategory(items[i])
           == if Unreadable(d.categories[i].container) then Malformed
              else Parsed(d.categories[i].(container := PartsAfter(d.categories[i].container)))
    {
      CategoryBack(d.categories[i]);
    }
    if i :| 0 <= i < |d.categories| && Unreadable(d.categories[i].container) {
      EachMalformed(items, ParseCategory, i);
    }
    if !AnyUnreadable(d) {
      EachParsed(items, ParseCategory, ReadData(d).categories);
    }
  }

  lemma RootArrays(root: Fields, d: Data)
    requires IsJsonOf(root, d)
    ensures ArrayAt(root, KGlobals) == JsonOf(d.globals, WriteGlobal()) &&
            ArrayAt(root, KProtocols) == JsonOf(d.protocols, WriteProtocol())
    ensures ArrayAt(root, KInterfaces) == JsonOf(d.classes, WriteClass())
    ensures ArrayAt(root, KCategories) == JsonOf(d.categories, WriteCategory())
    ensures ArrayAt(root, KEnums) == JsonOf(d.enums, WriteRecord()) &&
            ArrayAt(root, KTypedefs) == JsonOf(d.typedefs, WriteRecord())
  {
    hide JsonOf, FieldAt;
    assert FieldAt(root, KGlobals) == RootField(d, KGlobals) && FieldAt(root, KProtocols) == RootField(d, KProtocols);
    assert FieldAt(root, KInterfaces) == RootField(d, KInterfaces) &&
           FieldAt(root, KCategories) == RootField(d, KCategories);
    assert FieldAt(root, KEnums) == RootField(d, KEnums) && FieldAt(root, KTypedefs) == RootField(d, KTypedefs);
  }

  /** The written arrays can be read unless some container cannot. */
  lemma ArraysBack(root: Fields, d: Data)
    requires IsJsonOf(root, d) && DataOk(d)
    ensures Arrays(root) == if AnyUnreadable(d) then Malformed else Parsed(ReadData(d))
  {
    hide IsJsonOf, ArrayAt, JsonOf, ParseEach, RecordsOk, ContainerOk, Unreadable, DistinctContainers;
    RootArrays(root, d);
    GlobalsBack(d.globals);
    RecordsBack(d.enums);
    RecordsBack(d.typedefs);
    ProtocolListBack(d);
    ClassListBack(d);
    CategoryListBack(d);
  }

  // ----- adding records that are all different -----

  lemma {:induction false} AllNew<T>(rs: seq<T>, add: (seq<T>, T) -> seq<T>)
    requires forall i :: 0 <= i < |rs| ==> add(rs[..i], rs[i]) == rs[..i] + [rs[i]]
    ensures AddEach([], rs, add) == rs
  {
    if rs != [] {
      var front := rs[..|rs| - 1];
      forall i | 0 <= i < |front| ensures add(front[..i], front[i]) == front[..i] + [front[i]] {
        assert front[..i] == rs[..i];
      }
      AllNew(front, add);
      assert rs == front + [rs[|rs| - 1]];
    }
  }

  lemma NewGlobals(gs: seq<Global>)
    requires DistinctGlobals(gs)
    ensures AddEach([], gs, WithGlobal) == gs
  {
    forall i | 0 <= i < |gs| ensures WithGlobal(gs[..i], gs[i]) == gs[..i] + [gs[i]] {
      var before := gs[..i];
      assert forall j :: 0 <= j < i ==> before[j] == gs[j];
    }
    AllNew(gs, WithGlobal);
  }

  lemma NewRecords(rs: seq<Record>)
    requires RecordsOk(rs)
    ensures AddEach([], rs, WithRecord) == rs
  {
    hide AddEach, Extended;
    forall i | 0 <= i < |rs| ensures WithRecord(rs[..i], rs[i]) == rs[..i] + [rs[i]] {
      var before := rs[..i];
      assert forall j :: 0 <= j < i ==> before[j] == rs[j];
    }
    AllNew(rs, WithRecord);
  }

  lemma NewProtocols(cs: seq<Container>)
    requires forall i, j :: 0 <= i < j < |cs| ==> cs[i].record.name != cs[j].record.name
    ensures AddEach([], cs, WithProtocol) == cs
  {
    hide AddEach, Extended;
    forall i | 0 <= i < |cs| ensures WithProtocol(cs[..i], cs[i]) == cs[..i] + [cs[i]] {
      var before := cs[..i];
      assert forall j :: 0 <= j < i ==> before[j] == cs[j];
    }
    AllNew(cs, WithProtocol);
  }

  lemma NewClasses(cs: seq<Class>)
    requires forall i, j :: 0 <= i < j < |cs| ==> cs[i].container.record.name != cs[j].container.record.name
    ensures AddEach([], cs, WithClass) == cs
  {
    hide AddEach, Extended;
    forall i | 0 <= i < |cs| ensures WithClass(cs[..i], cs[i]) == cs[..i] + [cs[i]] {
      var before := cs[..i];
      assert forall j :: 0 <= j < i ==> before[j] == cs[j];
    }
    AllNew(cs, WithClass);
  }

  lemma NewCategories(cs: seq<Category>)
    requires forall i, j :: 0 <= i < j < |cs| ==>
               cs[i].interface != cs[j].interface || cs[i].container.record.name != cs[j].container.record.name
    ensures AddEach([], cs, WithCategory) == cs
  {
    hide AddEach, Extended;
    forall i | 0 <= i < |cs| ensures WithCategory(cs[..i], cs[i]) == cs[..i] + [cs[i]] {
      var before := cs[..i];
      assert forall j :: 0 <= j < i ==> before[j] == cs[j];
    }
    AllNew(cs, WithCategory);
  }

  /** Every category ends up with its interface, in order. */
  lemma {:induction false} LinkedAll(cs: seq<Class>, cats: seq<Category>)
    requires forall i, j :: 0 <= i < j < |cs| ==> cs[i].container.record.name != cs[j].container.record.name
    ensures |AddEach(cs, cats, Linked)| == |cs|
    ensures forall i :: 0 <= i < |cs| ==>
              AddEach(cs, cats, Linked)[i]
                == cs[i].(categories := cs[i].categories + CategoriesOf(cats, cs[i].container.record.name))
  {
    if cats == [] {
      forall i | 0 <= i < |cs| ensures cs[i] == cs[i].(categories := cs[i].categories + []) {
        assert cs[i].categories + [] == cs[i].categories;
      }
    } else {
      var front, last := cats[..|cats| - 1], cats[|cats| - 1];
      LinkedAll(cs, front);
      var before := AddEach(cs, front, Linked);
      var at := Find(before, (d: Class) => d.container.record.name == last.interface);
      forall i | 0 <= i < |cs|
        ensures Linked(before, last)[i]
             == cs[i].(categories := cs[i].categories + CategoriesOf(cats, cs[i].container.record.name))
      {
        assert before[i].container == cs[i].container;
        LinkedOne(cs, cats, before, i);
      }
    }
  }

  lemma LinkedOne(cs: seq<Class>, cats: seq<Category>, before: seq<Class>, i: nat)
    requires forall i, j :: 0 <= i < j < |cs| ==> cs[i].container.record.name != cs[j].container.record.name
    requires cats != [] && |before| == |cs| && i < |cs|
    requires forall j :: 0 <= j < |cs| ==>
               var earlier := CategoriesOf(cats[..|cats| - 1], cs[j].container.record.name);
               before[j] == cs[j].(categories := cs[j].categories + earlier)
    ensures |Linked(before, cats[|cats| - 1])| == |cs|
    ensures Linked(before, cats[|cats| - 1])[i]
         == cs[i].(categories := cs[i].categories + CategoriesOf(cats, cs[i].container.record.name))
  {
    var last := cats[|cats| - 1];
    var n := cs[i].container.record.name;
    var old_names := CategoriesOf(cats[..|cats| - 1], n);
    assert before[i].container.record.name == n;
    assert (cs[i].categories + old_names) + [last.container.record.name]
        == cs[i].categories + (old_names + [last.container.record.name]);
    assert old_names + [] == old_names;
  }

  /** Writing an API and reading it into an empty store: it fails exactly when an
      instance variable comes from a project header, and otherwise gives the same
      records, with methods, setters, controls and category lists put in order. */
  lemma ApiBack(root: Fields, d: Data)
    requires IsJsonOf(root, d) && DataOk(d)
    ensures Arrays(root).Parsed? <==> !AnyUnreadable(d)
    ensures !AnyUnreadable(d) ==> Filled(Data([], [], [], [], [], []), Arrays(root).value) == After(d)
  {
    hide IsJsonOf, Arrays;
    ArraysBack(root, d);
    if !AnyUnreadable(d) {
      FilledBack(d);
    }
  }

  lemma FilledBack(d: Data)
    requires DataOk(d) && !AnyUnreadable(d)
    ensures Filled(Data([], [], [], [], [], []), ReadData(d)) == After(d)
  {
    var r := ReadData(d);
    hide AddEach, PartsAfter, Unreadable, ContainerOk, RecordOk, RecordsOk;
    NamesKept(d);
    NewRecords(r.typedefs);
    NewGlobals(r.globals);
    NewRecords(r.enums);
    NewProtocols(r.protocols);
    NewClasses(r.classes);
    NewCategories(r.categories);
    LinkedAll(r.classes, r.categories);
    SameCategories(d.categories, r.categories);
    forall i | 0 <= i < |r.classes|
      ensures AddEach(r.classes, r.categories, Linked)[i] == After(d).classes[i]
    {
      assert r.classes[i].categories == [];
      assert [] + CategoriesOf(r.categories, r.classes[i].container.record.name)
          == CategoriesOf(r.categories, r.classes[i].container.record.name);
    }
  }

  lemma NamesKept(d: Data)
    requires !AnyUnreadable(d)
    ensures forall i :: 0 <= i < |d.protocols| ==> ReadData(d).protocols[i].record == d.protocols[i].record
    ensures forall i :: 0 <= i < |d.classes| ==>
            ReadData(d).classes[i].container.record == d.classes[i].container.record
    ensures forall i :: 0 <= i < |d.categories| ==>
              ReadData(d).categories[i].container.record == d.categories[i].container.record &&
              ReadData(d).categories[i].interface == d.categories[i].interface
  {
    hide Unreadable;
  }

  lemma {:induction false} SameCategories(cs: seq<Category>, ds: seq<Category>)
    requires |cs| == |ds|
    requires forall i :: 0 <= i < |cs| ==>
               cs[i].interface == ds[i].interface && cs[i].container.record.name == ds[i].container.record.name
    ensures forall n :: CategoriesOf(cs, n) == CategoriesOf(ds, n)
  {
    if cs != [] {
      SameCategories(cs[..|cs| - 1], ds[..|ds| - 1]);
    }
  }

  // ----- what comes back as it was -----

  predicate InOrder(ms: seq<Method>) {
    forall i, j :: 0 <= i < j < |ms| && ms[j].isInstance ==> ms[i].isInstance
  }

  lemma MethodsInOrder(ms: seq<Method>)
    ensures Chosen(ms, true) + Chosen(ms, false) == ms <==> InOrder(ms)
  {
    var instance, others := Chosen(ms, true), Chosen(ms, false);
    ChosenAre(ms, true);
    ChosenAre(ms, false);
    if instance + others == ms {
      forall i, j | 0 <= i < j < |ms| && ms[j].isInstance ensures ms[i].isInstance {
        assert ms[j] == (instance + others)[j] && ms[i] == (instance + others)[i];
      }
    }
    if InOrder(ms) {
      OrderedParts(ms);
    }
  }

  lemma {:induction false} NoneChosen(ms: seq<Method>)
    requires forall i :: 0 <= i < |ms| ==> ms[i].isInstance
    ensures Chosen(ms, false) == []
  {
    if ms != [] {
      NoneChosen(ms[..|ms| - 1]);
    }
  }

  lemma OrderedFront(ms: seq<Method>)
    requires InOrder(ms) && ms != []
    ensures InOrder(ms[..|ms| - 1])
    ensures ms[|ms| - 1].isInstance ==> Chosen(ms[..|ms| - 1], false) == []
  {
    var front := ms[..|ms| - 1];
    if ms[|ms| - 1].isInstance {
      forall i | 0 <= i < |front| ensures front[i].isInstance {
        assert ms[i].isInstance;
      }
      NoneChosen(front);
    }
  }

  lemma JoinLast<T>(s: seq<T>, t: seq<T>, x: T)
    ensures s + (t + [x]) == s + t + [x] && s + [] == s
  {
  }

  lemma {:induction false} OrderedParts(ms: seq<Method>)
    requires InOrder(ms)
    ensures Chosen(ms, true) + Chosen(ms, false) == ms
  {
    if ms != [] {
      hide InOrder;
      var front, last := ms[..|ms| - 1], ms[|ms| - 1];
      OrderedFront(ms);
      OrderedParts(front);
      JoinLast(Chosen(front, true), Chosen(front, false), last);
      JoinLast(Chosen(front, true) + [last], [], last);
      assert ms == front + [last];
    }
  }

  lemma {:induction false} NamesNonEmpty(names: seq<string>)
    ensures NonEmpty(names) == names <==> "" !in names
    ensures |NonEmpty(names)| <= |names|
  {
    if names != [] {
      NamesNonEmpty(names[..|names| - 1]);
      assert names == names[..|names| - 1] + [names[|names| - 1]];
    }
  }

  predicate ControlKept(v: Ivar) {
    match v.record.access
    case NoAccess => v.control == NoControl
    case Private => v.control == PrivateControl
    case Public => v.control == ProtectedControl
    case Project => false
  }

  /** A container that the trip leaves alone. */
  predicate Kept(c: Container) {
    InOrder(c.methods) && "" !in c.protocols &&
    (forall i :: 0 <= i < |c.properties| && c.properties[i].readOnly ==> c.properties[i].setter == "") &&
    forall i :: 0 <= i < |c.ivars| ==> ControlKept(c.ivars[i])
  }

  lemma PartsKept(c: Container)
    ensures !Unreadable(c) && PartsAfter(c) == c <==> Kept(c)
  {
    hide Chosen, NonEmpty, InOrder;
    MethodsInOrder(c.methods);
    NamesNonEmpty(c.protocols);
    if Kept(c) {
      forall i | 0 <= i < |c.ivars| ensures c.ivars[i].record.access != Project {
        assert ControlKept(c.ivars[i]);
      }
      forall i | 0 <= i < |c.ivars| ensures IvarRead(c.ivars[i]) == c.ivars[i] {
        assert ControlKept(c.ivars[i]);
      }
      assert PartsAfter(c).ivars == c.ivars && PartsAfter(c).properties == c.properties;
    }
    if !Unreadable(c) && PartsAfter(c) == c {
      forall i | 0 <= i < |c.ivars| ensures ControlKept(c.ivars[i]) {
        assert PartsAfter(c).ivars[i] == c.ivars[i];
      }
      forall i | 0 <= i < |c.properties| && c.properties[i].readOnly ensures c.properties[i].setter == "" {
        assert PartsAfter(c).properties[i] == c.properties[i];
      }
    }
  }

  predicate AllKept(d: Data) {
    (forall i :: 0 <= i < |d.protocols| ==> Kept(d.protocols[i])) &&
    (forall i :: 0 <= i < |d.categories| ==> Kept(d.categories[i].container)) &&
    forall i :: 0 <= i < |d.classes| ==>
      Kept(d.classes[i].container) &&
        d.classes[i].categories == CategoriesOf(d.categories, d.classes[i].container.record.name)
  }

  /** An API comes back as it was exactly when every container does and every
      interface lists its categories, all of them and in order. */
  lemma ApiKept(d: Data)
    ensures !AnyUnreadable(d) && After(d) == d <==> AllKept(d)
  {
    hide Kept, Unreadable, PartsAfter, CategoriesOf;
    forall c: Container ensures Kept(c) <==> !Unreadable(c) && PartsAfter(c) == c {
      PartsKept(c);
    }
    if !AnyUnreadable(d) && After(d) == d {
      forall i | 0 <= i < |d.protocols| ensures Kept(d.protocols[i]) {
        assert After(d).protocols[i] == d.protocols[i];
      }
      forall i | 0 <= i < |d.categories| ensures Kept(d.categories[i].container) {
        assert After(d).categories[i] == d.categories[i];
      }
      forall i | 0 <= i < |d.classes|
        ensures Kept(d.classes[i].container) &&
                d.classes[i].categories == CategoriesOf(d.categories, d.classes[i].container.record.name)
      {
        assert After(d).classes[i] == d.classes[i];
        ClassAfter(d, i);
      }
    }
    if AllKept(d) {
      forall i | 0 <= i < |d.classes| ensures After(d).classes[i] == d.classes[i] {
        ClassAfter(d, i);
      }
      assert After(d).protocols == d.protocols && After(d).categories == d.categories && After(d).classes == d.classes;
    }
  }

  lemma ClassAfter(d: Data, i: nat)
    requires !AnyUnreadable(d) && i < |d.classes|
    ensures !Unreadable(d.classes[i].container)
    ensures var c := d.classes[i];
            After(d).classes[i] == Class(PartsAfter(c.container), c.super, c.hasException,
              CategoriesOf(d.categories, c.container.record.name))
  {
    hide Unreadable, CategoriesOf;
  }

  // ----- APIs that do not come back -----

  function PlainRecord(name: string, access: Access): Record {
    Record(name, NOWHERE, DEFAULT, Unknown, NO_FLAGS, access)
  }

  /** An API of one interface. */
  function OneClass(methods: seq<Method>, ivars: seq<Ivar>): Data {
    Data([], [], [], [], [Class(Container(PlainRecord("C", Public), methods, [], ivars, []), "", false, [])], [])
  }

  lemma OneClassOk(methods: seq<Method>, ivars: seq<Ivar>)
    requires forall i :: 0 <= i < |methods| ==> RecordOk(methods[i].record) && Bare(methods[i].record)
    requires forall i :: 0 <= i < |ivars| ==> RecordOk(ivars[i].record) && ivars[i].record.flags == NO_FLAGS
    ensures DataOk(OneClass(methods, ivars))
    ensures AnyUnreadable(OneClass(methods, ivars)) <==> Unreadable(OneClass(methods, ivars).classes[0].container)
  {
  }

  /** An instance variable declared in a project header: what is written cannot be read. */
  lemma ProjectIvarFails(root: Fields, control: Control)
    requires IsJsonOf(root, OneClass([], [Ivar(PlainRecord("_x", Project), control)]))
    ensures Arrays(root).Malformed?
  {
    var ivars := [Ivar(PlainRecord("_x", Project), control)];
    OneClassOk([], ivars);
    assert ivars[0].record.access == Project;
    hide IsJsonOf, Arrays, DataOk, RecordOk;
    ApiBack(root, OneClass([], ivars));
  }

  /** A class method listed before an instance method: they come back the other way round. */
  lemma MethodsChangePlaces(root: Fields)
    requires IsJsonOf(root, OneClass([Method(PlainRecord("a", Public), false, false, false),
                                      Method(PlainRecord("b", Public), true, false, false)], []))
    ensures Arrays(root).Parsed?
    ensures var back := Filled(Data([], [], [], [], [], []), Arrays(root).value);
            |back.classes| == 1 && back.classes[0].container.methods
              == [Method(PlainRecord("b", Public), true, false, false),
                  Method(PlainRecord("a", Public), false, false, false)]
  {
    var a := Method(PlainRecord("a", Public), false, false, false);
    var b := Method(PlainRecord("b", Public), true, false, false);
    hide IsJsonOf, Arrays, DataOk, RecordOk, Filled, Chosen, After, AnyUnreadable, PlainRecord;
    PlainRecordOk("a");
    PlainRecordOk("b");
    OneClassOk([a, b], []);
    AfterTwo(a, b);
    ApiBack(root, OneClass([a, b], []));
  }

  lemma PlainRecordOk(name: string)
    ensures RecordOk(PlainRecord(name, Public)) && Bare(PlainRecord(name, Public))
  {
  }

  lemma AfterTwo(a: Method, b: Method)
    requires !a.isInstance && b.isInstance
    ensures var d := OneClass([a, b], []);
            !AnyUnreadable(d) && |After(d).classes| == 1 && After(d).classes[0].container.methods == [b, a]
  {
    var d := OneClass([a, b], []);
    TwoChosen(a, b);
    hide Chosen, CategoriesOf, NonEmpty;
    assert After(d).classes[0].container.methods == [b] + [a];
  }

  lemma TwoChosen(a: Method, b: Method)
    requires !a.isInstance && b.isInstance
    ensures Chosen([a, b], true) == [b] && Chosen([a, b], false) == [a]
  {
    assert [a, b][..1] == [a] && [a][..0] == [];
    assert Chosen([a], true) == [] && Chosen([a], false) == [a];
  }
}

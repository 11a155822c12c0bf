/** Whole APIs through their JSON form. */
module ApiRoundTrip {
  import opened InterfaceAlgebra
  import opened ApiRecords
  import opened ApiJson

  // ----- arrays of records -----

  function JsonOf<T>(rs: seq<T>, write: T -> Json): seq<Json> {
    seq(|rs|, i requires 0 <= i < |rs| => write(rs[i]))
  }

  method SerializeEach<T>(rs: seq<T>, write: T -> Json) returns (items: seq<Json>)
    ensures items == JsonOf(rs, write)
  {
    items := [];
    for i := 0 to |rs|
      invariant items == JsonOf(rs[..i], write)
    {
      items := items + [write(rs[i])];
    }
    assert rs[..|rs|] == rs;
  }

  /** One malformed element spoils the array. */
  function ParseEach<T>(items: seq<Json>, parse: Json -> Parsed<T>): Parsed<seq<T>> {
    if items == [] then Parsed([])
    else
      match ParseEach(items[..|items| - 1], parse)
      case Malformed => Malformed
      case Parsed(rs) =>
        (match parse(items[|items| - 1]) case Malformed => Malformed case Parsed(r) => Parsed(rs + [r]))
  }

  lemma ParseNext<T>(items: seq<Json>, parse: Json -> Parsed<T>, i: nat)
    requires i < |items|
    ensures ParseEach(items[..i + 1], parse) ==
            match ParseEach(items[..i], parse)
            case Malformed => Malformed
            case Parsed(rs) => (match parse(items[i]) case Malformed => Malformed case Parsed(r) => Parsed(rs + [r]))
  {
    assert items[..i + 1][..i] == items[..i];
  }

  lemma {:induction false} EachParsed<T>(items: seq<Json>, parse: Json -> Parsed<T>, rs: seq<T>)
    requires |rs| == |items| && forall i :: 0 <= i < |items| ==> parse(items[i]) == Parsed(rs[i])
    ensures ParseEach(items, parse) == Parsed(rs)
  {
    if items != [] {
      EachParsed(items[..|items| - 1], parse, rs[..|items| - 1]);
      assert rs == rs[..|items| - 1] + [rs[|items| - 1]];
    }
  }

  lemma {:induction false} EachMalformed<T>(items: seq<Json>, parse: Json -> Parsed<T>, i: nat)
    requires i < |items| && parse(items[i]) == Malformed
    ensures ParseEach(items, parse) == Malformed
  {
    if i < |items| - 1 {
      EachMalformed(items[..|items| - 1], parse, i);
    }
  }

  // ----- containers -----

  function Chosen(ms: seq<Method>, isInstance: bool): seq<Method> {
    if ms == [] then []
    else Chosen(ms[..|ms| - 1], isInstance) + if ms[|ms| - 1].isInstance == isInstance then [ms[|ms| - 1]] else []
  }

  function NonEmpty(names: seq<string>): seq<string> {
    if names == [] then []
    else NonEmpty(names[..|names| - 1]) + if names[|names| - 1] != "" then [names[|names| - 1]] else []
  }

  function ProtocolField(names: seq<string>): Field<Json> {
    if names == [] then Absent else Present(Array(JsonOf(NonEmpty(names), (n: string) => Text(n))))
  }

  function ParseName(j: Json): Parsed<string> {
    if j.Text? then Parsed(j.text) else Malformed
  }

  function WriteMethod(): Method -> Json { m => MethodJson(m) }
  function WriteProperty(): Property -> Json { p => PropertyJson(p) }
  function WriteIvar(): Ivar -> Json { v => IvarJson(v) }
  function ReadMethod(isInstance: bool): Json -> Parsed<Method> { j => ParseMethod(j, isInstance) }

  /** What a container's object has besides its record. */
  function ContainerField(c: Container, k: Key): Field<Json> {
    match k
    case KProtocols => ProtocolField(c.protocols)
    case KInstanceMethods => AsArray(JsonOf(Chosen(c.methods, true), WriteMethod()))
    case KClassMethods => AsArray(JsonOf(Chosen(c.methods, false), WriteMethod()))
    case KProperties => AsArray(JsonOf(c.properties, WriteProperty()))
    case KIvars => AsArray(JsonOf(c.ivars, WriteIvar()))
    case _ => RecordField(c.record, k)
  }

  function ContainerFields(c: Container): Fields {
    var o := With(RecordFields(c.record), KProtocols, ContainerField(c, KProtocols));
    var o := With(o, KInstanceMethods, ContainerField(c, KInstanceMethods));
    var o := With(o, KClassMethods, ContainerField(c, KClassMethods));
    var o := With(o, KProperties, ContainerField(c, KProperties));
    With(o, KIvars, ContainerField(c, KIvars))
  }

  predicate InContainer(k: Key) {
    k == KProtocols || k == KInstanceMethods || k == KClassMethods || k == KProperties || k == KIvars
  }

  lemma NoSuchFields(c: Container, k: Key)
    ensures InContainer(k) ==> RecordField(c.record, k) == Absent
    ensures !InContainer(k) ==> ContainerField(c, k) == RecordField(c.record, k)
  {
  }

  lemma ContainerFieldAt(c: Container, k: Key)
    ensures FieldAt(ContainerFields(c), k) == ContainerField(c, k)
  {
    hide With, FieldAt, RecordFields;
    RecordFieldAt(c.record, k);
    NoSuchFields(c, k);
    hide ContainerField, RecordField;
    var o0 := RecordFields(c.record);
    var o1 := With(o0, KProtocols, ContainerField(c, KProtocols));
    WithAt(o0, KProtocols, ContainerField(c, KProtocols), k);
    var o2 := With(o1, KInstanceMethods, ContainerField(c, KInstanceMethods));
    WithAt(o1, KInstanceMethods, ContainerField(c, KInstanceMethods), k);
    var o3 := With(o2, KClassMethods, ContainerField(c, KClassMethods));
    WithAt(o2, KClassMethods, ContainerField(c, KClassMethods), k);
    var o4 := With(o3, KProperties, ContainerField(c, KProperties));
    WithAt(o3, KProperties, ContainerField(c, KProperties), k);
    WithAt(o4, KIvars, ContainerField(c, KIvars), k);
  }

  /** The parts of a container, read in this order. */
  function ParseParts(o: Fields, r: Record): Parsed<Container> {
    match ParseEach(ArrayAt(o, KProtocols), ParseName)
    case Malformed => Malformed
    case Parsed(protocols) =>
      (match ParseEach(ArrayAt(o, KInstanceMethods), ReadMethod(true))
       case Malformed => Malformed
       case Parsed(instance) =>
         (match ParseEach(ArrayAt(o, KClassMethods), ReadMethod(false))
          case Malformed => Malformed
          case Parsed(others) =>
            (match ParseEach(ArrayAt(o, KProperties), ParseProperty)
             case Malformed => Malformed
             case Parsed(properties) =>
               (match ParseEach(ArrayAt(o, KIvars), ParseIvar)
                case Malformed => Malformed
                case Parsed(ivars) => Parsed(Container(r, instance + others, properties, ivars, protocols))))))
  }

  predicate ContainerOk(c: Container) {
    RecordOk(c.record) && c.record.flags == NO_FLAGS &&
    (forall i :: 0 <= i < |c.methods| ==> RecordOk(c.methods[i].record) && Bare(c.methods[i].record)) &&
    (forall i :: 0 <= i < |c.properties| ==> RecordOk(c.properties[i].record) && Bare(c.properties[i].record)) &&
    (forall i :: 0 <= i < |c.ivars| ==> RecordOk(c.ivars[i].record) && c.ivars[i].record.flags == NO_FLAGS)
  }

  /** An instance variable of a project header makes its container unreadable. */
  predicate Unreadable(c: Container) {
    exists i :: 0 <= i < |c.ivars| && c.ivars[i].record.access == Project
  }

  function IvarRead(v: Ivar): Ivar
    requires v.record.access != Project
  {
    IvarAfter(v).value
  }

  /** Instance methods come first, setters of read-only properties are gone, and
      the controls of instance variables follow their access. */
  function PartsAfter(c: Container): Container
    requires !Unreadable(c)
  {
    Container(c.record, Chosen(c.methods, true) + Chosen(c.methods, false),
              seq(|c.properties|, i requires 0 <= i < |c.properties| => PropertyAfter(c.properties[i])),
              seq(|c.ivars|, i requires 0 <= i < |c.ivars| && c.ivars[i].record.access != Project =>
                IvarRead(c.ivars[i])),
              NonEmpty(c.protocols))
  }

  lemma {:induction false} ChosenAre(ms: seq<Method>, isInstance: bool)
    ensures forall i :: 0 <= i < |Chosen(ms, isInstance)| ==>
              Chosen(ms, isInstance)[i].isInstance == isInstance && Chosen(ms, isInstance)[i] in ms
  {
    if ms != [] {
      ChosenAre(ms[..|ms| - 1], isInstance);
      assert ms == ms[..|ms| - 1] + [ms[|ms| - 1]];
    }
  }

  lemma MethodsBack(ms: seq<Method>, isInstance: bool)
    requires forall i :: 0 <= i < |ms| ==> RecordOk(ms[i].record) && Bare(ms[i].record)
    ensures ParseEach(JsonOf(Chosen(ms, isInstance), WriteMethod()), ReadMethod(isInstance))
         == Parsed(Chosen(ms, isInstance))
  {
    hide MethodJson, ParseMethod, RecordOk, Bare, Chosen;
    ChosenAre(ms, isInstance);
    var chosen := Chosen(ms, isInstance);
    var items := JsonOf(chosen, WriteMethod());
    forall i | 0 <= i < |items| ensures ReadMethod(isInstance)(items[i]) == Parsed(chosen[i]) {
      assert chosen[i] in ms;
      MethodBack(chosen[i]);
    }
    EachParsed(items, ReadMethod(isInstance), chosen);
  }

  lemma PropertiesBack(c: Container)
    requires ContainerOk(c) && !Unreadable(c)
    ensures ParseEach(JsonOf(c.properties, WriteProperty()), ParseProperty) == Parsed(PartsAfter(c).properties)
  {
    var items := JsonOf(c.properties, WriteProperty());
    hide PropertyJson, ParseProperty, RecordOk, Bare;
    forall i | 0 <= i < |items| ensures ParseProperty(items[i]) == Parsed(PartsAfter(c).properties[i]) {
      PropertyBack(c.properties[i]);
    }
    EachParsed(items, ParseProperty, PartsAfter(c).properties);
  }

  lemma IvarsBack(c: Container)
    requires ContainerOk(c)
    ensures !Unreadable(c) ==> ParseEach(JsonOf(c.ivars, WriteIvar()), ParseIvar) == Parsed(PartsAfter(c).ivars)
    ensures Unreadable(c) ==> ParseEach(JsonOf(c.ivars, WriteIvar()), ParseIvar) == Malformed
  {
    var items := JsonOf(c.ivars, WriteIvar());
    hide IvarJson, ParseIvar, RecordOk, Bare;
    forall i | 0 <= i < |items| ensures ParseIvar(items[i]) == IvarAfter(c.ivars[i]) {
      IvarBack(c.ivars[i]);
    }
    if Unreadable(c) {
      var i :| 0 <= i < |c.ivars| && c.ivars[i].record.access == Project;
      EachMalformed(items, ParseIvar, i);
    } else {
      EachParsed(items, ParseIvar, PartsAfter(c).ivars);
    }
  }

  lemma ProtocolsBack(names: seq<string>)
    ensures var items := match ProtocolField(names) case Present(Array(js)) => js case _ => [];
            ParseEach(items, ParseName) == Parsed(NonEmpty(names))
  {
    var kept := NonEmpty(names);
    var items := JsonOf(kept, (n: string) => Text(n));
    EachParsed(items, ParseName, kept);
  }

  /** An object whose container fields are those of `c`. */
  predicate CarriesParts(o: Fields, c: Container) {
    forall k :: InContainer(k) ==> FieldAt(o, k) == ContainerField(c, k)
  }

  lemma ArraysAt(o: Fields, c: Container)
    requires CarriesParts(o, c)
    ensures ArrayAt(o, KInstanceMethods) == JsonOf(Chosen(c.methods, true), WriteMethod())
    ensures ArrayAt(o, KClassMethods) == JsonOf(Chosen(c.methods, false), WriteMethod())
    ensures ArrayAt(o, KProperties) == JsonOf(c.properties, WriteProperty())
    ensures ArrayAt(o, KIvars) == JsonOf(c.ivars, WriteIvar())
    ensures ArrayAt(o, KProtocols) == match ProtocolField(c.protocols) case Present(Array(js)) => js case _ => []
  {
    hide JsonOf, Chosen, FieldAt;
    assert InContainer(KInstanceMethods) && InContainer(KClassMethods) && InContainer(KProperties);
    assert InContainer(KIvars) && InContainer(KProtocols);
  }

  lemma PartsBack(o: Fields, c: Container, r: Record)
    requires CarriesParts(o, c) && ContainerOk(c)
    ensures ParseParts(o, r) == if Unreadable(c) then Malformed else Parsed(PartsAfter(c).(record := r))
  {
    hide CarriesParts, ArrayAt, JsonOf, Chosen, ProtocolField, ParseEach, RecordOk, Bare, Unreadable;
    ArraysAt(o, c);
    ProtocolsBack(c.protocols);
    MethodsBack(c.methods, true);
    MethodsBack(c.methods, false);
    IvarsBack(c);
    if !Unreadable(c) {
      PropertiesBack(c);
    } else {
      PropertiesParse(c);
    }
  }

  lemma PropertiesParse(c: Container)
    requires ContainerOk(c)
    ensures ParseEach(JsonOf(c.properties, WriteProperty()), ParseProperty).Parsed?
  {
    PropertiesBack(c.(ivars := []));
  }

  // ----- protocols, categories, interfaces -----

  function ProtocolJson(c: Container): Json {
    Object(ContainerFields(c))
  }

  function ParseProtocol(j: Json): Parsed<Container> {
    if !j.Object? then Malformed
    else
      match ParseRecord(j.fields)
      case Malformed => Malformed
      case Parsed(r) => ParseParts(j.fields, r)
  }

  function CategoryJson(c: Category): (j: Json)
    ensures j.Object?
  {
    Object(With(ContainerFields(c.container), KInterface, Present(Text(c.interface))))
  }

  function ParseCategory(j: Json): Parsed<Category> {
    if !j.Object? then Malformed
    else
      match (ParseRecord(j.fields), TextAt(j.fields, KInterface))
      case (Parsed(r), Present(interface)) =>
        (match ParseParts(j.fields, r)
         case Malformed => Malformed
         case Parsed(c) => Parsed(Category(c, interface)))
      case _ => Malformed
  }

  /** The categories of an interface are written, but not read from here. */
  function ClassJson(c: Class): (j: Json)
    ensures j.Object?
  {
    var o := With(ContainerFields(c.container), KSuper, Present(Text(c.super)));
    var o := With(o, KHasException, AsTruth(c.hasException));
    Object(With(o, KCategories, ProtocolField(c.categories)))
  }

  function ParseClass(j: Json): Parsed<Class> {
    if !j.Object? then Malformed
    else
      match (ParseRecord(j.fields), TextAt(j.fields, KSuper), ParseLinkage(j.fields))
      case (Parsed(r), Present(super), Parsed(linkage)) =>
        (match ParseParts(j.fields, r.(linkage := linkage))
         case Malformed => Malformed
         case Parsed(c) => Parsed(Class(c, super, TruthAt(j.fields, KHasException), [])))
      case _ => Malformed
  }

  lemma CarriesBoth(o: Fields, c: Container)
    requires forall k :: Common(k) || InContainer(k) ==> FieldAt(o, k) == ContainerField(c, k)
    ensures Carries(o, c.record) && CarriesParts(o, c)
  {
    hide FieldAt, RecordField;
    forall k | Common(k) ensures FieldAt(o, k) == RecordField(c.record, k) {
      NoSuchFields(c, k);
    }
  }

  lemma ProtocolBack(c: Container)
    requires ContainerOk(c) && c.record.linkage == Unknown
    ensures ParseProtocol(ProtocolJson(c)) == if Unreadable(c) then Malformed else Parsed(PartsAfter(c))
  {
    hide ContainerFields, FieldAt, ParseParts, ParseRecord, Carries, CarriesParts, Unreadable, RecordOk, Bare;
    var o := ContainerFields(c);
    forall k ensures FieldAt(o, k) == ContainerField(c, k) {
      ContainerFieldAt(c, k);
    }
    CarriesBoth(o, c);
    RecordBack(o, c.record);
    PartsBack(o, c, c.record);
  }

  lemma CategoryTexts(c: Category)
    ensures var o := CategoryJson(c).fields;
            Carries(o, c.container.record) && CarriesParts(o, c.container) &&
              TextAt(o, KInterface) == Present(c.interface)
  {
    hide ContainerFields, FieldAt, With, Carries, CarriesParts;
    var base, o := ContainerFields(c.container), CategoryJson(c).fields;
    forall k
      ensures FieldAt(o, k) == if k == KInterface then Present(Text(c.interface)) else ContainerField(c.container, k)
    {
      ContainerFieldAt(c.container, k);
      WithAt(base, KInterface, Present(Text(c.interface)), k);
    }
    CarriesBoth(o, c.container);
  }

  lemma CategoryBack(c: Category)
    requires ContainerOk(c.container) && c.container.record.linkage == Unknown
    ensures ParseCategory(CategoryJson(c))
         == if Unreadable(c.container) then Malformed else Parsed(c.(container := PartsAfter(c.container)))
  {
    hide ContainerFields, FieldAt, With, ParseParts, ParseRecord, Carries, CarriesParts, Unreadable, RecordOk, Bare;
    hide PartsAfter, TextAt, CategoryJson;
    var o := CategoryJson(c).fields;
    CategoryTexts(c);
    RecordBack(o, c.container.record);
    PartsBack(o, c.container, c.container.record);
    PartsRecord(c.container);
  }

  lemma ClassFieldAt(c: Class, k: Key)
    ensures FieldAt(ClassJson(c).fields, k) ==
            if k == KSuper then Present(Text(c.super))
            else if k == KHasException && c.hasException then Present(Truth(true))
            else if k == KCategories && c.categories != [] then ProtocolField(c.categories)
            else ContainerField(c.container, k)
  {
    hide ContainerFields, FieldAt, With;
    var o0 := ContainerFields(c.container);
    ContainerFieldAt(c.container, k);
    var o1 := With(o0, KSuper, Present(Text(c.super)));
    WithAt(o0, KSuper, Present(Text(c.super)), k);
    var o2 := With(o1, KHasException, AsTruth(c.hasException));
    WithAt(o1, KHasException, AsTruth(c.hasException), k);
    WithAt(o2, KCategories, ProtocolField(c.categories), k);
  }

  lemma ClassBack(c: Class)
    requires ContainerOk(c.container)
    ensures ParseClass(ClassJson(c)) == if Unreadable(c.container) then Malformed
                                        else Parsed(Class(PartsAfter(c.container), c.super, c.hasException, []))
  {
    hide ContainerFields, FieldAt, With, ParseParts, ParseRecord;
    hide ParseLinkage, Carries, CarriesParts, Unreadable, RecordOk, Bare;
    hide PartsAfter, TextAt, TruthAt;
    var o := ClassJson(c).fields;
    ClassTexts(c);
    RecordBack(o, c.container.record);
    PartsBack(o, c.container, c.container.record);
    PartsRecord(c.container);
  }

  lemma PartsRecord(c: Container)
    ensures !Unreadable(c) ==> PartsAfter(c).(record := c.record) == PartsAfter(c)
  {
  }

  lemma ClassTexts(c: Class)
    ensures var o := ClassJson(c).fields;
            Carries(o, c.container.record) && CarriesParts(o, c.container) &&
            TextAt(o, KSuper) == Present(c.super) && TruthAt(o, KHasException) == c.hasException
  {
    hide FieldAt, Carries, CarriesParts, ClassJson;
    var o := ClassJson(c).fields;
    ClassFieldAt(c, KSuper);
    ClassFieldAt(c, KHasException);
    forall k | Common(k) || InContainer(k) ensures FieldAt(o, k) == ContainerField(c.container, k) {
      ClassFieldAt(c, k);
    }
    CarriesBoth(o, c.container);
  }
}

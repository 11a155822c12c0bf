/** What the JSON of an API says, text by text, and what a reader takes it for. */
module ApiTexts {
  import opened InterfaceAlgebra
  import opened PackedVersions
  import opened ApiRecords
  import opened ApiJson
  import opened ApiRoundTrip
  import opened ApiStore

  predicate Says(o: Fields, k: Key, text: string) {
    k in o && o[k] == Text(text)
  }

  /** True is written, false is not. */
  predicate Marks(o: Fields, k: Key, b: bool) {
    if b then k in o && o[k] == Truth(true) else k !in o
  }

  // ----- the common part -----

  predicate LinkageSaid(o: Fields, linkage: Linkage) {
    match linkage
    case Exported => Says(o, KLinkage, "exported")
    case Reexported => Says(o, KLinkage, "re-exported")
    case Internal => Says(o, KLinkage, "internal")
    case External => Says(o, KLinkage, "external")
    case Unknown => KLinkage !in o
  }

  predicate AccessSaid(o: Fields, access: Access) {
    match access
    case Public => Says(o, KAccess, "public")
    case Private => Says(o, KAccess, "private")
    case Project => Says(o, KAccess, "project")
    case NoAccess => KAccess !in o
  }

  predicate PlaceSaid(o: Fields, loc: Loc) {
    if loc.file == "" then KLoc !in o
    else Says(o, KLoc, loc.file + ":" + Decimal(loc.line) + ":" + Decimal(loc.column))
  }

  predicate AvailabilitySaid(o: Fields, a: Availability) {
    if a.introduced == 0 && a.obsoleted == 0 && !a.unavailable then KAvailability !in o
    else Says(o, KAvailability,
              "i:" + Printed(a.introduced) + " o:" + Printed(a.obsoleted) + if a.unavailable then " u:1" else " u:0")
  }

  predicate RecordSaid(o: Fields, r: Record) {
    Says(o, KName, r.name) && LinkageSaid(o, r.linkage) && AccessSaid(o, r.access) && PlaceSaid(o, r.loc) &&
    AvailabilitySaid(o, r.availability) && Marks(o, KWeakDefined, r.flags.weakDefined) &&
    Marks(o, KWeakReferenced, r.flags.weakReferenced) && Marks(o, KThreadLocal, r.flags.threadLocal)
  }

  lemma AvailabilitySpelled(a: Availability)
    ensures AvailabilityText(a)
         == "i:" + Printed(a.introduced) + " o:" + Printed(a.obsoleted) + if a.unavailable then " u:1" else " u:0"
  {
    hide Printed;
    assert Decimal(1) == "1" && Decimal(0) == "0";
    assert " u:" + "1" == " u:1" && " u:" + "0" == " u:0";
    var front := "i:" + Printed(a.introduced) + " o:" + Printed(a.obsoleted);
    assert front + " u:" + "1" == front + " u:1" && front + " u:" + "0" == front + " u:0";
  }

  lemma SaidIn(o: Fields, r: Record)
    requires forall k :: Common(k) ==> FieldAt(o, k) == RecordField(r, k)
    ensures RecordSaid(o, r)
  {
    hide Printed, Decimal, AvailabilityText;
    AvailabilitySpelled(r.availability);
    assert Common(KName) && Common(KLoc) && Common(KAvailability) && Common(KLinkage) && Common(KAccess);
    assert Common(KWeakDefined) && Common(KWeakReferenced) && Common(KThreadLocal);
  }

  /** Enum constants and typedefs say nothing else. */
  lemma RecordTexts(r: Record)
    ensures var o := RecordJson(r).fields; RecordSaid(o, r) && forall k :: k in o ==> Common(k)
  {
    hide RecordFields, RecordSaid, FieldAt;
    var o := RecordJson(r).fields;
    forall k ensures FieldAt(o, k) == RecordField(r, k) && (k in o ==> Common(k)) {
      RecordFieldAt(r, k);
      if !Common(k) { OtherFields(r, k); }
      hide RecordField;
      InObject(o, k);
    }
    SaidIn(o, r);
  }

  lemma InObject(o: Fields, k: Key)
    ensures k in o <==> FieldAt(o, k).Present?
    ensures k in o ==> FieldAt(o, k) == Present(o[k])
  {
  }

  // ----- globals, methods, properties, instance variables -----

  lemma GlobalTexts(g: Global)
    ensures var o := GlobalJson(g).fields;
            RecordSaid(o, g.record) && (forall k :: k in o ==> Common(k) || k == KKind) &&
            match g.kind
            case Function => Says(o, KKind, "function")
            case Variable => Says(o, KKind, "variable")
            case UnknownKind => KKind !in o
  {
    hide RecordFields, RecordSaid, With, FieldAt;
    var base, o := RecordFields(g.record), GlobalJson(g).fields;
    forall k
      ensures FieldAt(o, k) == if k == KKind then AsText(KindText(g.kind)) else RecordField(g.record, k)
      ensures k in o ==> Common(k) || k == KKind
    {
      RecordFieldAt(g.record, k);
      WithAt(base, KKind, AsText(KindText(g.kind)), k);
      if !Common(k) { OtherFields(g.record, k); }
      hide RecordField;
      InObject(o, k);
    }
    SaidIn(o, g.record);
    InObject(o, KKind);
  }

  lemma MethodTexts(m: Method)
    ensures var o := MethodJson(m).fields;
            RecordSaid(o, m.record) && Marks(o, KOptional, m.isOptional) && Marks(o, KDynamic, m.isDynamic) &&
            forall k :: k in o ==> Common(k) || k == KOptional || k == KDynamic
  {
    hide RecordFields, RecordSaid, With, FieldAt;
    var base, o := RecordFields(m.record), MethodJson(m).fields;
    forall k
      ensures FieldAt(o, k) == if k == KOptional then AsTruth(m.isOptional)
                               else if k == KDynamic then AsTruth(m.isDynamic) else RecordField(m.record, k)
      ensures k in o ==> Common(k) || k == KOptional || k == KDynamic
    {
      RecordFieldAt(m.record, k);
      WithAt(base, KOptional, AsTruth(m.isOptional), k);
      WithAt(With(base, KOptional, AsTruth(m.isOptional)), KDynamic, AsTruth(m.isDynamic), k);
      if !Common(k) { OtherFields(m.record, k); }
      hide RecordField;
      InObject(o, k);
    }
    SaidIn(o, m.record);
    InObject(o, KOptional);
    InObject(o, KDynamic);
  }

  /** The attributes come as a list, which is left out when there are none. */
  predicate AttributesSaid(o: Fields, p: Property) {
    if !p.readOnly && !p.dynamic && !p.classProperty then KAttr !in o
    else
      KAttr in o && o[KAttr].Array? &&
      (Text("readonly") in o[KAttr].items <==> p.readOnly) && (Text("dynamic") in o[KAttr].items <==> p.dynamic) &&
      (Text("class") in o[KAttr].items <==> p.classProperty)
  }

  lemma PropertyTexts(p: Property)
    ensures var o := PropertyJson(p).fields;
            RecordSaid(o, p.record) && AttributesSaid(o, p) && Marks(o, KOptional, p.isOptional) &&
            Says(o, KGetter, p.getter) && (if p.readOnly then KSetter !in o else Says(o, KSetter, p.setter)) &&
            forall k :: k in o ==> Common(k) || k == KAttr || k == KOptional || k == KGetter || k == KSetter
  {
    hide RecordFields, RecordSaid, With, FieldAt, PropertyJson;
    var o := PropertyJson(p).fields;
    forall k
      ensures FieldAt(o, k) == PropertyField(p, k)
      ensures k in o ==> Common(k) || k == KAttr || k == KOptional || k == KGetter || k == KSetter
    {
      PropertyFieldAt(p, k);
      if !Common(k) { OtherFields(p.record, k); }
      hide RecordField;
      InObject(o, k);
    }
    SaidIn(o, p.record);
    InObject(o, KAttr);
    InObject(o, KOptional);
    InObject(o, KGetter);
    InObject(o, KSetter);
  }

  /** The control of an instance variable is said under its own key. */
  lemma IvarTexts(v: Ivar)
    ensures var o := IvarJson(v).fields;
            RecordSaid(o, v.record) && (forall k :: k in o ==> Common(k) || k == KAccessControl) &&
            match v.control
            case PrivateControl => Says(o, KAccessControl, "private")
            case ProtectedControl => Says(o, KAccessControl, "protected")
            case PublicControl => Says(o, KAccessControl, "public")
            case PackageControl => Says(o, KAccessControl, "package")
            case NoControl => KAccessControl !in o
  {
    hide RecordFields, RecordSaid, With, FieldAt;
    var base, o := RecordFields(v.record), IvarJson(v).fields;
    forall k
      ensures FieldAt(o, k) == if k == KAccessControl then AsText(ControlText(v.control)) else RecordField(v.record, k)
      ensures k in o ==> Common(k) || k == KAccessControl
    {
      RecordFieldAt(v.record, k);
      WithAt(base, KAccessControl, AsText(ControlText(v.control)), k);
      if !Common(k) { OtherFields(v.record, k); }
      hide RecordField;
      InObject(o, k);
    }
    SaidIn(o, v.record);
    InObject(o, KAccessControl);
  }

  /** Whatever object an instance variable is read from: its control is private if the
      access there says so, protected if it says public, and nothing else is taken. */
  lemma ControlTaken(o: Fields)
    ensures ParseIvar(Object(o)).Parsed? ==>
              var v := ParseIvar(Object(o)).value;
              match v.control
              case PrivateControl => Says(o, KAccess, "private")
              case ProtectedControl => Says(o, KAccess, "public")
              case NoControl => forall text :: !Says(o, KAccess, text)
              case _ => false
  {
    hide ParseLocAt, ParseAvailabilityAt, ParseLinkage;
  }

  // ----- containers -----

  /** Writing methods by sort loses none. */
  lemma {:induction false} ChosenSplit(ms: seq<Method>)
    ensures multiset(Chosen(ms, true)) + multiset(Chosen(ms, false)) == multiset(ms)
  {
    if ms != [] {
      var front, m := ms[..|ms| - 1], ms[|ms| - 1];
      ChosenSplit(front);
      assert ms == front + [m];
      assert Chosen(ms, m.isInstance) == Chosen(front, m.isInstance) + [m];
      assert Chosen(ms, !m.isInstance) == Chosen(front, !m.isInstance);
      hide Chosen;
      OneMoreMethod(Chosen(front, true), Chosen(front, false), front, m);
    }
  }

  lemma OneMoreMethod(a: seq<Method>, b: seq<Method>, all: seq<Method>, m: Method)
    requires multiset(a) + multiset(b) == multiset(all)
    ensures multiset(a + [m]) + multiset(b) == multiset(all + [m]) == multiset(a) + multiset(b + [m])
  {
  }

  lemma {:induction false} NonEmptyAre(names: seq<string>)
    ensures forall n :: n in NonEmpty(names) <==> n in names && n != ""
    ensures (forall i :: 0 <= i < |names| ==> names[i] != "") ==> NonEmpty(names) == names
  {
    if names != [] {
      NonEmptyAre(names[..|names| - 1]);
      assert names == names[..|names| - 1] + [names[|names| - 1]];
    }
  }

  /** The names in order, empty ones left out. */
  ghost predicate NamesSaid(o: Fields, k: Key, names: seq<string>) {
    if names == [] then k !in o
    else
      k in o && o[k].Array? && (forall i :: 0 <= i < |o[k].items| ==> o[k].items[i].Text?) &&
      (forall n :: Text(n) in o[k].items <==> n in names && n != "") &&
      ((forall i :: 0 <= i < |names| ==> names[i] != "") ==>
         |o[k].items| == |names| && forall i :: 0 <= i < |names| ==> o[k].items[i] == Text(names[i]))
  }

  ghost predicate ListSaid<T>(o: Fields, k: Key, rs: seq<T>, write: T -> Json) {
    if rs == [] then k !in o
    else
      k in o && o[k].Array? && |o[k].items| == |rs| && forall i :: 0 <= i < |rs| ==> o[k].items[i] == write(rs[i])
  }

  ghost predicate PartsSaid(o: Fields, c: Container) {
    NamesSaid(o, KProtocols, c.protocols) &&
    ListSaid(o, KInstanceMethods, Chosen(c.methods, true), MethodJson) &&
    ListSaid(o, KClassMethods, Chosen(c.methods, false), MethodJson) &&
    ListSaid(o, KProperties, c.properties, PropertyJson) && ListSaid(o, KIvars, c.ivars, IvarJson)
  }

  lemma NamesAt(o: Fields, k: Key, names: seq<string>)
    requires FieldAt(o, k) == ProtocolField(names)
    ensures NamesSaid(o, k, names)
  {
    InObject(o, k);
    NonEmptyAre(names);
    hide FieldAt, NonEmpty;
    if names != [] {
      var kept, items := NonEmpty(names), o[k].items;
      assert items == JsonOf(kept, (n: string) => Text(n));
      forall n ensures Text(n) in items <==> n in kept {
        if n in kept {
          var i :| 0 <= i < |kept| && kept[i] == n;
          assert items[i] == Text(n);
        }
      }
    }
  }

  lemma ListAt<T>(o: Fields, k: Key, rs: seq<T>, write: T -> Json)
    requires FieldAt(o, k) == AsArray(JsonOf(rs, write))
    ensures ListSaid(o, k, rs, write)
  {
    InObject(o, k);
  }

  lemma SameJson(c: Container)
    ensures forall ms :: JsonOf(ms, WriteMethod()) == JsonOf(ms, MethodJson)
    ensures JsonOf(c.properties, WriteProperty()) == JsonOf(c.properties, PropertyJson)
    ensures JsonOf(c.ivars, WriteIvar()) == JsonOf(c.ivars, IvarJson)
  {
    hide MethodJson, PropertyJson, IvarJson;
  }

  lemma PartsSaidIn(o: Fields, c: Container)
    requires forall k :: Common(k) || InContainer(k) ==> FieldAt(o, k) == ContainerField(c, k)
    ensures RecordSaid(o, c.record) && PartsSaid(o, c)
  {
    hide FieldAt, RecordSaid, RecordField, PartsSaid;
    forall k | Common(k) ensures FieldAt(o, k) == RecordField(c.record, k) {
      NoSuchFields(c, k);
    }
    SaidIn(o, c.record);
    hide Common, ContainerField;
    OnlyParts(o, c);
  }

  lemma OnlyParts(o: Fields, c: Container)
    requires forall k :: InContainer(k) ==> FieldAt(o, k) == ContainerField(c, k)
    ensures PartsSaid(o, c)
  {
    hide FieldAt, JsonOf, Chosen, ProtocolField, NamesSaid, ListSaid, AsArray;
    assert InContainer(KProtocols) && InContainer(KInstanceMethods) && InContainer(KClassMethods) &&
           InContainer(KProperties) && InContainer(KIvars);
    SameJson(c);
    NamesAt(o, KProtocols, c.protocols);
    ListAt(o, KInstanceMethods, Chosen(c.methods, true), MethodJson);
    ListAt(o, KClassMethods, Chosen(c.methods, false), MethodJson);
    ListAt(o, KProperties, c.properties, PropertyJson);
    ListAt(o, KIvars, c.ivars, IvarJson);
  }

  lemma ProtocolTexts(c: Container)
    ensures var o := ProtocolJson(c).fields;
            RecordSaid(o, c.record) && PartsSaid(o, c) && forall k :: k in o ==> Common(k) || InContainer(k)
  {
    hide FieldAt, ContainerFields, RecordSaid, PartsSaid;
    var o := ProtocolJson(c).fields;
    forall k
      ensures FieldAt(o, k) == ContainerField(c, k)
      ensures k in o ==> Common(k) || InContainer(k)
    {
      ContainerFieldAt(c, k);
      NoSuchFields(c, k);
      if !Common(k) { OtherFields(c.record, k); }
      hide RecordField, ContainerField;
      InObject(o, k);
    }
    PartsSaidIn(o, c);
  }

  lemma CategoryTextsSaid(c: Category)
    ensures var o := CategoryJson(c).fields;
            RecordSaid(o, c.container.record) && PartsSaid(o, c.container) && Says(o, KInterface, c.interface) &&
            forall k :: k in o ==> Common(k) || InContainer(k) || k == KInterface
  {
    hide FieldAt, ContainerFields, RecordSaid, PartsSaid, With;
    var base, o := ContainerFields(c.container), CategoryJson(c).fields;
    forall k
      ensures FieldAt(o, k) == if k == KInterface then Present(Text(c.interface)) else ContainerField(c.container, k)
      ensures k in o ==> Common(k) || InContainer(k) || k == KInterface
    {
      ContainerFieldAt(c.container, k);
      WithAt(base, KInterface, Present(Text(c.interface)), k);
      NoSuchFields(c.container, k);
      if !Common(k) { OtherFields(c.container.record, k); }
      hide RecordField, ContainerField;
      InObject(o, k);
    }
    PartsSaidIn(o, c.container);
    InObject(o, KInterface);
  }

  /** An interface also says the names of its categories. */
  lemma ClassTextsSaid(c: Class)
    ensures var o := ClassJson(c).fields;
            RecordSaid(o, c.container.record) && PartsSaid(o, c.container) && Says(o, KSuper, c.super) &&
            Marks(o, KHasException, c.hasException) && NamesSaid(o, KCategories, c.categories) &&
            forall k :: k in o ==> Common(k) || InContainer(k) || k == KSuper || k == KHasException || k == KCategories
  {
    hide FieldAt, RecordSaid, PartsSaid, ClassJson, ProtocolField, NamesSaid;
    var o := ClassJson(c).fields;
    forall k
      ensures Common(k) || InContainer(k) ==> FieldAt(o, k) == ContainerField(c.container, k)
      ensures k in o ==> Common(k) || InContainer(k) || k == KSuper || k == KHasException || k == KCategories
    {
      ClassFieldAt(c, k);
      NoSuchFields(c.container, k);
      if !Common(k) { OtherFields(c.container.record, k); }
      hide RecordField, ContainerField;
      InObject(o, k);
    }
    PartsSaidIn(o, c.container);
    ClassOwnFields(c);
    InObject(o, KSuper);
    InObject(o, KHasException);
    NamesAt(o, KCategories, c.categories);
  }

  lemma ClassOwnFields(c: Class)
    ensures var o := ClassJson(c).fields;
            FieldAt(o, KSuper) == Present(Text(c.super)) && FieldAt(o, KHasException) == AsTruth(c.hasException) &&
            FieldAt(o, KCategories) == ProtocolField(c.categories)
  {
    hide FieldAt, ClassJson;
    ClassFieldAt(c, KSuper);
    ClassFieldAt(c, KHasException);
    ClassFieldAt(c, KCategories);
  }

  /** A document has the six lists that are not empty, and nothing else. */
  lemma DocumentSays(root: Fields, d: Data)
    requires IsJsonOf(root, d)
    ensures ListSaid(root, KGlobals, d.globals, GlobalJson) && ListSaid(root, KInterfaces, d.classes, ClassJson) &&
            ListSaid(root, KCategories, d.categories, CategoryJson) &&
            ListSaid(root, KProtocols, d.protocols, ProtocolJson) && ListSaid(root, KEnums, d.enums, RecordJson) &&
            ListSaid(root, KTypedefs, d.typedefs, RecordJson)
    ensures forall k :: k in root ==> k == KGlobals || k == KInterfaces || k == KCategories || k == KProtocols ||
                                      k == KEnums || k == KTypedefs
  {
    hide JsonOf, FieldAt, ListSaid, AsArray;
    forall k | k in root
      ensures k == KGlobals || k == KInterfaces || k == KCategories || k == KProtocols || k == KEnums || k == KTypedefs
    {
      InObject(root, k);
      assert FieldAt(root, k) == RootField(d, k);
    }
    assert FieldAt(root, KGlobals) == RootField(d, KGlobals) && FieldAt(root, KProtocols) == RootField(d, KProtocols);
    assert FieldAt(root, KInterfaces) == RootField(d, KInterfaces);
    assert FieldAt(root, KCategories) == RootField(d, KCategories);
    assert FieldAt(root, KEnums) == RootField(d, KEnums) && FieldAt(root, KTypedefs) == RootField(d, KTypedefs);
    SameLists(d);
    ListAt(root, KGlobals, d.globals, GlobalJson);
    ListAt(root, KInterfaces, d.classes, ClassJson);
    ListAt(root, KCategories, d.categories, CategoryJson);
    ListAt(root, KProtocols, d.protocols, ProtocolJson);
    ListAt(root, KEnums, d.enums, RecordJson);
    ListAt(root, KTypedefs, d.typedefs, RecordJson);
  }

  lemma SameLists(d: Data)
    ensures JsonOf(d.globals, WriteGlobal()) == JsonOf(d.globals, GlobalJson)
    ensures JsonOf(d.classes, WriteClass()) == JsonOf(d.classes, ClassJson)
    ensures JsonOf(d.categories, WriteCategory()) == JsonOf(d.categories, CategoryJson)
    ensures JsonOf(d.protocols, WriteProtocol()) == JsonOf(d.protocols, ProtocolJson)
    ensures JsonOf(d.enums, WriteRecord()) == JsonOf(d.enums, RecordJson)
    ensures JsonOf(d.typedefs, WriteRecord()) == JsonOf(d.typedefs, RecordJson)
  {
    hide GlobalJson, ClassJson, CategoryJson, ProtocolJson, RecordJson;
  }

  // ----- the order of accesses and linkages -----

  predicate Given(gs: seq<Global>, access: Access) {
    exists i :: 0 <= i < |gs| && gs[i].record.access == access
  }

  predicate GivenLinkage(gs: seq<Global>, linkage: Linkage) {
    exists i :: 0 <= i < |gs| && gs[i].record.linkage == linkage
  }

  /** Which access a name keeps: none if some addition states none, else project if some
      says so, else private, else public. */
  lemma KeptAccess(gs: seq<Global>)
    requires gs != []
    ensures LowestAccess(gs) == if Given(gs, NoAccess) then NoAccess else if Given(gs, Project) then Project
                                else if Given(gs, Private) then Private else Public
  {
    ExtremesArePassed(gs);
    hide LowestAccess, HighestLinkage, LinkageRank;
    var lowest := LowestAccess(gs);
    assert Given(gs, lowest);
    assert forall access :: Given(gs, access) ==> AccessRank(lowest) <= AccessRank(access);
  }

  /** And which linkage: exported if some addition says so, else reexported, external,
      internal, in this order. */
  lemma KeptLinkage(gs: seq<Global>)
    requires gs != []
    ensures HighestLinkage(gs) == if GivenLinkage(gs, Exported) then Exported
                                  else if GivenLinkage(gs, Reexported) then Reexported
                                  else if GivenLinkage(gs, External) then External
                                  else if GivenLinkage(gs, Internal) then Internal else Linkage.Unknown
  {
    ExtremesArePassed(gs);
    hide LowestAccess, HighestLinkage, AccessRank;
    var highest := HighestLinkage(gs);
    assert GivenLinkage(gs, highest);
    assert forall linkage :: GivenLinkage(gs, linkage) ==> LinkageRank(linkage) <= LinkageRank(highest);
  }

  // ----- samples -----

  lemma LocSample()
    ensures LocText(Loc("a.h", 3, 14)) == "a.h:3:14"
  {
    TwoDigits();
    assert Decimal(3) == "3";
  }

  lemma AvailabilitySample()
    ensures AvailabilityText(Availability(0xA_0E00, 0, false)) == "i:10.14 o:0 u:0"
  {
    PrintedSamples();
    TwoDigits();
    JoinedShort(0, 0, 0);
    hide Decimal, Printed;
    AvailabilitySpelled(Availability(0xA_0E00, 0, false));
  }
}

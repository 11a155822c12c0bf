/** What a store holds when records of the same name are read more than once. */
module ApiMerged {
  import opened InterfaceAlgebra
  import opened ApiRecords
  import opened ApiJson
  import opened ApiRoundTrip
  import opened ApiStore

  // ----- additions to a keyed list -----

  predicate Distinct<T, K(==)>(s: seq<T>, key: T -> K) {
    forall i, j :: 0 <= i < j < |s| ==> key(s[i]) != key(s[j])
  }

  /** Joined with the first element of its key, or appended. */
  ghost predicate Joins<T, K>(r: seq<T>, s: seq<T>, t: T, key: T -> K, join: (T, T) -> T) {
    if exists i :: 0 <= i < |s| && key(s[i]) == key(t) then
      exists i :: 0 <= i < |s| && key(s[i]) == key(t) && r == s[i := join(s[i], t)]
    else r == s + [t]
  }

  ghost predicate Keyed<T(!new), K(!new)>(add: (seq<T>, T) -> seq<T>, key: T -> K, join: (T, T) -> T) {
    (forall s, t :: Joins(add(s, t), s, t, key, join)) && forall x, y :: key(join(x, y)) == key(x)
  }

  /** The elements of one key, in order. */
  function Of<T, K(==)>(ts: seq<T>, key: T -> K, k: K): seq<T> {
    if ts == [] then []
    else Of(ts[..|ts| - 1], key, k) + if key(ts[|ts| - 1]) == k then [ts[|ts| - 1]] else []
  }

  function Folded<T>(ts: seq<T>, join: (T, T) -> T): T
    requires ts != []
  {
    if |ts| == 1 then ts[0] else join(Folded(ts[..|ts| - 1], join), ts[|ts| - 1])
  }

  ghost predicate OneOf<T, K>(stored: seq<T>, key: T -> K, k: K, same: seq<T>, join: (T, T) -> T) {
    ((exists i :: 0 <= i < |stored| && key(stored[i]) == k) <==> same != []) &&
    forall i :: 0 <= i < |stored| && key(stored[i]) == k ==> same != [] && stored[i] == Folded(same, join)
  }

  /** There is one element for each key that was added, all additions of it joined. */
  lemma {:induction false} StoredOnce<T(!new), K(!new)>(ts: seq<T>, add: (seq<T>, T) -> seq<T>, key: T -> K,
                                                         join: (T, T) -> T, k: K)
    requires Keyed(add, key, join)
    ensures Distinct(AddEach([], ts, add), key) && OneOf(AddEach([], ts, add), key, k, Of(ts, key, k), join)
  {
    if ts != [] {
      var front, t := ts[..|ts| - 1], ts[|ts| - 1];
      var before := AddEach([], front, add);
      StoredOnce(front, add, key, join, k);
      assert Joins(add(before, t), before, t, key, join);
      hide Keyed;
      var i := JoinedAt(add(before, t), before, t, key, join);
      FoldedNext(Of(front, key, k), t, join);
      assert Of(front, key, k) + [] == Of(front, key, k);
      hide Folded, Of, Joins;
      OneMore(add(before, t), before, t, i, key, join, k, Of(front, key, k));
    }
  }

  lemma FoldedNext<T>(same: seq<T>, t: T, join: (T, T) -> T)
    ensures Folded(same + [t], join) == if same == [] then t else join(Folded(same, join), t)
  {
    assert (same + [t])[..|same|] == same;
  }

  lemma JoinedAt<T(!new), K(!new)>(r: seq<T>, s: seq<T>, t: T, key: T -> K, join: (T, T) -> T) returns (i: nat)
    requires Joins(r, s, t, key, join)
    ensures i < |s| ==> key(s[i]) == key(t) && r == s[i := join(s[i], t)]
    ensures i >= |s| ==> r == s + [t] && forall j :: 0 <= j < |s| ==> key(s[j]) != key(t)
  {
    if exists i :: 0 <= i < |s| && key(s[i]) == key(t) {
      i :| 0 <= i < |s| && key(s[i]) == key(t) && r == s[i := join(s[i], t)];
    } else {
      i := |s|;
    }
  }

  lemma OneMore<T(!new), K(!new)>(r: seq<T>, s: seq<T>, t: T, i: nat, key: T -> K, join: (T, T) -> T, k: K,
                                   same: seq<T>)
    requires Distinct(s, key) && OneOf(s, key, k, same, join) && forall x, y :: key(join(x, y)) == key(x)
    requires i < |s| ==> key(s[i]) == key(t) && r == s[i := join(s[i], t)]
    requires i >= |s| ==> r == s + [t] && forall j :: 0 <= j < |s| ==> key(s[j]) != key(t)
    requires Folded(same + [t], join) == if same == [] then t else join(Folded(same, join), t)
    ensures Distinct(r, key) && OneOf(r, key, k, if key(t) == k then same + [t] else same, join)
  {
    assert forall j :: 0 <= j < |s| ==> key(r[j]) == key(s[j]);
    assert i >= |s| ==> r[|s|] == t;
    assert i < |s| ==> key(r[i]) == key(t);
    if key(t) != k {
      assert forall j :: 0 <= j < |s| && key(s[j]) == k ==> r[j] == s[j];
    }
  }

  // ----- the lists of an API -----

  function RecordName(r: Record): string { r.name }
  function ContainerName(c: Container): string { c.record.name }
  function ClassName(c: Class): string { c.container.record.name }
  function CategoryName(c: Category): (string, string) { (c.interface, c.container.record.name) }

  function KeepFirst(r: Record, s: Record): Record { r }

  function JoinClass(c: Class, d: Class): Class {
    c.(container := Extended(c.container, d.container), hasException := d.hasException)
  }

  function JoinCategory(c: Category, d: Category): Category {
    c.(container := Extended(c.container, d.container))
  }

  lemma ListsAreKeyed()
    ensures Keyed(WithRecord, RecordName, KeepFirst)
    ensures Keyed(WithProtocol, ContainerName, Extended)
    ensures Keyed(WithClass, ClassName, JoinClass)
    ensures Keyed(WithCategory, CategoryName, JoinCategory)
  {
    forall s, t ensures Joins(WithRecord(s, t), s, t, RecordName, KeepFirst) {
      var i := Find(s, (r: Record) => r.name == t.name);
      if i < |s| { assert s[i := s[i]] == s; }
    }
    forall s, t ensures Joins(WithProtocol(s, t), s, t, ContainerName, Extended) {
      var i := Find(s, (d: Container) => d.record.name == t.record.name);
    }
    forall s, t ensures Joins(WithClass(s, t), s, t, ClassName, JoinClass) {
      var i := Find(s, (d: Class) => d.container.record.name == t.container.record.name);
    }
    forall s, t ensures Joins(WithCategory(s, t), s, t, CategoryName, JoinCategory) {
      var n := t.container.record.name;
      var i := Find(s, (d: Category) => d.interface == t.interface && d.container.record.name == n);
    }
  }

  /** All methods of these containers, one after the other; and so on. */
  function MethodsOf(cs: seq<Container>): seq<Method> {
    if cs == [] then [] else MethodsOf(cs[..|cs| - 1]) + cs[|cs| - 1].methods
  }

  function PropertiesOf(cs: seq<Container>): seq<Property> {
    if cs == [] then [] else PropertiesOf(cs[..|cs| - 1]) + cs[|cs| - 1].properties
  }

  function IvarsOf(cs: seq<Container>): seq<Ivar> {
    if cs == [] then [] else IvarsOf(cs[..|cs| - 1]) + cs[|cs| - 1].ivars
  }

  function ProtocolsOf(cs: seq<Container>): seq<string> {
    if cs == [] then [] else ProtocolsOf(cs[..|cs| - 1]) + cs[|cs| - 1].protocols
  }

  /** The record of the first container with the parts of all. */
  function Gathered(cs: seq<Container>): Container
    requires cs != []
  {
    Container(cs[0].record, MethodsOf(cs), PropertiesOf(cs), IvarsOf(cs), ProtocolsOf(cs))
  }

  lemma GatheredNext(cs: seq<Container>, c: Container)
    ensures Gathered(cs + [c]) == if cs == [] then c else Extended(Gathered(cs), c)
  {
    var all := cs + [c];
    assert all[..|all| - 1] == cs && all[|all| - 1] == c;
    assert MethodsOf(all) == MethodsOf(cs) + c.methods && PropertiesOf(all) == PropertiesOf(cs) + c.properties;
    assert IvarsOf(all) == IvarsOf(cs) + c.ivars && ProtocolsOf(all) == ProtocolsOf(cs) + c.protocols;
    assert [] + c.methods == c.methods && [] + c.properties == c.properties && [] + c.ivars == c.ivars &&
           [] + c.protocols == c.protocols;
  }

  lemma {:induction false} ExtendedAll(cs: seq<Container>)
    requires cs != []
    ensures Folded(cs, Extended) == Gathered(cs)
  {
    var n := |cs| - 1;
    assert cs == cs[..n] + [cs[n]];
    GatheredNext(cs[..n], cs[n]);
    if n > 0 {
      ExtendedAll(cs[..n]);
    }
  }

  function ContainersOf(cs: seq<Class>): seq<Container> {
    seq(|cs|, i requires 0 <= i < |cs| => cs[i].container)
  }

  function CategoryContainers(cs: seq<Category>): seq<Container> {
    seq(|cs|, i requires 0 <= i < |cs| => cs[i].container)
  }

  lemma {:induction false} ClassesJoined(cs: seq<Class>)
    requires cs != []
    ensures Folded(cs, JoinClass)
         == Class(Gathered(ContainersOf(cs)), cs[0].super, cs[|cs| - 1].hasException, cs[0].categories)
  {
    ExtendedAll(ContainersOf(cs));
    var n := |cs| - 1;
    if n > 0 {
      ClassesJoined(cs[..n]);
      ExtendedAll(ContainersOf(cs[..n]));
      assert ContainersOf(cs)[..n] == ContainersOf(cs[..n]);
      hide Gathered, Extended;
    } else {
      assert Folded(ContainersOf(cs), Extended) == cs[0].container;
    }
  }

  lemma {:induction false} CategoriesJoined(cs: seq<Category>)
    requires cs != []
    ensures Folded(cs, JoinCategory) == Category(Gathered(CategoryContainers(cs)), cs[0].interface)
  {
    ExtendedAll(CategoryContainers(cs));
    var n := |cs| - 1;
    if n > 0 {
      CategoriesJoined(cs[..n]);
      ExtendedAll(CategoryContainers(cs[..n]));
      assert CategoryContainers(cs)[..n] == CategoryContainers(cs[..n]);
      hide Gathered, Extended;
    } else {
      assert Folded(CategoryContainers(cs), Extended) == cs[0].container;
    }
  }

  lemma {:induction false} FirstKept(rs: seq<Record>)
    requires rs != []
    ensures Folded(rs, KeepFirst) == rs[0]
  {
    if |rs| > 1 {
      FirstKept(rs[..|rs| - 1]);
    }
  }

  lemma {:induction false} OfAdded<T, K(!new)>(ts: seq<T>, key: T -> K, j: nat)
    requires j < |ts|
    ensures Of(ts, key, key(ts[j])) != []
  {
    if j < |ts| - 1 {
      OfAdded(ts[..|ts| - 1], key, j);
    }
  }

  ghost predicate Has<T, K(!new)>(stored: seq<T>, key: T -> K, t: T) {
    exists i :: 0 <= i < |stored| && key(stored[i]) == key(t)
  }

  ghost predicate NothingLost<T, K(!new)>(adds: seq<T>, stored: seq<T>, key: T -> K) {
    Distinct(stored, key) && forall j :: 0 <= j < |adds| ==> Has(stored, key, adds[j])
  }

  lemma DistinctStored<T(!new), K(!new)>(adds: seq<T>, add: (seq<T>, T) -> seq<T>, key: T -> K, join: (T, T) -> T)
    requires Keyed(add, key, join)
    ensures Distinct(AddEach([], adds, add), key)
  {
    if adds != [] {
      StoredOnce(adds, add, key, join, key(adds[0]));
    }
  }

  /** Nothing that was added is lost, and what is stored is all additions of its key
      joined. */
  lemma Stored<T(!new), K(!new)>(adds: seq<T>, add: (seq<T>, T) -> seq<T>, key: T -> K, join: (T, T) -> T)
    requires Keyed(add, key, join)
    ensures var stored := AddEach([], adds, add);
            NothingLost(adds, stored, key) &&
            forall i :: 0 <= i < |stored| ==>
              Of(adds, key, key(stored[i])) != [] && stored[i] == Folded(Of(adds, key, key(stored[i])), join)
  {
    var stored := AddEach([], adds, add);
    DistinctStored(adds, add, key, join);
    forall j | 0 <= j < |adds| ensures Has(stored, key, adds[j]) {
      StoredOnce(adds, add, key, join, key(adds[j]));
      OfAdded(adds, key, j);
      hide Of, Folded, AddEach;
    }
    forall i | 0 <= i < |stored|
      ensures Of(adds, key, key(stored[i])) != [] && stored[i] == Folded(Of(adds, key, key(stored[i])), join)
    {
      StoredOnce(adds, add, key, join, key(stored[i]));
      hide Of, Folded, AddEach;
    }
  }

  /** Enum constants and typedefs: the first record of a name stays. */
  lemma StoredRecord(adds: seq<Record>, i: nat)
    requires i < |AddEach([], adds, WithRecord)|
    ensures var r := AddEach([], adds, WithRecord)[i];
            var same := Of(adds, RecordName, r.name);
            same != [] && r == same[0]
  {
    ListsAreKeyed();
    Stored(adds, WithRecord, RecordName, KeepFirst);
    hide Keyed, Of, AddEach;
    FirstKept(Of(adds, RecordName, AddEach([], adds, WithRecord)[i].name));
  }

  /** A protocol has the record of the first of its name and the parts of all. */
  lemma StoredProtocol(adds: seq<Container>, i: nat)
    requires i < |AddEach([], adds, WithProtocol)|
    ensures var c := AddEach([], adds, WithProtocol)[i];
            var same := Of(adds, ContainerName, c.record.name);
            same != [] && c.record == same[0].record && c.methods == MethodsOf(same) &&
            c.properties == PropertiesOf(same) && c.ivars == IvarsOf(same) && c.protocols == ProtocolsOf(same)
  {
    ListsAreKeyed();
    Stored(adds, WithProtocol, ContainerName, Extended);
    hide Keyed, Of, AddEach;
    ExtendedAll(Of(adds, ContainerName, AddEach([], adds, WithProtocol)[i].record.name));
  }

  /** So has an interface, with the superclass of the first; the last one says whether it
      has an exception type. */
  lemma StoredClass(adds: seq<Class>, i: nat)
    requires i < |AddEach([], adds, WithClass)|
    ensures var c := AddEach([], adds, WithClass)[i];
            var same := Of(adds, ClassName, c.container.record.name);
            same != [] && c.super == same[0].super && c.categories == same[0].categories &&
            c.hasException == same[|same| - 1].hasException &&
            c.container.record == same[0].container.record &&
            c.container.methods == MethodsOf(ContainersOf(same)) &&
            c.container.properties == PropertiesOf(ContainersOf(same)) &&
            c.container.ivars == IvarsOf(ContainersOf(same)) &&
            c.container.protocols == ProtocolsOf(ContainersOf(same))
  {
    ListsAreKeyed();
    Stored(adds, WithClass, ClassName, JoinClass);
    hide Keyed, Of, AddEach;
    ClassesJoined(Of(adds, ClassName, AddEach([], adds, WithClass)[i].container.record.name));
  }

  /** Categories are told apart by their interface and their name together. */
  lemma StoredCategory(adds: seq<Category>, i: nat)
    requires i < |AddEach([], adds, WithCategory)|
    ensures var c := AddEach([], adds, WithCategory)[i];
            var same := Of(adds, CategoryName, (c.interface, c.container.record.name));
            same != [] && c.interface == same[0].interface &&
            c.container.record == same[0].container.record &&
            c.container.methods == MethodsOf(CategoryContainers(same)) &&
            c.container.properties == PropertiesOf(CategoryContainers(same)) &&
            c.container.ivars == IvarsOf(CategoryContainers(same)) &&
            c.container.protocols == ProtocolsOf(CategoryContainers(same))
  {
    ListsAreKeyed();
    Stored(adds, WithCategory, CategoryName, JoinCategory);
    hide Keyed, Of, AddEach;
    var c := AddEach([], adds, WithCategory)[i];
    CategoriesJoined(Of(adds, CategoryName, (c.interface, c.container.record.name)));
  }

  /** No name is stored twice and none that was added is missing. */
  lemma StoredNames(protocols: seq<Container>, classes: seq<Class>, categories: seq<Category>, records: seq<Record>)
    ensures NothingLost(protocols, AddEach([], protocols, WithProtocol), ContainerName)
    ensures NothingLost(classes, AddEach([], classes, WithClass), ClassName)
    ensures NothingLost(categories, AddEach([], categories, WithCategory), CategoryName)
    ensures NothingLost(records, AddEach([], records, WithRecord), RecordName)
  {
    ListsAreKeyed();
    hide Keyed, AddEach, NothingLost, Of, Folded;
    Stored(protocols, WithProtocol, ContainerName, Extended);
    Stored(classes, WithClass, ClassName, JoinClass);
    Stored(categories, WithCategory, CategoryName, JoinCategory);
    Stored(records, WithRecord, RecordName, KeepFirst);
  }
}

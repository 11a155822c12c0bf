/** The records of an API, kept by name in the order in which they came. */
module ApiRecords {
  import opened InterfaceAlgebra

  /** A location without a file is invalid. */
  datatype Loc = Loc(file: string, line: nat, column: nat)

  const NOWHERE := Loc("", 0, 0)

  datatype Record = Record(name: string, loc: Loc, availability: Availability, linkage: Linkage,
                           flags: SymbolFlags, access: Access)

  datatype GlobalKind = UnknownKind | Variable | Function

  datatype Global = Global(record: Record, kind: GlobalKind)

  datatype Method = Method(record: Record, isInstance: bool, isOptional: bool, isDynamic: bool)

  datatype Property = Property(record: Record, readOnly: bool, dynamic: bool, classProperty: bool,
                               getter: string, setter: string, isOptional: bool)

  datatype Control = NoControl | PrivateControl | ProtectedControl | PublicControl | PackageControl

  datatype Ivar = Ivar(record: Record, control: Control)

  datatype Container = Container(record: Record, methods: seq<Method>, properties: seq<Property>, ivars: seq<Ivar>,
                                 protocols: seq<string>)

  /** An interface knows its categories by name. */
  datatype Class = Class(container: Container, super: string, hasException: bool, categories: seq<string>)

  datatype Category = Category(container: Container, interface: string)

  // ----- access and linkage in their numeric order -----

  function AccessRank(a: Access): nat {
    match a
    case NoAccess => 0
    case Project => 1
    case Private => 2
    case Public => 3
  }

  function LinkageRank(l: Linkage): nat {
    match l
    case Unknown => 0
    case Internal => 1
    case External => 2
    case Reexported => 3
    case Exported => 4
  }

  function LowerAccess(a: Access, b: Access): Access {
    if AccessRank(a) <= AccessRank(b) then a else b
  }

  function HigherLinkage(l: Linkage, m: Linkage): Linkage {
    if LinkageRank(l) >= LinkageRank(m) then l else m
  }

  // ----- one addition after the other -----

  function AddEach<S, T>(s: S, ts: seq<T>, add: (S, T) -> S): S {
    if ts == [] then s else add(AddEach(s, ts[..|ts| - 1], add), ts[|ts| - 1])
  }

  lemma AddNext<S, T>(s: S, ts: seq<T>, t: T, add: (S, T) -> S)
    ensures AddEach(s, ts + [t], add) == add(AddEach(s, ts, add), t)
  {
    assert (ts + [t])[..|ts|] == ts;
  }

  // ----- globals -----

  predicate DistinctGlobals(gs: seq<Global>) {
    forall i, j :: 0 <= i < j < |gs| ==> gs[i].record.name != gs[j].record.name
  }

  /** Where the record of a name is, or the length. */
  function Place(gs: seq<Global>, n: string): (i: nat)
    ensures i <= |gs|
    ensures i < |gs| ==> gs[i].record.name == n
    ensures forall j :: 0 <= j < i ==> gs[j].record.name != n
  {
    if gs == [] then 0 else if gs[0].record.name == n then 0 else 1 + Place(gs[1..], n)
  }

  /** The stored record takes the lower access and the higher linkage; the rest of
      a later record of the same name is ignored. */
  function WithGlobal(gs: seq<Global>, g: Global): seq<Global> {
    var i := Place(gs, g.record.name);
    if i == |gs| then gs + [g]
    else
      var r := gs[i].record;
      var access, linkage := LowerAccess(r.access, g.record.access), HigherLinkage(r.linkage, g.record.linkage);
      gs[i := gs[i].(record := r.(access := access, linkage := linkage))]
  }

  /** The additions that concern one name. */
  function Named(gs: seq<Global>, n: string): seq<Global> {
    if gs == [] then []
    else Named(gs[..|gs| - 1], n) + if gs[|gs| - 1].record.name == n then [gs[|gs| - 1]] else []
  }

  function LowestAccess(gs: seq<Global>): Access
    requires gs != []
  {
    if |gs| == 1 then gs[0].record.access else LowerAccess(LowestAccess(gs[..|gs| - 1]), gs[|gs| - 1].record.access)
  }

  function HighestLinkage(gs: seq<Global>): Linkage
    requires gs != []
  {
    if |gs| == 1 then gs[0].record.linkage
    else HigherLinkage(HighestLinkage(gs[..|gs| - 1]), gs[|gs| - 1].record.linkage)
  }

  lemma WithGlobalPlaces(gs: seq<Global>, g: Global, n: string)
    requires DistinctGlobals(gs)
    ensures var after := WithGlobal(gs, g);
            var i := Place(after, n);
            DistinctGlobals(after) && (n != g.record.name ==> (i < |after| <==> Place(gs, n) < |gs|)) &&
            (n != g.record.name && i < |after| ==> after[i] == gs[Place(gs, n)]) &&
            (n == g.record.name ==> i < |after| && after[i] == if Place(gs, n) == |gs| then g else after[Place(gs, n)])
  {
    var after := WithGlobal(gs, g);
    assert forall j :: 0 <= j < |gs| ==> after[j].record.name == gs[j].record.name;
    assert |gs| < |after| ==> after[|gs|] == g;
    SamePlace(gs, after, n);
  }

  lemma SamePlace(gs: seq<Global>, after: seq<Global>, n: string)
    requires |gs| <= |after| <= |gs| + 1 && forall j :: 0 <= j < |gs| ==> after[j].record.name == gs[j].record.name
    ensures Place(gs, n) < |gs| ==> Place(after, n) == Place(gs, n)
    ensures Place(gs, n) == |gs| ==>
              Place(after, n) == if |gs| < |after| && after[|gs|].record.name != n then |after| else |gs|
  {
    var i, j := Place(after, n), Place(gs, n);
    if i < |gs| {
      assert gs[i].record.name == n;
    }
    if j < |gs| {
      assert after[j].record.name == n;
    }
    if i > |gs| {
      assert after[|gs|].record.name != n;
    }
  }

  /** However often and in whatever order a name was added, there is one record for
      it: the first, with the lowest access and the highest linkage of all. */
  lemma {:induction false} OneRecordPerName(adds: seq<Global>, n: string)
    ensures DistinctGlobals(AddEach([], adds, WithGlobal))
    ensures var stored := AddEach([], adds, WithGlobal);
            var i, same := Place(stored, n), Named(adds, n);
            (i < |stored| <==> same != []) &&
            (same != [] ==>
               stored[i] == same[0].(record := same[0].record.(access := LowestAccess(same),
                 linkage := HighestLinkage(same))))
  {
    if adds != [] {
      var before, g := AddEach([], adds[..|adds| - 1], WithGlobal), adds[|adds| - 1];
      OneRecordPerName(adds[..|adds| - 1], n);
      WithGlobalPlaces(before, g, n);
      var same := Named(adds[..|adds| - 1], n);
      if g.record.name == n {
        assert (same + [g])[..|same|] == same;
      } else {
        assert same + [] == same;
      }
    }
  }

  /** The lowest access is one that was passed, and none passed is lower; the same
      for the highest linkage. */
  lemma {:induction false} ExtremesArePassed(gs: seq<Global>)
    requires gs != []
    ensures (exists i :: 0 <= i < |gs| && gs[i].record.access == LowestAccess(gs)) &&
            forall i :: 0 <= i < |gs| ==> AccessRank(LowestAccess(gs)) <= AccessRank(gs[i].record.access)
    ensures (exists i :: 0 <= i < |gs| && gs[i].record.linkage == HighestLinkage(gs)) &&
            forall i :: 0 <= i < |gs| ==> LinkageRank(gs[i].record.linkage) <= LinkageRank(HighestLinkage(gs))
  {
    var n := |gs| - 1;
    if n > 0 {
      var front := gs[..n];
      ExtremesArePassed(front);
      assert forall i :: 0 <= i < n ==> front[i] == gs[i];
      var a :| 0 <= a < n && front[a].record.access == LowestAccess(front);
      var l :| 0 <= l < n && front[l].record.linkage == HighestLinkage(front);
      assert gs[a].record.access == LowestAccess(front) && gs[l].record.linkage == HighestLinkage(front);
    } else {
      assert gs[0].record.access == LowestAccess(gs) && gs[0].record.linkage == HighestLinkage(gs);
    }
  }
}

/** The set of symbols of a file: a hash map from kind and name to a symbol
    that is filled in place. */
module SymbolSets {
  import opened InterfaceAlgebra
  import opened SortedVectors
  import opened InterfaceFiles

  // ----- availability -----

  function WithInfo(m: map<Target, Availability>, t: Target, info: Availability): map<Target, Availability> {
    if t !in m then m[t := info]
    else if Usable(info) then m[t := m[t].(unavailable := false)]
    else m
  }

  function AllTargets(avail: seq<(Target, Availability)>): seq<Target> {
    seq(|avail|, i requires 0 <= i < |avail| => avail[i].0)
  }

  /** The targets in the order in which they came, a repeated one at its first place. */
  function Appended(have: seq<Target>, ts: seq<Target>): seq<Target> {
    if ts == [] then have
    else
      var before, t := Appended(have, ts[..|ts| - 1]), ts[|ts| - 1];
      if t in before then before else before + [t]
  }

  lemma {:induction false} AppendedToNothing(ts: seq<Target>)
    requires NoDuplicates(ts)
    ensures Appended([], ts) == ts
  {
    if ts != [] {
      AppendedToNothing(ts[..|ts| - 1]);
      assert ts == ts[..|ts| - 1] + [ts[|ts| - 1]];
    }
  }

  /** A target already listed keeps its dates; usable news makes it available again. */
  method AddAvailabilityInfo(avail: seq<(Target, Availability)>, t: Target, info: Availability)
    returns (w: seq<(Target, Availability)>)
    requires DistinctKeys(avail)
    ensures DistinctKeys(w) && AsMap(w) == WithInfo(AsMap(avail), t, info)
    ensures AllTargets(w) == if t in AllTargets(avail) then AllTargets(avail) else AllTargets(avail) + [t]
  {
    var i := 0;
    while i < |avail| && avail[i].0 != t
      invariant 0 <= i <= |avail| && forall j :: 0 <= j < i ==> avail[j].0 != t
    {
      i := i + 1;
    }
    if i < |avail| {
      assert AllTargets(avail)[i] == t;
      AsMapAt(avail, i);
      w := avail;
      if Usable(info) {
        UpdatedMap(avail, i, avail[i].1.(unavailable := false));
        w := avail[i := (avail[i].0, avail[i].1.(unavailable := false))];
      }
    } else {
      AsMapKeys(avail, t);
      w := avail + [(t, info)];
      assert w[..|w| - 1] == avail;
    }
  }

  lemma MakeAvailableNext(m: map<Target, Availability>, ts: set<Target>, t: Target)
    ensures MakeAvailable(m, ts + {t}) == WithInfo(MakeAvailable(m, ts), t, DEFAULT)
  {
  }

  method AddAvailable(avail: seq<(Target, Availability)>, ts: seq<Target>) returns (w: seq<(Target, Availability)>)
    requires DistinctKeys(avail)
    ensures DistinctKeys(w) && AsMap(w) == MakeAvailable(AsMap(avail), Members(ts))
    ensures AllTargets(w) == Appended(AllTargets(avail), ts)
  {
    w := avail;
    assert MakeAvailable(AsMap(avail), {}) == AsMap(avail);
    for i := 0 to |ts|
      invariant DistinctKeys(w) && AsMap(w) == MakeAvailable(AsMap(avail), Members(ts[..i]))
      invariant AllTargets(w) == Appended(AllTargets(avail), ts[..i])
    {
      hide AsMap, DistinctKeys, MakeAvailable, AllTargets;
      assert ts[..i + 1][..i] == ts[..i];
      assert Members(ts[..i + 1]) == Members(ts[..i]) + {ts[i]};
      MakeAvailableNext(AsMap(avail), Members(ts[..i]), ts[i]);
      w := AddAvailabilityInfo(w, ts[i], DEFAULT);
    }
    assert ts[..|ts|] == ts;
  }

  /** The architectures some target makes the symbol available on. */
  method ArchitecturesOf(x: XPI) returns (archs: set<Arch>)
    requires DistinctKeys(x.avail)
    ensures archs == UsableArchs(SymbolOf(x))
    ensures forall a :: a in archs <==>
              a != AK_UNKNOWN &&
              exists i ::
                0 <= i < |x.avail| && x.avail[i].0.arch == a && !x.avail[i].1.unavailable && x.avail[i].1.obsoleted == 0
  {
    archs := {};
    for i := 0 to |x.avail|
      invariant archs
             == set j | 0 <= j < i && Usable(x.avail[j].1) && x.avail[j].0.arch != AK_UNKNOWN :: x.avail[j].0.arch
    {
      if Usable(x.avail[i].1) && x.avail[i].0.arch != AK_UNKNOWN {
        archs := archs + {x.avail[i].0.arch};
      }
    }
    UsableListed(x);
  }

  lemma UsableListed(x: XPI)
    requires DistinctKeys(x.avail)
    ensures UsableArchs(SymbolOf(x))
         == set j | 0 <= j < |x.avail| && Usable(x.avail[j].1) && x.avail[j].0.arch != AK_UNKNOWN :: x.avail[j].0.arch
  {
    var usable := set t | t in AsMap(x.avail) && Usable(AsMap(x.avail)[t]);
    forall j | 0 <= j < |x.avail|
      ensures x.avail[j].0 in AsMap(x.avail) && AsMap(x.avail)[x.avail[j].0] == x.avail[j].1
    {
      AsMapAt(x.avail, j);
    }
    forall t | t in usable ensures exists j :: 0 <= j < |x.avail| && x.avail[j].0 == t && Usable(x.avail[j].1) {
      AsMapKeys(x.avail, t);
      var j :| 0 <= j < |x.avail| && x.avail[j].0 == t;
      AsMapAt(x.avail, j);
    }
    forall j | 0 <= j < |x.avail| && Usable(x.avail[j].1) ensures x.avail[j].0 in usable {
    }
  }

  /** The symbol's targets on the given architectures, in their order. */
  function TargetsOn(avail: seq<(Target, Availability)>, archs: set<Arch>): seq<Target> {
    if avail == [] then []
    else
      var last := avail[|avail| - 1].0;
      TargetsOn(avail[..|avail| - 1], archs) + if last.arch in archs then [last] else []
  }

  lemma {:induction false} TargetsOnMembers(avail: seq<(Target, Availability)>, archs: set<Arch>)
    ensures Members(TargetsOn(avail, archs)) == set t | t in AsMap(avail) && t.arch in archs
  {
    if avail != [] {
      var front, last := avail[..|avail| - 1], avail[|avail| - 1].0;
      TargetsOnMembers(front, archs);
      var ts := TargetsOn(front, archs);
      assert Members(ts + [last]) == Members(ts) + {last};
      assert ts + [] == ts;
    }
  }

  lemma AllTargetsMembers(avail: seq<(Target, Availability)>)
    ensures Members(AllTargets(avail)) == AsMap(avail).Keys
  {
    forall t ensures t in AllTargets(avail) <==> t in AsMap(avail) {
      KeysListed(avail, AllTargets(avail), t);
    }
  }

  // ----- the set -----

  function Requested(linkage: Linkage, flags: SymbolFlags, access: Access, ts: set<Target>): Symbol {
    Symbol(linkage, flags, access, map t | t in ts :: DEFAULT)
  }

  lemma SymbolsUpdated(table: map<SymbolKey, XPI>, k: SymbolKey, x: XPI)
    requires ListedOnce(table) && DistinctKeys(x.avail)
    ensures SymbolsOf(table[k := x]) == SymbolsOf(table)[k := SymbolOf(x)]
    ensures ListedOnce(table[k := x])
  {
  }

  lemma SymbolsAt(table: map<SymbolKey, XPI>, k: SymbolKey)
    requires ListedOnce(table)
    ensures k in table <==> k in SymbolsOf(table)
    ensures k in table ==> DistinctKeys(table[k].avail) && SymbolsOf(table)[k] == SymbolOf(table[k])
  {
  }

  /** The symbol that an addition starts from. */
  function Located(symbols: map<SymbolKey, Symbol>, k: SymbolKey, s: Symbol): Symbol {
    if k in symbols then symbols[k] else FreshSymbol(k, s)
  }

  /** The targets of a symbol in the order in which they were added. */
  function OrderOf(table: map<SymbolKey, XPI>, k: SymbolKey): seq<Target> {
    if k in table then AllTargets(table[k].avail) else []
  }

  lemma OrderUpdated(table: map<SymbolKey, XPI>, k: SymbolKey, x: XPI)
    ensures forall j :: OrderOf(table[k := x], j) == if j == k then AllTargets(x.avail) else OrderOf(table, j)
    ensures k !in table ==> OrderOf(table, k) == []
    ensures k in table ==> OrderOf(table, k) == AllTargets(table[k].avail)
  {
  }

  class XPISet {
    var table: map<SymbolKey, XPI>

    constructor ()
      ensures table == map[]
    {
      table := map[];
    }

    ghost predicate Valid() reads this {
      ListedOnce(table)
    }

    ghost function Content(): map<SymbolKey, Symbol> reads this {
      SymbolsOf(table)
    }

    /** Creates the symbol unless it is there; an existing one keeps its linkage
        and flags. The access is updated either way. */
    method AddSymbolImpl(k: SymbolKey, linkage: Linkage, flags: SymbolFlags, access: Access)
      requires Valid()
      modifies this
      ensures Valid() && k in table
      ensures var have := Located(old(Content()), k, Requested(linkage, flags, access, {}));
              Content() == old(Content())[k := have.(access := UpdateAccess(have.access, access))]
      ensures forall j :: OrderOf(table, j) == old(OrderOf(table, j))
    {
      hide ListedOnce, SymbolsOf, UpdateAccess, DistinctKeys, OrderOf;
      SymbolsAt(table, k);
      var found: XPI;
      if k in table {
        found := table[k];
      } else {
        found := XPI(linkage, if k.kind == GlobalSymbol then flags else NO_FLAGS, access, []);
        NoKeys();
      }
      assert SymbolOf(found) == Located(Content(), k, Requested(linkage, flags, access, {}));
      var updated := found.(access := UpdateAccess(found.access, access));
      SymbolsUpdated(table, k, updated);
      OrderUpdated(table, k, updated);
      table := table[k := updated];
    }

    /** A symbol for a range of targets. */
    method Add(k: SymbolKey, linkage: Linkage, flags: SymbolFlags, ts: seq<Target>, access: Access)
      requires Valid()
      modifies this
      ensures Valid()
      ensures Content() == AddSymbol(old(Content()), k, Requested(linkage, flags, access, Members(ts)))
      ensures forall j :: OrderOf(table, j)
                       == old(if j == k then Appended(OrderOf(table, k), ts) else OrderOf(table, j))
    {
      hide ListedOnce, SymbolsOf, UpdateAccess, DistinctKeys, MakeAvailable, AllTargets, Appended, OrderOf;
      AddSymbolImpl(k, linkage, flags, access);
      SymbolsAt(table, k);
      var avail := AddAvailable(table[k].avail, ts);
      SymbolsUpdated(table, k, table[k].(avail := avail));
      OrderUpdated(table, k, table[k].(avail := avail));
      table := table[k := table[k].(avail := avail)];
      LocatedEither(old(Content()), k, linkage, flags, access, Members(ts));
    }
  }

  lemma NoKeys()
    ensures DistinctKeys<Target, Availability>([])
  {
  }

  lemma LocatedEither(symbols: map<SymbolKey, Symbol>, k: SymbolKey, linkage: Linkage, flags: SymbolFlags,
                      access: Access, ts: set<Target>)
    ensures var have := Located(symbols, k, Requested(linkage, flags, access, {}));
            var added := have.(access := UpdateAccess(have.access, access), avail := MakeAvailable(have.avail, ts));
            AddSymbol(symbols, k, Requested(linkage, flags, access, ts)) == symbols[k := added]
  {
    assert Requested(linkage, flags, access, ts).avail.Keys == ts;
  }

  // ----- copying the symbols of another file -----

  predicate AllRenewed(symbols: map<SymbolKey, Symbol>) {
    forall k :: k in symbols ==> Renewed(k, symbols[k]) == symbols[k]
  }

  lemma AddNew(symbols: map<SymbolKey, Symbol>, k: SymbolKey, s: Symbol, ts: set<Target>)
    requires k !in symbols && s.avail.Keys == ts
    ensures AddSymbol(symbols, k, Requested(s.linkage, s.flags, s.access, ts)) == symbols[k := Renewed(k, s)]
  {
    var r := Requested(s.linkage, s.flags, s.access, ts);
    assert r.avail.Keys == ts;
    assert MakeAvailable(FreshSymbol(k, r).avail, ts) == Renewed(k, s).avail;
  }

  lemma AddKnown(symbols: map<SymbolKey, Symbol>, k: SymbolKey, s: Symbol)
    requires k in symbols && Renewed(k, symbols[k]) == symbols[k]
    ensures AddSymbol(symbols, k, Requested(s.linkage, s.flags, s.access, s.avail.Keys))
         == symbols[k := Joined(k, symbols[k], s)]
  {
    var r := Requested(s.linkage, s.flags, s.access, s.avail.Keys);
    assert r.avail.Keys == s.avail.Keys;
    var have := symbols[k].avail;
    assert forall t :: t in have ==> Renewed(k, symbols[k]).avail[t] == DEFAULT;
    assert MakeAvailable(have, s.avail.Keys) == Joined(k, symbols[k], s).avail;
  }

  lemma RestrictedTargets(x: XPI, archs: set<Arch>)
    ensures RestrictSymbol(SymbolOf(x), archs).avail.Keys == Members(TargetsOn(x.avail, archs))
    ensures RestrictSymbol(SymbolOf(x), archs).linkage == x.linkage &&
            RestrictSymbol(SymbolOf(x), archs).flags == x.flags
    ensures RestrictSymbol(SymbolOf(x), archs).access == x.access
  {
    TargetsOnMembers(x.avail, archs);
  }

  lemma FillOne<K, V>(base: map<K, V>, goal: map<K, V>, todo: set<K>, k: K)
    requires k in goal
    ensures (base + (goal - todo))[k := goal[k]] == base + (goal - (todo - {k}))
  {
  }

  lemma SkipOne<K, V>(base: map<K, V>, goal: map<K, V>, todo: set<K>, k: K)
    requires k !in goal
    ensures base + (goal - todo) == base + (goal - (todo - {k}))
  {
  }

  lemma NothingLeft<K, V>(base: map<K, V>, goal: map<K, V>)
    requires base.Keys <= goal.Keys
    ensures base + (goal - {}) == goal
  {
  }

  lemma NothingDone<K, V>(base: map<K, V>, goal: map<K, V>, todo: set<K>)
    requires forall k :: k in goal ==> k in todo || (k in base && base[k] == goal[k])
    ensures base + (goal - todo) == base
  {
  }

  /** The symbols, visited in any order, restricted to one architecture. */
  method CopyExtracted(into: XPISet, from: map<SymbolKey, XPI>, a: Arch)
    requires into.table == map[] && ListedOnce(from)
    modifies into
    ensures into.Valid() && into.Content() == ExtractSymbols(SymbolsOf(from), a)
  {
    var todo := from.Keys;
    ghost var goal := ExtractSymbols(SymbolsOf(from), a);
    NothingDone(map[], goal, todo);
    while todo != {}
      invariant todo <= from.Keys && into.Valid() && into.Content() == map[] + (goal - todo)
      decreases |todo|
    {
      var k :| k in todo;
      assert goal[k] == Renewed(k, RestrictSymbol(SymbolOf(from[k]), Single(a)));
      hide Renewed, AddSymbol, ListedOnce, RestrictSymbol, ExtractSymbols, SymbolsOf, SymbolOf;
      var ts := TargetsOn(from[k].avail, Single(a));
      RestrictedTargets(from[k], Single(a));
      AddNew(into.Content(), k, RestrictSymbol(SymbolOf(from[k]), Single(a)), Members(ts));
      FillOne(map[], goal, todo, k);
      into.Add(k, from[k].linkage, from[k].flags, ts, from[k].access);
      todo := todo - {k};
    }
    NothingLeft(map[], goal);
  }

  /** The symbols still available without the architecture, on what is left. */
  method CopyRemaining(into: XPISet, from: map<SymbolKey, XPI>, a: Arch)
    requires into.table == map[] && ListedOnce(from)
    modifies into
    ensures into.Valid() && into.Content() == RemoveSymbols(SymbolsOf(from), a)
  {
    var todo := from.Keys;
    ghost var goal := RemoveSymbols(SymbolsOf(from), a);
    NothingDone(map[], goal, todo);
    while todo != {}
      invariant todo <= from.Keys && into.Valid() && into.Content() == map[] + (goal - todo)
      decreases |todo|
    {
      var k :| k in todo;
      SymbolsAt(from, k);
      RemovedAt(SymbolsOf(from), a, k);
      hide Renewed, AddSymbol, ListedOnce, RestrictSymbol, RemoveSymbols, UsableArchs, SymbolsOf, SymbolOf;
      var archs := ArchitecturesOf(from[k]);
      archs := archs - {a};
      if archs == {} {
        SkipOne(map[], goal, todo, k);
      } else {
        var ts := TargetsOn(from[k].avail, archs);
        RestrictedTargets(from[k], archs);
        AddNew(into.Content(), k, RestrictSymbol(SymbolOf(from[k]), archs), Members(ts));
        FillOne(map[], goal, todo, k);
        into.Add(k, from[k].linkage, from[k].flags, ts, from[k].access);
      }
      todo := todo - {k};
    }
    NothingLeft(map[], goal);
  }

  lemma RemovedAt(symbols: map<SymbolKey, Symbol>, a: Arch, k: SymbolKey)
    requires k in symbols
    ensures k in RemoveSymbols(symbols, a) <==> UsableArchs(symbols[k]) - {a} != {}
    ensures k in RemoveSymbols(symbols, a) ==>
              RemoveSymbols(symbols, a)[k] == Renewed(k, RestrictSymbol(symbols[k], UsableArchs(symbols[k]) - {a}))
  {
  }

  /** One symbol, on top of those already there. */
  method CopySymbol(into: XPISet, k: SymbolKey, x: XPI)
    requires into.Valid() && (k in into.Content() ==> Renewed(k, into.Content()[k]) == into.Content()[k])
    modifies into
    ensures into.Valid()
    ensures into.Content() == old(into.Content())[k := MergedSymbol(old(into.Content()), k, SymbolOf(x))]
    ensures forall j :: OrderOf(into.table, j)
                     == old(if j == k then Appended(OrderOf(into.table, k), AllTargets(x.avail))
                            else OrderOf(into.table, j))
  {
    hide AddSymbol, OrderOf, Appended, AllTargets;
    AllTargetsMembers(x.avail);
    AddEither(into.Content(), k, SymbolOf(x));
    into.Add(k, x.linkage, x.flags, AllTargets(x.avail), x.access);
  }

  function MergedSymbol(symbols: map<SymbolKey, Symbol>, k: SymbolKey, s: Symbol): Symbol {
    if k in symbols then Joined(k, symbols[k], s) else Renewed(k, s)
  }

  /** All symbols, on top of those already there. */
  method CopyAll(into: XPISet, from: map<SymbolKey, XPI>)
    requires into.Valid() && ListedOnce(from) && AllRenewed(into.Content())
    modifies into
    ensures into.Valid() && into.Content() == MergeSymbols(old(into.Content()), SymbolsOf(from))
    ensures forall k :: OrderOf(into.table, k) == Appended(old(OrderOf(into.table, k)), OrderOf(from, k))
  {
    var todo := from.Keys;
    ghost var was, table0 := into.Content(), into.table;
    ghost var goal := MergeSymbols(was, SymbolsOf(from));
    NothingDone(was, goal, todo);
    NoneArrived(table0, from);
    while todo != {}
      invariant todo <= from.Keys && into.Valid() && into.Content() == was + (goal - todo)
      invariant Arrived(into.table, table0, from, todo)
      decreases |todo|
    {
      var k :| k in todo;
      SymbolsAt(from, k);
      MergedAt(was, SymbolsOf(from), todo, k);
      hide Renewed, AllRenewed, ListedOnce, MergeSymbols, MergedSymbol, SymbolsOf, OrderOf, Appended, Arrived;
      FillOne(was, goal, todo, k);
      ghost var before := into.table;
      CopySymbol(into, k, from[k]);
      OneArrived(before, into.table, table0, from, todo, k);
      todo := todo - {k};
    }
    NothingLeft(was, goal);
  }

  lemma MergedAt(was: map<SymbolKey, Symbol>, from: map<SymbolKey, Symbol>, todo: set<SymbolKey>, k: SymbolKey)
    requires AllRenewed(was) && k in from && k in todo
    ensures var now := was + (MergeSymbols(was, from) - todo);
            k in MergeSymbols(was, from) && MergeSymbols(was, from)[k] == MergedSymbol(now, k, from[k]) &&
            (k in now ==> Renewed(k, now[k]) == now[k])
  {
  }

  /** The symbols already visited have got the targets of the other file, in its order. */
  ghost predicate Arrived(table: map<SymbolKey, XPI>, table0: map<SymbolKey, XPI>, from: map<SymbolKey, XPI>,
                          todo: set<SymbolKey>)
  {
    forall k :: OrderOf(table, k)
             == if k in todo then OrderOf(table0, k) else Appended(OrderOf(table0, k), OrderOf(from, k))
  }

  lemma NoneArrived(table0: map<SymbolKey, XPI>, from: map<SymbolKey, XPI>)
    ensures Arrived(table0, table0, from, from.Keys)
  {
  }

  lemma OneArrived(before: map<SymbolKey, XPI>, after: map<SymbolKey, XPI>, table0: map<SymbolKey, XPI>,
                   from: map<SymbolKey, XPI>, todo: set<SymbolKey>, k: SymbolKey)
    requires Arrived(before, table0, from, todo) && k in todo && k in from
    requires forall j :: OrderOf(after, j) == if j == k then Appended(OrderOf(before, k), AllTargets(from[k].avail))
                                              else OrderOf(before, j)
    ensures Arrived(after, table0, from, todo - {k})
  {
  }

  lemma AddEither(symbols: map<SymbolKey, Symbol>, k: SymbolKey, s: Symbol)
    requires k in symbols ==> Renewed(k, symbols[k]) == symbols[k]
    ensures AddSymbol(symbols, k, Requested(s.linkage, s.flags, s.access, s.avail.Keys))
         == symbols[k := if k in symbols then Joined(k, symbols[k], s) else Renewed(k, s)]
  {
    if k in symbols {
      AddKnown(symbols, k, s);
    } else {
      AddNew(symbols, k, s, s.avail.Keys);
    }
  }

  lemma RenewedAgain(k: SymbolKey, s: Symbol, s': Symbol)
    ensures Renewed(k, Renewed(k, s)) == Renewed(k, s)
    ensures Joined(k, Renewed(k, s), s') == Joined(k, s, s')
  {
    assert Renewed(k, Renewed(k, s)).avail == Renewed(k, s).avail;
    assert Joined(k, Renewed(k, s), s').avail == Joined(k, s, s').avail;
  }

  /** Merging into nothing and then merging the second file is merging the two. */
  lemma MergeFromNothing(m: map<SymbolKey, Symbol>, n: map<SymbolKey, Symbol>)
    ensures AllRenewed(MergeSymbols(map[], m))
    ensures MergeSymbols(MergeSymbols(map[], m), n) == MergeSymbols(m, n)
  {
    hide Renewed, Joined;
    var first := MergeSymbols(map[], m);
    forall k | k in m ensures first[k] == Renewed(k, m[k]) && Renewed(k, first[k]) == first[k] {
      RenewedAgain(k, m[k], m[k]);
    }
    forall k | k in m && k in n ensures Joined(k, first[k], n[k]) == Joined(k, m[k], n[k]) {
      RenewedAgain(k, m[k], n[k]);
    }
  }
}

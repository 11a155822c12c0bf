/** Sections of a text stub: symbol names grouped by where they are available
    and listed by what they are. */
module TextSections {
  import opened InterfaceAlgebra
  import opened SortedVectors
  import opened SymbolSets

  datatype Bucket = Plain | Classes | ClassEHs | IVars | Weak | ThreadLocal

  /** The names for one group: a target list or an architecture set. */
  datatype Section<G> = Section(
    group: G, symbols: seq<string>, classes: seq<string>, classEHs: seq<string>,
    ivars: seq<string>, weakSymbols: seq<string>, tlvSymbols: seq<string>)

  /** Where a symbol is written: the group, the list in it, and the name there. */
  datatype Spot<G> = Spot(group: G, bucket: Bucket, text: string)

  function NamesIn<G>(s: Section<G>, b: Bucket): seq<string> {
    match b
    case Plain => s.symbols
    case Classes => s.classes
    case ClassEHs => s.classEHs
    case IVars => s.ivars
    case Weak => s.weakSymbols
    case ThreadLocal => s.tlvSymbols
  }

  function WithNames<G>(s: Section<G>, b: Bucket, names: seq<string>): Section<G> {
    match b
    case Plain => s.(symbols := names)
    case Classes => s.(classes := names)
    case ClassEHs => s.(classEHs := names)
    case IVars => s.(ivars := names)
    case Weak => s.(weakSymbols := names)
    case ThreadLocal => s.(tlvSymbols := names)
  }

  lemma OtherNames<G>(s: Section<G>, b: Bucket, names: seq<string>, c: Bucket)
    ensures NamesIn(WithNames(s, b, names), c) == if c == b then names else NamesIn(s, c)
    ensures WithNames(s, b, names).group == s.group
  {
  }

  // ----- sorting -----

  predicate Ordered(names: seq<string>) {
    forall i, j :: 0 <= i < j < |names| ==> !TextLess(names[j], names[i])
  }

  lemma {:induction false} OrderedTransitive(s: string, t: string, u: string)
    requires !TextLess(t, s) && TextLess(t, u)
    ensures TextLess(s, u)
  {
    if s != t {
      TextTotal(s, t);
      TextTransitive(s, t, u);
    }
  }

  /** Whatever the sort does, its result is ordered and has the same names. */
  method Sort(names: seq<string>) returns (r: seq<string>)
    ensures multiset(r) == multiset(names) && Ordered(r)
  {
    r := [];
    for i := 0 to |names|
      invariant multiset(r) == multiset(names[..i]) && Ordered(r)
    {
      var name := names[i];
      forall j, k | 0 <= j < k < |r| && TextLess(r[k], name) ensures TextLess(r[j], name) {
        OrderedTransitive(r[j], r[k], name);
      }
      var at := LowerBound(r, (other: string) => TextLess(other, name));
      OrderedInserted(r, at, name);
      assert names[..i + 1] == names[..i] + [name];
      assert r == r[..at] + r[at..];
      r := Inserted(r, at, name);
    }
    assert names[..|names|] == names;
  }

  lemma OrderedInserted(r: seq<string>, at: nat, name: string)
    requires Ordered(r) && at <= |r|
    requires forall j :: 0 <= j < at ==> TextLess(r[j], name)
    requires forall j :: at <= j < |r| ==> !TextLess(r[j], name)
    ensures Ordered(Inserted(r, at, name))
  {
    forall j | 0 <= j < at ensures !TextLess(name, r[j]) {
      if TextLess(name, r[j]) {
        TextTransitive(name, r[j], name);
        TextIrreflexive(name);
      }
    }
  }

  lemma SortedOnce(names: seq<string>, r: seq<string>)
    requires multiset(r) == multiset(names) && Ordered(r)
    ensures Members(r) == Members(names)
    ensures NoDuplicates(names) ==> SortedNames(r)
  {
    forall x ensures x in r <==> x in names {
      assert x in multiset(r) <==> x in multiset(names);
    }
    if NoDuplicates(names) {
      forall x ensures multiset(r)[x] <= 1 {
        CountAtMostOne(names, x);
      }
      NothingTwice(r);
      forall i, j | 0 <= i < j < |r| ensures TextLess(r[i], r[j]) {
        TextTotal(r[i], r[j]);
      }
    }
  }

  lemma NothingTwice<T>(r: seq<T>)
    requires forall x :: multiset(r)[x] <= 1
    ensures NoDuplicates(r)
  {
    forall i, j | 0 <= i < j < |r| ensures r[i] != r[j] {
      CountedTwice(r, i, j);
      assert multiset(r)[r[i]] <= 1;
    }
  }

  lemma CountedTwice<T>(r: seq<T>, i: nat, j: nat)
    requires i < j < |r|
    ensures r[i] == r[j] ==> multiset(r)[r[i]] >= 2
  {
    assert r == r[..i] + [r[i]] + r[i + 1..j] + [r[j]] + r[j + 1..];
  }

  lemma {:induction false} CountAtMostOne<T>(s: seq<T>, x: T)
    requires NoDuplicates(s)
    ensures multiset(s)[x] <= 1
  {
    if s != [] {
      CountAtMostOne(s[1..], x);
      assert s == [s[0]] + s[1..];
      assert s[0] !in s[1..];
    }
  }

  /** An ordered list is determined by what is in it and how often. */
  lemma {:induction false} OrderedCanonical(v: seq<string>, w: seq<string>)
    requires Ordered(v) && Ordered(w) && multiset(v) == multiset(w)
    ensures v == w
    decreases |v|
  {
    assert |v| == |multiset(v)| == |multiset(w)| == |w|;
    if v != [] {
      LeastFirst(v, w);
      LeastFirst(w, v);
      if v[0] != w[0] {
        TextTotal(v[0], w[0]);
      }
      assert v == [v[0]] + v[1..] && w == [w[0]] + w[1..];
      assert multiset(v[1..]) == multiset(v) - multiset{v[0]};
      assert multiset(w[1..]) == multiset(w) - multiset{v[0]};
      OrderedCanonical(v[1..], w[1..]);
    }
  }

  lemma LeastFirst(v: seq<string>, w: seq<string>)
    requires Ordered(w) && v != [] && w != [] && multiset(v) == multiset(w)
    ensures !TextLess(v[0], w[0])
  {
    assert v[0] in multiset(w);
    var j :| 0 <= j < |w| && w[j] == v[0];
    TextIrreflexive(w[0]);
  }

  // ----- groups -----

  function Groups<G>(ss: seq<Section<G>>): seq<G> {
    seq(|ss|, i requires 0 <= i < |ss| => ss[i].group)
  }

  ghost function GroupsOf<G(!new)>(spots: map<SymbolKey, Spot<G>>): set<G> {
    set k | k in spots :: spots[k].group
  }

  lemma GroupsNext<G(!new)>(spots: map<SymbolKey, Spot<G>>, k: SymbolKey, e: Spot<G>)
    requires k !in spots
    ensures GroupsOf(spots[k := e]) == GroupsOf(spots) + {e.group}
  {
    var next := spots[k := e];
    assert k in next;
    assert forall j :: j in spots ==> j in next && next[j] == spots[j];
  }

  // ----- writing one section -----

  /** The symbols written at one spot. */
  ghost function KeysAt<G(!new)>(spots: map<SymbolKey, Spot<G>>, e: Spot<G>): set<SymbolKey> {
    set k | k in spots && spots[k] == e
  }

  /** No two symbols are written at the same spot. */
  ghost predicate OneEach<G>(spots: map<SymbolKey, Spot<G>>) {
    forall k, k' :: k in spots && k' in spots && spots[k] == spots[k'] ==> k == k'
  }

  lemma KeysAtNext<G(!new)>(spots: map<SymbolKey, Spot<G>>, todo: set<SymbolKey>, k: SymbolKey, e: Spot<G>)
    requires k in todo && k in spots
    ensures |KeysAt(spots - (todo - {k}), e)| == |KeysAt(spots - todo, e)| + if spots[k] == e then 1 else 0
  {
    var before, after := spots - todo, spots - (todo - {k});
    assert forall j :: j in after <==> j in before || j == k;
    assert KeysAt(after, e) == KeysAt(before, e) + if spots[k] == e then {k} else {};
  }

  function Times(names: seq<string>, text: string): nat {
    multiset(names)[text]
  }

  /** A text is listed once for every symbol that is written there. */
  ghost predicate Gathered<G(!new)>(s: Section<G>, spots: map<SymbolKey, Spot<G>>, group: G) {
    s.group == group &&
    forall b, text :: Times(NamesIn(s, b), text) == |KeysAt(spots, Spot(group, b, text))|
  }

  lemma GatherNext<G(!new)>(s: Section<G>, spots: map<SymbolKey, Spot<G>>, todo: set<SymbolKey>, k: SymbolKey, group: G)
    requires k in todo && k in spots && Gathered(s, spots - todo, group)
    ensures var spot := spots[k];
            var names := NamesIn(s, spot.bucket) + [spot.text];
            var next := if spot.group == group then WithNames(s, spot.bucket, names) else s;
            Gathered(next, spots - (todo - {k}), group)
  {
    hide KeysAt;
    var spot := spots[k];
    var names := NamesIn(s, spot.bucket) + [spot.text];
    var next := if spot.group == group then WithNames(s, spot.bucket, names) else s;
    forall b, text ensures Times(NamesIn(next, b), text) == |KeysAt(spots - (todo - {k}), Spot(group, b, text))| {
      KeysAtNext(spots, todo, k, Spot(group, b, text));
      OtherNames(s, spot.bucket, names, b);
      assert Times(NamesIn(s, b), text) == |KeysAt(spots - todo, Spot(group, b, text))|;
    }
  }

  /** What is listed is where some symbol is written. */
  lemma GatheredName<G(!new)>(s: Section<G>, spots: map<SymbolKey, Spot<G>>, group: G, b: Bucket, text: string)
    requires Gathered(s, spots, group)
    ensures text in NamesIn(s, b) <==> exists k :: k in spots && spots[k] == Spot(group, b, text)
  {
    var e := Spot(group, b, text);
    assert text in NamesIn(s, b) <==> text in multiset(NamesIn(s, b));
    assert text in NamesIn(s, b) <==> Times(NamesIn(s, b), text) > 0;
    if k :| k in spots && spots[k] == e {
      assert k in KeysAt(spots, e);
    }
    if KeysAt(spots, e) != {} {
      var k :| k in KeysAt(spots, e);
      assert spots[k] == e;
    }
  }

  lemma GatheredOnce<G(!new)>(s: Section<G>, spots: map<SymbolKey, Spot<G>>, group: G, b: Bucket)
    requires Gathered(s, spots, group) && OneEach(spots)
    ensures NoDuplicates(NamesIn(s, b))
  {
    forall text ensures multiset(NamesIn(s, b))[text] <= 1 {
      AtMostOneKey(spots, Spot(group, b, text));
      assert Times(NamesIn(s, b), text) <= 1;
    }
    NothingTwice(NamesIn(s, b));
  }

  lemma AtMostOneKey<G(!new)>(spots: map<SymbolKey, Spot<G>>, e: Spot<G>)
    requires OneEach(spots)
    ensures |KeysAt(spots, e)| <= 1
  {
    var ks := KeysAt(spots, e);
    if ks != {} {
      var k :| k in ks;
      assert ks == {k};
    }
  }

  /** The symbols of one group, visited in any order and sorted list by list. */
  method WriteSection<G(==, !new)>(spots: map<SymbolKey, Spot<G>>, group: G) returns (s: Section<G>)
    ensures WrittenFor(s, spots, group)
  {
    s := Section(group, [], [], [], [], [], []);
    var todo := spots.Keys;
    assert forall e :: KeysAt(spots - todo, e) == {};
    while todo != {}
      invariant todo <= spots.Keys && Gathered(s, spots - todo, group)
      decreases |todo|
    {
      hide Gathered;
      var k :| k in todo;
      var spot := spots[k];
      GatherNext(s, spots, todo, k, group);
      if spot.group == group {
        s := WithNames(s, spot.bucket, NamesIn(s, spot.bucket) + [spot.text]);
      }
      todo := todo - {k};
    }
    assert spots - {} == spots;
    var sorted := SortSection(s);
    forall b, text ensures Times(NamesIn(sorted, b), text) == |KeysAt(spots, Spot(group, b, text))| {
      assert SortOf(sorted, s, b);
      assert Times(NamesIn(s, b), text) == |KeysAt(spots, Spot(group, b, text))|;
    }
    forall b ensures Ordered(NamesIn(sorted, b)) {
      assert SortOf(sorted, s, b);
    }
    s := sorted;
  }

  ghost predicate SortOf<G>(r: Section<G>, s: Section<G>, b: Bucket) {
    multiset(NamesIn(r, b)) == multiset(NamesIn(s, b)) && Ordered(NamesIn(r, b))
  }

  method SortSection<G(!new)>(s: Section<G>) returns (r: Section<G>)
    ensures r.group == s.group
    ensures forall b :: SortOf(r, s, b)
  {
    var symbols := Sort(s.symbols);
    var classes := Sort(s.classes);
    var classEHs := Sort(s.classEHs);
    var ivars := Sort(s.ivars);
    var weakSymbols := Sort(s.weakSymbols);
    var tlvSymbols := Sort(s.tlvSymbols);
    r := Section(s.group, symbols, classes, classEHs, ivars, weakSymbols, tlvSymbols);
    hide Ordered;
    forall b ensures SortOf(r, s, b) {
    }
  }

  // ----- writing all sections, and what is in them -----

  /** One section per group, in the given order. */
  method WriteSections<G(==, !new)>(spots: map<SymbolKey, Spot<G>>, groups: seq<G>) returns (ss: seq<Section<G>>)
    ensures Written(ss, spots, groups)
  {
    ss := [];
    for i := 0 to |groups|
      invariant |ss| == i && forall j :: 0 <= j < i ==> WrittenFor(ss[j], spots, groups[j])
    {
      var s := WriteSection(spots, groups[i]);
      ss := ss + [s];
    }
  }

  ghost predicate WrittenFor<G(!new)>(s: Section<G>, spots: map<SymbolKey, Spot<G>>, group: G) {
    Gathered(s, spots, group) && forall b :: Ordered(NamesIn(s, b))
  }

  ghost predicate Written<G(!new)>(ss: seq<Section<G>>, spots: map<SymbolKey, Spot<G>>, groups: seq<G>) {
    |ss| == |groups| && forall j :: 0 <= j < |ss| ==> WrittenFor(ss[j], spots, groups[j])
  }

  /** The entries of one list, in order. */
  function ListEntries<G>(group: G, b: Bucket, names: seq<string>): seq<Spot<G>> {
    seq(|names|, i requires 0 <= i < |names| => Spot(group, b, names[i]))
  }

  /** The entries of a section in the order a reader meets them. */
  function Entries<G>(s: Section<G>): seq<Spot<G>> {
    ListEntries(s.group, Plain, s.symbols) + ListEntries(s.group, Classes, s.classes) +
    ListEntries(s.group, ClassEHs, s.classEHs) + ListEntries(s.group, IVars, s.ivars) +
    ListEntries(s.group, Weak, s.weakSymbols) + ListEntries(s.group, ThreadLocal, s.tlvSymbols)
  }

  function AllEntries<G>(ss: seq<Section<G>>): seq<Spot<G>> {
    if ss == [] then [] else AllEntries(ss[..|ss| - 1]) + Entries(ss[|ss| - 1])
  }

  lemma EntryListed<G>(s: Section<G>, e: Spot<G>)
    ensures e in Entries(s) <==> e.group == s.group && e.text in NamesIn(s, e.bucket)
  {
    ListEntryListed(s.group, Plain, s.symbols, e);
    ListEntryListed(s.group, Classes, s.classes, e);
    ListEntryListed(s.group, ClassEHs, s.classEHs, e);
    ListEntryListed(s.group, IVars, s.ivars, e);
    ListEntryListed(s.group, Weak, s.weakSymbols, e);
    ListEntryListed(s.group, ThreadLocal, s.tlvSymbols, e);
    hide ListEntries;
  }

  lemma ListEntryListed<G>(group: G, b: Bucket, names: seq<string>, e: Spot<G>)
    ensures e in ListEntries(group, b, names) <==> e.group == group && e.bucket == b && e.text in names
  {
    if e.group == group && e.bucket == b && e.text in names {
      var i :| 0 <= i < |names| && names[i] == e.text;
      assert ListEntries(group, b, names)[i] == e;
    }
  }

  /** Every entry is some symbol's spot, and every symbol whose group has a
      section is there. */
  lemma {:induction false} EntriesAreSpots<G(!new)>(ss: seq<Section<G>>, spots: map<SymbolKey, Spot<G>>,
                                    groups: seq<G>, e: Spot<G>)
    requires Written(ss, spots, groups)
    ensures e in AllEntries(ss) <==> e.group in groups && exists k :: k in spots && spots[k] == e
  {
    if ss != [] {
      var front, last := ss[..|ss| - 1], ss[|ss| - 1];
      EntriesAreSpots(front, spots, groups[..|ss| - 1], e);
      EntryListed(last, e);
      assert groups == groups[..|ss| - 1] + [groups[|ss| - 1]];
      assert WrittenFor(last, spots, groups[|ss| - 1]);
      GatheredName(last, spots, last.group, e.bucket, e.text);
      hide Entries, AllEntries, NamesIn, Gathered;
      assert AllEntries(ss) == AllEntries(front) + Entries(last);
    }
  }

  // ----- every symbol is in exactly one place -----

  lemma JoinedOnce<T>(s: seq<T>, t: seq<T>)
    requires NoDuplicates(s) && NoDuplicates(t) && forall x :: x in s ==> x !in t
    ensures NoDuplicates(s + t)
  {
    forall i, j | 0 <= i < j < |s + t| ensures (s + t)[i] != (s + t)[j] {
      if i < |s| <= j {
        assert s[i] in s && t[j - |s|] in t;
      }
    }
  }

  lemma ListEntriesOnce<G>(group: G, b: Bucket, names: seq<string>)
    requires NoDuplicates(names)
    ensures NoDuplicates(ListEntries(group, b, names))
    ensures forall e :: e in ListEntries(group, b, names) ==> e.bucket == b
  {
  }

  lemma EntriesOnce<G>(s: Section<G>)
    requires forall b :: NoDuplicates(NamesIn(s, b))
    ensures NoDuplicates(Entries(s))
  {
    assert NoDuplicates(NamesIn(s, Plain)) && NoDuplicates(NamesIn(s, Classes)) && NoDuplicates(NamesIn(s, ClassEHs));
    assert NoDuplicates(NamesIn(s, IVars)) && NoDuplicates(NamesIn(s, Weak)) && NoDuplicates(NamesIn(s, ThreadLocal));
    ListEntriesOnce(s.group, Plain, s.symbols);
    ListEntriesOnce(s.group, Classes, s.classes);
    ListEntriesOnce(s.group, ClassEHs, s.classEHs);
    ListEntriesOnce(s.group, IVars, s.ivars);
    ListEntriesOnce(s.group, Weak, s.weakSymbols);
    ListEntriesOnce(s.group, ThreadLocal, s.tlvSymbols);
    hide NoDuplicates, ListEntries;
    var one := ListEntries(s.group, Plain, s.symbols);
    var two := one + ListEntries(s.group, Classes, s.classes);
    JoinedOnce(one, ListEntries(s.group, Classes, s.classes));
    var three := two + ListEntries(s.group, ClassEHs, s.classEHs);
    JoinedOnce(two, ListEntries(s.group, ClassEHs, s.classEHs));
    var four := three + ListEntries(s.group, IVars, s.ivars);
    JoinedOnce(three, ListEntries(s.group, IVars, s.ivars));
    var five := four + ListEntries(s.group, Weak, s.weakSymbols);
    JoinedOnce(four, ListEntries(s.group, Weak, s.weakSymbols));
    JoinedOnce(five, ListEntries(s.group, ThreadLocal, s.tlvSymbols));
  }

  lemma {:induction false} AllEntriesOnce<G(!new)>(ss: seq<Section<G>>, spots: map<SymbolKey, Spot<G>>, groups: seq<G>)
    requires Written(ss, spots, groups) && OneEach(spots) && NoDuplicates(groups)
    ensures NoDuplicates(AllEntries(ss))
  {
    if ss != [] {
      var front, last, n := ss[..|ss| - 1], ss[|ss| - 1], |ss| - 1;
      AllEntriesOnce(front, spots, groups[..n]);
      assert WrittenFor(last, spots, groups[n]);
      forall b ensures NoDuplicates(NamesIn(last, b)) {
        GatheredOnce(last, spots, groups[n], b);
      }
      EntriesOnce(last);
      forall e | e in AllEntries(front) ensures e !in Entries(last) {
        EntriesAreSpots(front, spots, groups[..n], e);
        EntryListed(last, e);
        assert last.group == groups[n];
      }
      JoinedOnce(AllEntries(front), Entries(last));
    }
  }

  // ----- the sections depend only on the spots -----

  /** Whatever symbols clash there, the spots and the groups fix the sections. */
  lemma SectionsCanonical<G(!new)>(ss: seq<Section<G>>, ts: seq<Section<G>>, spots: map<SymbolKey, Spot<G>>,
                                    groups: seq<G>)
    requires Written(ss, spots, groups) && Written(ts, spots, groups)
    ensures ss == ts
  {
    forall j | 0 <= j < |ss| ensures ss[j] == ts[j] {
      assert WrittenFor(ss[j], spots, groups[j]) && WrittenFor(ts[j], spots, groups[j]);
      SectionCanonical(ss[j], ts[j], spots, groups[j]);
    }
  }

  lemma SectionCanonical<G(!new)>(s: Section<G>, t: Section<G>, spots: map<SymbolKey, Spot<G>>, group: G)
    requires WrittenFor(s, spots, group) && WrittenFor(t, spots, group)
    ensures s == t
  {
    forall b ensures NamesIn(s, b) == NamesIn(t, b) {
      var v, w := NamesIn(s, b), NamesIn(t, b);
      forall text ensures multiset(v)[text] == multiset(w)[text] {
        assert Times(v, text) == |KeysAt(spots, Spot(group, b, text))| == Times(w, text);
      }
      OrderedCanonical(v, w);
    }
    assert NamesIn(s, Plain) == NamesIn(t, Plain) && NamesIn(s, Classes) == NamesIn(t, Classes);
    assert NamesIn(s, ClassEHs) == NamesIn(t, ClassEHs) && NamesIn(s, IVars) == NamesIn(t, IVars);
    assert NamesIn(s, Weak) == NamesIn(t, Weak) && NamesIn(s, ThreadLocal) == NamesIn(t, ThreadLocal);
  }

  // ----- reading -----

  /** What a reader adds for one entry. */
  datatype Fact = Fact(key: SymbolKey, linkage: Linkage, flags: SymbolFlags, targets: seq<Target>)

  function Facts<G>(es: seq<Spot<G>>, read: Spot<G> -> Fact): seq<Fact> {
    seq(|es|, i requires 0 <= i < |es| => read(es[i]))
  }

  function AsRequest(f: Fact): Symbol {
    Requested(f.linkage, f.flags, NoAccess, Members(f.targets))
  }

  /** Adding the facts one after the other. */
  function ReadAll(m: map<SymbolKey, Symbol>, facts: seq<Fact>): map<SymbolKey, Symbol> {
    if facts == [] then m
    else AddSymbol(ReadAll(m, facts[..|facts| - 1]), facts[|facts| - 1].key, AsRequest(facts[|facts| - 1]))
  }

  lemma ReadNext(m: map<SymbolKey, Symbol>, facts: seq<Fact>, f: Fact)
    ensures ReadAll(m, facts + [f]) == AddSymbol(ReadAll(m, facts), f.key, AsRequest(f))
  {
    assert (facts + [f])[..|facts|] == facts;
  }

  lemma {:induction false} ReadMore(m: map<SymbolKey, Symbol>, facts: seq<Fact>, more: seq<Fact>)
    ensures ReadAll(m, facts + more) == ReadAll(ReadAll(m, facts), more)
    decreases |more|
  {
    if more == [] {
      assert facts + more == facts;
    } else {
      var front, f := more[..|more| - 1], more[|more| - 1];
      ReadMore(m, facts, front);
      ReadNext(m, facts + front, f);
      assert facts + more == facts + front + [f];
    }
  }

  method ReadList<G>(into: XPISet, group: G, b: Bucket, names: seq<string>, read: Spot<G> -> Fact)
    requires into.Valid()
    modifies into
    ensures into.Valid() && into.Content() == ReadAll(old(into.Content()), Facts(ListEntries(group, b, names), read))
  {
    ghost var was, facts := into.Content(), Facts(ListEntries(group, b, names), read);
    for i := 0 to |names|
      invariant into.Valid() && into.Content() == ReadAll(was, facts[..i])
    {
      assert facts[i] == read(Spot(group, b, names[i]));
      hide ReadAll, AddSymbol, Facts, ListEntries;
      var f := read(Spot(group, b, names[i]));
      assert facts[..i + 1] == facts[..i] + [f];
      ReadNext(was, facts[..i], f);
      into.Add(f.key, f.linkage, f.flags, f.targets, NoAccess);
    }
    assert facts[..|names|] == facts;
  }

  lemma FactsJoined<G>(es: seq<Spot<G>>, fs: seq<Spot<G>>, read: Spot<G> -> Fact)
    ensures Facts(es + fs, read) == Facts(es, read) + Facts(fs, read)
  {
  }

  /** Reading one list after another is reading them joined. */
  lemma ReadJoined<G>(m: map<SymbolKey, Symbol>, es: seq<Spot<G>>, fs: seq<Spot<G>>, read: Spot<G> -> Fact)
    ensures ReadAll(ReadAll(m, Facts(es, read)), Facts(fs, read)) == ReadAll(m, Facts(es + fs, read))
  {
    FactsJoined(es, fs, read);
    ReadMore(m, Facts(es, read), Facts(fs, read));
  }

  method ReadSection<G>(into: XPISet, s: Section<G>, read: Spot<G> -> Fact)
    requires into.Valid()
    modifies into
    ensures into.Valid() && into.Content() == ReadAll(old(into.Content()), Facts(Entries(s), read))
  {
    ghost var m := into.Content();
    ghost var one := ListEntries(s.group, Plain, s.symbols);
    ghost var two := one + ListEntries(s.group, Classes, s.classes);
    ghost var three := two + ListEntries(s.group, ClassEHs, s.classEHs);
    ghost var four := three + ListEntries(s.group, IVars, s.ivars);
    ghost var five := four + ListEntries(s.group, Weak, s.weakSymbols);
    ReadJoined(m, one, ListEntries(s.group, Classes, s.classes), read);
    ReadJoined(m, two, ListEntries(s.group, ClassEHs, s.classEHs), read);
    ReadJoined(m, three, ListEntries(s.group, IVars, s.ivars), read);
    ReadJoined(m, four, ListEntries(s.group, Weak, s.weakSymbols), read);
    ReadJoined(m, five, ListEntries(s.group, ThreadLocal, s.tlvSymbols), read);
    hide ReadAll, Facts, ListEntries;
    ReadList(into, s.group, Plain, s.symbols, read);
    ReadList(into, s.group, Classes, s.classes, read);
    ReadList(into, s.group, ClassEHs, s.classEHs, read);
    ReadList(into, s.group, IVars, s.ivars, read);
    ReadList(into, s.group, Weak, s.weakSymbols, read);
    ReadList(into, s.group, ThreadLocal, s.tlvSymbols, read);
  }

  method ReadSections<G>(into: XPISet, ss: seq<Section<G>>, read: Spot<G> -> Fact)
    requires into.Valid()
    modifies into
    ensures into.Valid() && into.Content() == ReadAll(old(into.Content()), Facts(AllEntries(ss), read))
  {
    ghost var m := into.Content();
    for i := 0 to |ss|
      invariant into.Valid() && into.Content() == ReadAll(m, Facts(AllEntries(ss[..i]), read))
    {
      assert ss[..i + 1][..i] == ss[..i];
      ReadJoined(m, AllEntries(ss[..i]), Entries(ss[i]), read);
      hide ReadAll, Facts, Entries;
      ReadSection(into, ss[i], read);
    }
    assert ss[..|ss|] == ss;
  }

  // ----- several facts about one symbol -----

  /** The targets that the facts name for one symbol. */
  function TargetsFor(facts: seq<Fact>, k: SymbolKey): set<Target> {
    set i, t | 0 <= i < |facts| && facts[i].key == k && t in facts[i].targets :: t
  }

  predicate Mentioned(facts: seq<Fact>, k: SymbolKey) {
    exists i :: 0 <= i < |facts| && facts[i].key == k
  }

  function DefaultOn(ts: set<Target>): map<Target, Availability> {
    map t | t in ts :: DEFAULT
  }

  lemma TargetsForNext(facts: seq<Fact>, k: SymbolKey)
    requires facts != []
    ensures var front, last := facts[..|facts| - 1], facts[|facts| - 1];
            TargetsFor(facts, k) == TargetsFor(front, k) + if last.key == k then Members(last.targets) else {}
    ensures Mentioned(facts, k) <==> Mentioned(facts[..|facts| - 1], k) || facts[|facts| - 1].key == k
  {
    var front, last := facts[..|facts| - 1], facts[|facts| - 1];
    assert forall i :: 0 <= i < |front| ==> front[i] == facts[i];
    forall t | t in TargetsFor(front, k) ensures t in TargetsFor(facts, k) {
      var i :| 0 <= i < |front| && front[i].key == k && t in front[i].targets;
      assert facts[i].key == k && t in facts[i].targets;
    }
  }

  lemma AddDefault(m: map<SymbolKey, Symbol>, f: Fact, ts: set<Target>)
    requires f.key in m ==> m[f.key].avail == DefaultOn(ts)
    ensures f.key in m ==>
              AddSymbol(m, f.key, AsRequest(f)) == m[f.key := m[f.key].(avail := DefaultOn(ts + Members(f.targets)))]
    ensures f.key !in m ==>
              AddSymbol(m, f.key, AsRequest(f))
                == m[f.key := Symbol(f.linkage, if f.key.kind == GlobalSymbol then f.flags else NO_FLAGS, NoAccess,
                                     DefaultOn(Members(f.targets)))]
  {
    assert AsRequest(f).avail.Keys == Members(f.targets);
    if f.key in m {
      assert MakeAvailable(m[f.key].avail, Members(f.targets)) == DefaultOn(ts + Members(f.targets));
    } else {
      assert MakeAvailable(map[], Members(f.targets)) == DefaultOn(Members(f.targets));
    }
  }

  /** Every fact about one symbol says the same of its linkage and flags. */
  predicate Unanimous(facts: seq<Fact>, k: SymbolKey, linkage: Linkage, flags: SymbolFlags) {
    forall i :: 0 <= i < |facts| && facts[i].key == k ==>
      facts[i].linkage == linkage && (k.kind == GlobalSymbol ==> facts[i].flags == flags)
  }

  /** What has become of one symbol when facts that name these targets were read: a
      known one keeps linkage and flags and gains the targets, a new one is made. */
  predicate ReadInto(m: map<SymbolKey, Symbol>, k: SymbolKey, ts: set<Target>, linkage: Linkage, flags: SymbolFlags,
                     mentioned: bool, more: set<Target>, r: map<SymbolKey, Symbol>)
  {
    (k in r <==> k in m || mentioned) &&
    (k in m ==> r[k] == m[k].(avail := DefaultOn(ts + more))) &&
    (k !in m && k in r ==>
       r[k] == Symbol(linkage, if k.kind == GlobalSymbol then flags else NO_FLAGS, NoAccess, DefaultOn(more)))
  }

  lemma {:induction false} ReadAllAt(m: map<SymbolKey, Symbol>, facts: seq<Fact>, k: SymbolKey, ts: set<Target>,
                                     linkage: Linkage, flags: SymbolFlags)
    requires Unanimous(facts, k, linkage, flags) && (k in m ==> m[k].avail == DefaultOn(ts))
    ensures ReadInto(m, k, ts, linkage, flags, Mentioned(facts, k), TargetsFor(facts, k), ReadAll(m, facts))
  {
    if facts == [] {
      assert k in m ==> ts + TargetsFor(facts, k) == ts;
    } else {
      var front, last := facts[..|facts| - 1], facts[|facts| - 1];
      TargetsForNext(facts, k);
      ReadAllAt(m, front, k, ts, linkage, flags);
      if !Mentioned(front, k) { NoTargetsFor(front, k); }
      hide TargetsFor, Mentioned, AddSymbol, AsRequest, ReadInto;
      ReadOneMore(m, k, ts, linkage, flags, Mentioned(front, k), TargetsFor(front, k), ReadAll(m, front), last);
    }
  }

  lemma ReadOneMore(m: map<SymbolKey, Symbol>, k: SymbolKey, ts: set<Target>, linkage: Linkage, flags: SymbolFlags,
                    mentioned: bool, more: set<Target>, r: map<SymbolKey, Symbol>, f: Fact)
    requires ReadInto(m, k, ts, linkage, flags, mentioned, more, r) && (!mentioned ==> more == {})
    requires f.key == k ==> f.linkage == linkage && (k.kind == GlobalSymbol ==> f.flags == flags)
    ensures ReadInto(m, k, ts, linkage, flags, mentioned || f.key == k,
                     more + if f.key == k then Members(f.targets) else {}, AddSymbol(r, f.key, AsRequest(f)))
  {
    hide DefaultOn, AddSymbol, AsRequest;
    if f.key == k {
      AddDefault(r, f, if k in m then ts + more else more);
      SameUnion(ts, more, Members(f.targets));
    } else {
      OtherKey(r, f, k);
      SameUnion(more, {}, {});
    }
  }

  lemma SameUnion<T>(a: set<T>, b: set<T>, c: set<T>)
    ensures a + b + c == a + (b + c) && {} + c == c && a + {} == a
  {
  }

  lemma NoTargetsFor(facts: seq<Fact>, k: SymbolKey)
    requires !Mentioned(facts, k)
    ensures TargetsFor(facts, k) == {}
  {
  }

  lemma OtherKey(m: map<SymbolKey, Symbol>, f: Fact, k: SymbolKey)
    requires f.key != k
    ensures var r := AddSymbol(m, f.key, AsRequest(f)); (k in r <==> k in m) && (k in m ==> r[k] == m[k])
  {
  }

  // ----- reading back what was written -----

  function FactSymbol(f: Fact): Symbol {
    Renewed(f.key, AsRequest(f))
  }

  lemma ReadFresh(m: map<SymbolKey, Symbol>, f: Fact)
    requires f.key !in m
    ensures AddSymbol(m, f.key, AsRequest(f)) == m[f.key := FactSymbol(f)]
  {
    var s := AsRequest(f);
    assert s.avail.Keys == Members(f.targets);
    AddNew(m, f.key, s, Members(f.targets));
  }

  predicate DistinctFacts(m: map<SymbolKey, Symbol>, facts: seq<Fact>) {
    (forall i :: 0 <= i < |facts| ==> facts[i].key !in m) &&
    (forall i, j :: 0 <= i < j < |facts| ==> facts[i].key != facts[j].key)
  }

  function KeysOf(facts: seq<Fact>): set<SymbolKey> {
    set i | 0 <= i < |facts| :: facts[i].key
  }

  function Within(goal: map<SymbolKey, Symbol>, keys: set<SymbolKey>): map<SymbolKey, Symbol> {
    map k | k in goal && k in keys :: goal[k]
  }

  predicate Predicted(facts: seq<Fact>, goal: map<SymbolKey, Symbol>) {
    forall i :: 0 <= i < |facts| ==> facts[i].key in goal && goal[facts[i].key] == FactSymbol(facts[i])
  }

  lemma KeysNext(facts: seq<Fact>)
    requires facts != []
    ensures KeysOf(facts) == KeysOf(facts[..|facts| - 1]) + {facts[|facts| - 1].key}
  {
    var front := facts[..|facts| - 1];
    assert forall i :: 0 <= i < |front| ==> facts[i] == front[i];
    assert facts[|facts| - 1].key in KeysOf(facts);
  }

  lemma WithinNext(m: map<SymbolKey, Symbol>, goal: map<SymbolKey, Symbol>, keys: set<SymbolKey>, k: SymbolKey)
    requires k in goal
    ensures (m + Within(goal, keys))[k := goal[k]] == m + Within(goal, keys + {k})
  {
  }

  lemma LastIsNew(m: map<SymbolKey, Symbol>, facts: seq<Fact>)
    requires facts != [] && DistinctFacts(m, facts)
    ensures DistinctFacts(m, facts[..|facts| - 1])
    ensures facts[|facts| - 1].key !in m && facts[|facts| - 1].key !in KeysOf(facts[..|facts| - 1])
  {
  }

  /** Facts about different new symbols are all recorded as they are. */
  lemma {:induction false} ReadDistinct(m: map<SymbolKey, Symbol>, facts: seq<Fact>, goal: map<SymbolKey, Symbol>)
    requires DistinctFacts(m, facts) && Predicted(facts, goal)
    ensures ReadAll(m, facts) == m + Within(goal, KeysOf(facts))
  {
    if facts == [] {
      assert Within(goal, KeysOf(facts)) == map[];
    } else {
      var front, last := facts[..|facts| - 1], facts[|facts| - 1];
      LastIsNew(m, facts);
      assert goal[last.key] == FactSymbol(last);
      ReadDistinct(m, front, goal);
      KeysNext(facts);
      hide AddSymbol, FactSymbol, AsRequest, KeysOf, DistinctFacts;
      WithinNext(m, goal, KeysOf(front), last.key);
      ReadFresh(ReadAll(m, front), last);
    }
  }

  /** The reader understands every spot as the symbol written there. */
  predicate Understands<G>(read: Spot<G> -> Fact, spots: map<SymbolKey, Spot<G>>) {
    forall k :: k in spots ==> read(spots[k]).key == k
  }

  function ReadBack<G>(spots: map<SymbolKey, Spot<G>>, read: Spot<G> -> Fact): map<SymbolKey, Symbol> {
    map k | k in spots :: FactSymbol(read(spots[k]))
  }

  lemma SpotOfEntry<G>(spots: map<SymbolKey, Spot<G>>, e: Spot<G>, read: Spot<G> -> Fact)
    requires Understands(read, spots) && e in spots.Values
    ensures read(e).key in spots && spots[read(e).key] == e
  {
  }

  lemma FactsOfSpots<G(!new)>(m: map<SymbolKey, Symbol>, es: seq<Spot<G>>, spots: map<SymbolKey, Spot<G>>,
                              read: Spot<G> -> Fact)
    requires Understands(read, spots) && m.Keys !! spots.Keys && NoDuplicates(es)
    requires forall e :: e in es <==> e in spots.Values
    ensures DistinctFacts(m, Facts(es, read)) && Predicted(Facts(es, read), ReadBack(spots, read))
    ensures KeysOf(Facts(es, read)) == spots.Keys
  {
    hide FactSymbol, Understands;
    var facts := Facts(es, read);
    forall i | 0 <= i < |es| ensures facts[i].key in spots && spots[facts[i].key] == es[i] {
      assert es[i] in es;
      SpotOfEntry(spots, es[i], read);
    }
    forall k | k in spots ensures k in KeysOf(facts) {
      assert spots[k] in spots.Values;
      var i :| 0 <= i < |es| && es[i] == spots[k];
      KeyOfSpot(spots, read, k);
      assert facts[i].key == k;
    }
  }

  lemma KeyOfSpot<G>(spots: map<SymbolKey, Spot<G>>, read: Spot<G> -> Fact, k: SymbolKey)
    requires Understands(read, spots) && k in spots
    ensures read(spots[k]).key == k
  {
  }

  /** What was written is read as one fact for each symbol. */
  lemma WrittenFacts<G(!new)>(m: map<SymbolKey, Symbol>, ss: seq<Section<G>>, spots: map<SymbolKey, Spot<G>>,
                              groups: seq<G>, read: Spot<G> -> Fact)
    requires Written(ss, spots, groups) && NoDuplicates(groups) && (forall k :: k in spots ==> spots[k].group in groups)
    requires Understands(read, spots) && m.Keys !! spots.Keys
    ensures var facts := Facts(AllEntries(ss), read);
            DistinctFacts(m, facts) && Predicted(facts, ReadBack(spots, read)) && KeysOf(facts) == spots.Keys
  {
    hide NoDuplicates, Written, AllEntries, Understands, ReadAll, Facts, DistinctFacts, Predicted, KeysOf, ReadBack;
    var es := AllEntries(ss);
    UnderstoodOnce(spots, read);
    AllEntriesOnce(ss, spots, groups);
    forall e ensures e in es <==> e in spots.Values {
      EntriesAreSpots(ss, spots, groups, e);
    }
    FactsOfSpots(m, es, spots, read);
  }

  /** Reading what was written adds each symbol once, as its spot describes it. */
  lemma ReadWritten<G(!new)>(m: map<SymbolKey, Symbol>, ss: seq<Section<G>>, spots: map<SymbolKey, Spot<G>>,
                             groups: seq<G>, read: Spot<G> -> Fact)
    requires Written(ss, spots, groups) && NoDuplicates(groups) && (forall k :: k in spots ==> spots[k].group in groups)
    requires Understands(read, spots) && m.Keys !! spots.Keys
    ensures ReadAll(m, Facts(AllEntries(ss), read)) == m + ReadBack(spots, read)
  {
    hide NoDuplicates, Written, AllEntries, Understands, ReadAll, Facts, DistinctFacts, Predicted, KeysOf;
    WrittenFacts(m, ss, spots, groups, read);
    ReadDistinct(m, Facts(AllEntries(ss), read), ReadBack(spots, read));
    assert Within(ReadBack(spots, read), spots.Keys) == ReadBack(spots, read);
  }

  lemma UnderstoodOnce<G(!new)>(spots: map<SymbolKey, Spot<G>>, read: Spot<G> -> Fact)
    requires Understands(read, spots)
    ensures OneEach(spots)
  {
  }
}

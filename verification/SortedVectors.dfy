/** Vectors kept sorted by key through binary-search insertion. */
module SortedVectors {
  import opened InterfaceAlgebra

  // ----- the two key orders -----

  /** By architecture, then by platform. */
  predicate TargetLess(s: Target, t: Target) {
    s.arch < t.arch || (s.arch == t.arch && s.platform < t.platform)
  }

  /** Strings compare character by character; a proper prefix comes first. */
  predicate TextLess(s: string, t: string) {
    t != [] && (s == [] || s[0] < t[0] || (s[0] == t[0] && TextLess(s[1..], t[1..])))
  }

  lemma {:induction false} TextIrreflexive(s: string)
    ensures !TextLess(s, s)
  {
    if s != [] {
      TextIrreflexive(s[1..]);
    }
  }

  lemma {:induction false} TextTransitive(s: string, t: string, u: string)
    requires TextLess(s, t) && TextLess(t, u)
    ensures TextLess(s, u)
  {
    if s != [] && s[0] == t[0] == u[0] {
      TextTransitive(s[1..], t[1..], u[1..]);
    }
  }

  lemma {:induction false} TextTotal(s: string, t: string)
    requires s != t
    ensures TextLess(s, t) || TextLess(t, s)
  {
    if s != [] && t != [] && s[0] == t[0] {
      assert s == [s[0]] + s[1..] && t == [t[0]] + t[1..];
      TextTotal(s[1..], t[1..]);
    }
  }

  // ----- sorted vectors -----

  predicate SortedTargets(v: seq<Target>) {
    forall i, j :: 0 <= i < j < |v| ==> TargetLess(v[i], v[j])
  }

  predicate SortedPairs<V>(v: seq<(Target, V)>) {
    forall i, j :: 0 <= i < j < |v| ==> TargetLess(v[i].0, v[j].0)
  }

  predicate SortedNames(names: seq<string>) {
    forall i, j :: 0 <= i < j < |names| ==> TextLess(names[i], names[j])
  }

  /** The first position whose element is not below the one looked for. */
  method LowerBound<T>(v: seq<T>, below: T -> bool) returns (i: nat)
    requires forall j, k :: 0 <= j < k < |v| && below(v[k]) ==> below(v[j])
    ensures i <= |v|
    ensures forall j :: 0 <= j < i ==> below(v[j])
    ensures forall j :: i <= j < |v| ==> !below(v[j])
  {
    i := 0;
    var end := |v|;
    while i < end
      invariant 0 <= i <= end <= |v|
      invariant forall j :: 0 <= j < i ==> below(v[j])
      invariant forall j :: end <= j < |v| ==> !below(v[j])
    {
      var middle := i + (end - i) / 2;
      if below(v[middle]) {
        i := middle + 1;
      } else {
        end := middle;
      }
    }
  }

  function Inserted<T>(v: seq<T>, i: nat, x: T): seq<T>
    requires i <= |v|
  {
    v[..i] + [x] + v[i..]
  }

  function Members<T>(v: seq<T>): set<T> {
    set x | x in v
  }

  /** What a list of pairs says: the last pair for a key counts. */
  function AsMap<K, V>(v: seq<(K, V)>): map<K, V> {
    if v == [] then map[] else AsMap(v[..|v| - 1])[v[|v| - 1].0 := v[|v| - 1].1]
  }

  predicate DistinctKeys<K(==), V>(v: seq<(K, V)>) {
    forall i, j :: 0 <= i < j < |v| ==> v[i].0 != v[j].0
  }

  lemma AsMapNext<K, V>(v: seq<(K, V)>, i: nat)
    requires i < |v|
    ensures AsMap(v[..i + 1]) == AsMap(v[..i])[v[i].0 := v[i].1]
  {
    assert v[..i + 1][..i] == v[..i];
  }

  lemma {:induction false} AsMapKeys<K, V>(v: seq<(K, V)>, k: K)
    ensures k in AsMap(v) <==> exists i :: 0 <= i < |v| && v[i].0 == k
  {
    if v != [] {
      var front, last := v[..|v| - 1], v[|v| - 1];
      AsMapKeys(front, k);
      if k in AsMap(front) {
        var i :| 0 <= i < |front| && front[i].0 == k;
        assert v[i].0 == k;
      }
      if exists i :: 0 <= i < |v| && v[i].0 == k {
        var i :| 0 <= i < |v| && v[i].0 == k;
        if i < |front| {
          assert front[i].0 == k;
        }
      }
    }
  }

  lemma {:induction false} AsMapAt<K, V>(v: seq<(K, V)>, i: nat)
    requires DistinctKeys(v) && i < |v|
    ensures v[i].0 in AsMap(v) && AsMap(v)[v[i].0] == v[i].1
  {
    var front := v[..|v| - 1];
    if i < |front| {
      AsMapAt(front, i);
    }
  }

  lemma {:induction false} InsertedMap<K, V>(v: seq<(K, V)>, i: nat, p: (K, V))
    requires i <= |v| && forall j :: 0 <= j < |v| ==> v[j].0 != p.0
    ensures AsMap(Inserted(v, i, p)) == AsMap(v)[p.0 := p.1]
  {
    var w := Inserted(v, i, p);
    if i == |v| {
      assert w[..|w| - 1] == v;
    } else {
      var front := v[..|v| - 1];
      assert w[..|w| - 1] == Inserted(front, i, p);
      InsertedMap(front, i, p);
    }
  }

  lemma {:induction false} UpdatedMap<K, V>(v: seq<(K, V)>, i: nat, x: V)
    requires i < |v| && DistinctKeys(v)
    ensures AsMap(v[i := (v[i].0, x)]) == AsMap(v)[v[i].0 := x]
  {
    var w, front := v[i := (v[i].0, x)], v[..|v| - 1];
    if i == |v| - 1 {
      assert w[..|w| - 1] == front;
    } else {
      assert w[..|w| - 1] == front[i := (v[i].0, x)];
      UpdatedMap(front, i, x);
    }
  }

  // ----- insertion keeps the vectors sorted -----

  lemma InsertTarget(v: seq<Target>, i: nat, t: Target)
    requires SortedTargets(v) && i <= |v|
    requires forall j :: 0 <= j < i ==> TargetLess(v[j], t)
    requires i < |v| ==> TargetLess(t, v[i])
    ensures SortedTargets(Inserted(v, i, t))
    ensures Members(Inserted(v, i, t)) == Members(v) + {t}
  {
    forall j | i <= j < |v| ensures TargetLess(t, v[j]) {
      if i < j {
        assert TargetLess(v[i], v[j]);
      }
    }
    MembersInserted(v, i, t);
  }

  lemma MembersInserted<T>(v: seq<T>, i: nat, x: T)
    requires i <= |v|
    ensures Members(Inserted(v, i, x)) == Members(v) + {x}
  {
    var w := Inserted(v, i, x);
    assert w[i] == x;
    assert forall j :: 0 <= j < |v| ==> v[j] == w[if j < i then j else j + 1];
  }

  lemma InsertPair<V>(v: seq<(Target, V)>, i: nat, p: (Target, V))
    requires SortedPairs(v) && i <= |v|
    requires forall j :: 0 <= j < i ==> TargetLess(v[j].0, p.0)
    requires i < |v| ==> TargetLess(p.0, v[i].0)
    ensures SortedPairs(Inserted(v, i, p))
    ensures AsMap(Inserted(v, i, p)) == AsMap(v)[p.0 := p.1]
  {
    forall j | i <= j < |v| ensures TargetLess(p.0, v[j].0) {
      if i < j {
        assert TargetLess(v[i].0, v[j].0);
      }
    }
    InsertedMap(v, i, p);
  }

  lemma InsertName(names: seq<string>, i: nat, n: string)
    requires SortedNames(names) && i <= |names|
    requires forall j :: 0 <= j < i ==> TextLess(names[j], n)
    requires i < |names| ==> TextLess(n, names[i])
    ensures SortedNames(Inserted(names, i, n))
  {
    forall j | i <= j < |names| ensures TextLess(n, names[j]) {
      if i < j {
        TextTransitive(n, names[i], names[j]);
      }
    }
  }

  // ----- a sorted vector is determined by what it holds -----

  lemma NothingListed<T>(v: seq<T>, w: seq<T>)
    requires Members(v) == Members(w)
    ensures v == [] <==> w == []
  {
    assert v != [] ==> v[0] in Members(v);
    assert w != [] ==> w[0] in Members(w);
  }

  lemma {:induction false} TargetsCanonical(v: seq<Target>, w: seq<Target>)
    requires SortedTargets(v) && SortedTargets(w) && Members(v) == Members(w)
    ensures v == w
    decreases |v|
  {
    NothingListed(v, w);
    if v != [] && w != [] {
      assert v[0] in Members(w) && w[0] in Members(v);
      assert v[0] == w[0];
      assert Members(v[1..]) == Members(v) - {v[0]};
      assert Members(w[1..]) == Members(w) - {w[0]};
      TargetsCanonical(v[1..], w[1..]);
      assert v == [v[0]] + v[1..] && w == [w[0]] + w[1..];
    }
  }

  lemma PairsCanonical<V>(v: seq<(Target, V)>, w: seq<(Target, V)>)
    requires SortedPairs(v) && SortedPairs(w) && AsMap(v) == AsMap(w)
    ensures v == w
  {
    var ks, ls := seq(|v|, i requires 0 <= i < |v| => v[i].0), seq(|w|, i requires 0 <= i < |w| => w[i].0);
    forall t ensures t in Members(ks) <==> t in Members(ls) {
      AsMapKeys(v, t);
      AsMapKeys(w, t);
      KeysListed(v, ks, t);
      KeysListed(w, ls, t);
    }
    TargetsCanonical(ks, ls);
    forall i | 0 <= i < |v| ensures v[i] == w[i] {
      AsMapAt(v, i);
      AsMapAt(w, i);
      assert ks[i] == ls[i];
    }
  }

  lemma {:induction false} KeysListed<V>(v: seq<(Target, V)>, ks: seq<Target>, t: Target)
    requires |ks| == |v| && forall i :: 0 <= i < |v| ==> ks[i] == v[i].0
    ensures t in Members(ks) <==> t in AsMap(v)
  {
    AsMapKeys(v, t);
    if t in AsMap(v) {
      var i :| 0 <= i < |v| && v[i].0 == t;
      assert ks[i] == t;
    }
    if t in Members(ks) {
      var i :| 0 <= i < |ks| && ks[i] == t;
      assert v[i].0 == t;
    }
  }

  lemma {:induction false} NamesCanonical(v: seq<string>, w: seq<string>)
    requires SortedNames(v) && SortedNames(w) && Members(v) == Members(w)
    ensures v == w
    decreases |v|
  {
    NothingListed(v, w);
    if v != [] && w != [] {
      assert v[0] in Members(w) && w[0] in Members(v);
      SmallestName(v, w);
      WithoutFirst(v);
      WithoutFirst(w);
      NamesCanonical(v[1..], w[1..]);
      assert v == [v[0]] + v[1..] && w == [w[0]] + w[1..];
    }
  }

  lemma SmallestName(v: seq<string>, w: seq<string>)
    requires SortedNames(v) && SortedNames(w) && v != [] && w != [] && v[0] in w && w[0] in v
    ensures v[0] == w[0]
  {
    if v[0] != w[0] {
      assert TextLess(v[0], w[0]) && TextLess(w[0], v[0]);
      TextTransitive(v[0], w[0], v[0]);
      TextIrreflexive(v[0]);
    }
  }

  lemma WithoutFirst(v: seq<string>)
    requires SortedNames(v) && v != []
    ensures Members(v[1..]) == Members(v) - {v[0]}
  {
    forall i | 1 <= i < |v| ensures v[i] != v[0] {
      assert TextLess(v[0], v[i]);
      TextIrreflexive(v[0]);
    }
  }

  // ----- ordered sets -----

  ghost predicate StrictOrder<K(!new)>(less: (K, K) -> bool) {
    (forall x :: !less(x, x)) && (forall x, y, z :: less(x, y) && less(y, z) ==> less(x, z)) &&
    (forall x, y :: x == y || less(x, y) || less(y, x))
  }

  predicate Ascending<K>(v: seq<K>, less: (K, K) -> bool) {
    forall i, j :: 0 <= i < j < |v| ==> less(v[i], v[j])
  }

  predicate NoDuplicates<T(==)>(s: seq<T>) {
    forall i, j :: 0 <= i < j < |s| ==> s[i] != s[j]
  }

  /** Adds a key to an ordered set unless it is there. */
  method AddKey<K(==, !new)>(v: seq<K>, key: K, less: (K, K) -> bool) returns (w: seq<K>)
    requires StrictOrder(less) && Ascending(v, less)
    ensures Ascending(w, less) && Members(w) == Members(v) + {key}
  {
    var at := LowerBound(v, (x: K) => less(x, key));
    if at < |v| && !less(key, v[at]) {
      assert v[at] == key;
      return v;
    }
    MembersInserted(v, at, key);
    return Inserted(v, at, key);
  }

  lemma AscendingOnce<K(!new)>(v: seq<K>, less: (K, K) -> bool)
    requires StrictOrder(less) && Ascending(v, less)
    ensures NoDuplicates(v)
  {
    forall i, j | 0 <= i < j < |v| ensures v[i] != v[j] {
      assert less(v[i], v[j]);
    }
  }

  /** An ordered set has one form. */
  lemma {:induction false} AscendingCanonical<K(!new)>(v: seq<K>, w: seq<K>, less: (K, K) -> bool)
    requires StrictOrder(less) && Ascending(v, less) && Ascending(w, less) && Members(v) == Members(w)
    ensures v == w
    decreases |v|
  {
    NothingListed(v, w);
    if v != [] && w != [] {
      assert v[0] in Members(w) && w[0] in Members(v);
      SmallestKey(v, w, less);
      KeysWithoutFirst(v, less);
      KeysWithoutFirst(w, less);
      AscendingCanonical(v[1..], w[1..], less);
      assert v == [v[0]] + v[1..] && w == [w[0]] + w[1..];
    }
  }

  lemma SmallestKey<K(!new)>(v: seq<K>, w: seq<K>, less: (K, K) -> bool)
    requires StrictOrder(less) && Ascending(v, less) && Ascending(w, less) && v != [] && w != [] && v[0] in w &&
             w[0] in v
    ensures v[0] == w[0]
  {
    FirstIsLeast(v, w[0], less);
    FirstIsLeast(w, v[0], less);
  }

  lemma FirstIsLeast<K>(v: seq<K>, x: K, less: (K, K) -> bool)
    requires Ascending(v, less) && v != [] && x in v
    ensures x == v[0] || less(v[0], x)
  {
  }

  lemma KeysWithoutFirst<K(!new)>(v: seq<K>, less: (K, K) -> bool)
    requires StrictOrder(less) && Ascending(v, less) && v != []
    ensures Members(v[1..]) == Members(v) - {v[0]}
  {
    forall i | 1 <= i < |v| ensures v[i] != v[0] {
      assert less(v[0], v[i]);
    }
  }
}

/** What the whole-heap invariant is worth: the heap holds exactly what can be
    reached from its owners, a release has one possible outcome, and a variable
    behaves like one shared cell. */
module BlockTheorems {
  import opened BlockHeap
  import opened BlockLedger
  import opened BlockSharing

  // ----- reachability -----

  /** Held from outside the heap's own blocks, or latched and so never let go. */
  ghost predicate Root(h: Heap, p: Ptr) {
    || Mem(p) in h.claims
    || (exists s :: s in h.mem && h.mem[s].Byref? && s != p && h.mem[s].forwarding == p)
    || (OnHeap(h.mem, p) && h.mem[p].flags.count == LATCHED)
  }

  predicate Holds(h: Heap, q: Ptr, p: Ptr) {
    OnHeap(h.mem, q) && h.mem[q].Block? && Mem(p) in CaptureRefs(h.mem[q].captures)
  }

  ghost predicate Path(h: Heap, path: seq<Ptr>) {
    && path != [] && Root(h, path[0])
    && forall i :: 0 <= i < |path| - 1 ==> Holds(h, path[i], path[i + 1])
  }

  ghost predicate Reachable(h: Heap, p: Ptr) {
    exists path :: Path(h, path) && path[|path| - 1] == p
  }

  /** Nothing leaks: whatever is still allocated can be reached. */
  lemma {:induction false} LiveIsReachable(h: Heap, p: Ptr, bound: nat)
    requires Inv(h) && h.limbo == {} && OnHeap(h.mem, p) && p in h.rank
    requires forall q :: q in h.rank ==> h.rank[q] < bound
    ensures Reachable(h, p)
    decreases if h.mem[p].Byref? then 1 else 0, bound - h.rank[p]
  {
    hide Inv, Root;
    if Root(h, p) {
      assert Path(h, [p]);
    } else {
      var q := HolderOf(h, p);
      LiveIsReachable(h, q, bound);
      var path :| Path(h, path) && path[|path| - 1] == q;
      assert Path(h, path + [p]);
    }
  }

  /** What is neither a root nor garbage is held by a copy of a younger literal. */
  lemma HolderOf(h: Heap, p: Ptr) returns (q: Ptr)
    requires Inv(h) && h.limbo == {} && OnHeap(h.mem, p) && !Root(h, p)
    ensures Holds(h, q, p) && p in h.rank && q in h.rank
    ensures h.mem[p].Block? ==> h.rank[p] < h.rank[q]
  {
    hide Shaped, Refs;
    assert CountOk(h.mem[p].flags.count, Owned(h)[Mem(p)]);
    q := RefsMember(h.mem, h.mem.Keys - h.limbo, Mem(p));
    HolderIsYounger(h, q, p);
  }

  lemma HolderIsYounger(h: Heap, q: Ptr, p: Ptr)
    requires Inv(h) && q in h.mem && q !in h.limbo && OnHeap(h.mem, p) && Mem(p) in OwnedRefs(q, h.mem[q]) &&
             !Root(h, p)
    ensures Holds(h, q, p) && p in h.rank && q in h.rank
    ensures h.mem[p].Block? ==> h.rank[p] < h.rank[q]
  {
    assert CellShape(q, h.mem[q]) && CellLinks(h.mem, h.rank, q);
    if h.mem[q].Block? {
      CaptureRefsMember(h.mem[q].captures, Mem(p));
      var i :| 0 <= i < |h.mem[q].captures| && RefOf(h.mem[q].captures[i]) == Mem(p);
      assert CaptureOk(h.mem, h.rank, q, h.mem[q].captures[i]);
      assert ValidField(h.mem[q].captures[i].flags);
    }
  }

  /** Nothing reachable is ever freed. */
  lemma {:induction false} ReachableIsLive(h: Heap, path: seq<Ptr>)
    requires Inv(h) && h.limbo == {} && Path(h, path)
    ensures Durable(h.mem, path[|path| - 1])
  {
    var p := path[|path| - 1];
    if |path| == 1 {
      if s :| s in h.mem && h.mem[s].Byref? && s != p && h.mem[s].forwarding == p {
        assert CellLinks(h.mem, h.rank, s);
      }
    } else {
      var q := path[|path| - 2];
      assert Holds(h, q, p);
      HeldIsDurable(h, q, p);
    }
  }

  lemma RankBound(h: Heap) returns (bound: nat)
    ensures forall q :: q in h.rank ==> h.rank[q] < bound
  {
    bound := AboveAll(h.rank.Values);
    assert forall q :: q in h.rank ==> h.rank[q] in h.rank.Values;
  }

  /** Reference counting finds exactly the garbage: a cell of malloc memory is
      allocated if and only if it can be reached. */
  lemma {:induction false} LiveIffReachable(h: Heap)
    requires Inv(h) && h.limbo == {}
    ensures forall p :: OnHeap(h.mem, p) ==> Reachable(h, p)
    ensures forall p :: Reachable(h, p) ==> Durable(h.mem, p)
  {
    var bound := RankBound(h);
    forall p | OnHeap(h.mem, p) ensures Reachable(h, p) {
      LiveIsReachable(h, p, bound);
    }
    forall p | Reachable(h, p) ensures Durable(h.mem, p) {
      var path :| Path(h, path) && path[|path| - 1] == p;
      ReachableIsLive(h, path);
    }
  }

  // ----- no leak -----

  /** All copies are released and no frame holds a moved variable. */
  ghost predicate AllReleased(h: Heap) {
    && (forall p :: Mem(p) in h.claims ==> !OnHeap(h.mem, p))
    && (forall s :: s in h.mem && h.mem[s].Byref? && !h.mem[s].flags.needsFree ==> h.mem[s].forwarding == s)
  }

  /** Once everything is released the heap is empty, unless a count latched. */
  lemma {:induction false} EmptyIffNothingLatched(h: Heap)
    requires Inv(h) && h.limbo == {} && AllReleased(h)
    ensures (forall p :: !OnHeap(h.mem, p)) <==> (forall p :: OnHeap(h.mem, p) ==> h.mem[p].flags.count != LATCHED)
  {
    LiveIffReachable(h);
    if x :| OnHeap(h.mem, x) {
      assert Reachable(h, x);
      var path :| Path(h, path) && path[|path| - 1] == x;
      var r := path[0];
      assert |path| == 1 ==> r == x;
      assert |path| > 1 ==> Holds(h, path[0], path[1]);
      assert CellShape(r, h.mem[r]);
      assert forall s :: s in h.mem && h.mem[s].Byref? ==> CellShape(s, h.mem[s]);
      assert h.mem[r].flags.count == LATCHED;
    }
  }

  const INNER := Block(MallocBlock, Flags(1, true, false, false), 0, [])

  /** A block at 2 that captured the block at 1, with this count and so many claims
      on it; nobody else is left. */
  ghost function Kept(count: nat, owners: nat): Heap {
    Heap(map[1 := INNER, 2 := Block(MallocBlock, Flags(count, true, true, false), 0, [Capture(FIELD_IS_BLOCK, 1)])],
         map[1 := 0, 2 := 1], multiset{}[Mem(2) := owners], {}, multiset{})
  }

  /** Block_copy of a block in malloc memory, so many times. */
  ghost function Retains(h: Heap, p: Ptr, n: nat): Heap
    requires p in h.mem
    ensures p in Retains(h, p, n).mem
  {
    if n == 0 then h else Retained(Retains(h, p, n - 1), p)
  }

  /** Block_release of a block that stays. */
  ghost function Releases(h: Heap, p: Ptr, n: nat): Heap
    requires p in h.mem
    ensures p in Releases(h, p, n).mem
  {
    if n == 0 then h else Released(Releases(h, p, n - 1), p)
  }

  lemma {:induction false} RetainsCount(n: nat)
    requires n < LATCHED
    ensures Retains(Kept(1, 1), 2, n) == Kept(n + 1, n + 1)
  {
    if n > 0 {
      RetainsCount(n - 1);
      var claims: multiset<Ref> := multiset{};
      assert claims[Mem(2) := n] + multiset{Mem(2)} == claims[Mem(2) := n + 1];
      assert Retained(Kept(n, n), 2) == Kept(n + 1, n + 1);
    }
  }

  lemma {:induction false} ReleasesOfLatched(owners: nat, n: nat)
    requires n <= owners
    ensures Releases(Kept(LATCHED, owners), 2, n) == Kept(LATCHED, owners - n)
  {
    if n > 0 {
      ReleasesOfLatched(owners, n - 1);
      hide Kept, Released;
      ReleasedLatched(owners - n + 1);
    }
  }

  lemma ReleasedLatched(owners: nat)
    requires owners > 0
    ensures 2 in Kept(LATCHED, owners).mem && Released(Kept(LATCHED, owners), 2) == Kept(LATCHED, owners - 1)
  {
    var claims: multiset<Ref> := multiset{};
    assert claims[Mem(2) := owners] - multiset{Mem(2)} == claims[Mem(2) := owners - 1];
    assert Kept(LATCHED, owners).mem[2].flags.count == LATCHED;
  }

  /** A block copied until its count latches, and then released as often: everything
      is given back, the block stays, and so does what it captured, which never
      latched. */
  lemma LatchedKeepsCaptured()
    ensures Inv(Kept(1, 1))
    ensures var h := Releases(Retains(Kept(1, 1), 2, LATCHED - 1), 2, LATCHED);
            Inv(h) && h.limbo == {} && AllReleased(h) && OnHeap(h.mem, 1) && h.mem[1].flags.count != LATCHED
  {
    RetainsCount(LATCHED - 1);
    ReleasesOfLatched(LATCHED, LATCHED);
    KeptInv(1, 1);
    KeptInv(LATCHED, 0);
  }

  lemma KeptInv(count: nat, owners: nat)
    requires CountOk(count, owners) && count <= LATCHED
    ensures Inv(Kept(count, owners)) && (owners == 0 ==> AllReleased(Kept(count, owners)))
  {
    var h := Kept(count, owners);
    KeptOwned(count, owners);
    hide Owned, CaptureRefs;
    assert CellShape(1, INNER) && CellShape(2, h.mem[2]);
    assert CaptureOk(h.mem, h.rank, 2, h.mem[2].captures[0]);
  }

  lemma KeptOwned(count: nat, owners: nat)
    ensures Owned(Kept(count, owners)) == Kept(count, owners).claims + multiset{Mem(1)}
  {
    var h := Kept(count, owners);
    KeptRefs(count, owners);
    hide OwnedRefs;
    assert h.mem.Keys - h.limbo == {1, 2};
    RefsRemove(h.mem, {1, 2}, 1);
    assert {1, 2} - {1} == {2};
    RefsRemove(h.mem, {2}, 2);
    assert {2} - {2} == {};
  }

  lemma KeptRefs(count: nat, owners: nat)
    ensures var mem := Kept(count, owners).mem;
            OwnedRefs(1, mem[1]) == multiset{} && OwnedRefs(2, mem[2]) == multiset{Mem(1)}
  {
    var captures := Kept(count, owners).mem[2].captures;
    assert captures == [Capture(FIELD_IS_BLOCK, 1)] && captures[1..] == [];
    assert CaptureRefs(captures) == multiset{RefOf(captures[0])} + CaptureRefs(captures[1..]);
  }

  // ----- no pointers into frames -----

  /** From a block in malloc memory, following captures, one never meets a
      frame. */
  lemma {:induction false} NoPathToStack(h: Heap, path: seq<Ptr>)
    requires Inv(h) && h.limbo == {} && path != [] && OnHeap(h.mem, path[0])
    requires forall i :: 0 <= i < |path| - 1 ==> Holds(h, path[i], path[i + 1])
    ensures !OnStack(h.mem, path[|path| - 1])
    ensures Durable(h.mem, path[|path| - 1])
  {
    if |path| > 1 {
      var q, p := path[|path| - 2], path[|path| - 1];
      assert Holds(h, q, p);
      HeldIsDurable(h, q, p);
    }
  }

  // ----- a release has one possible outcome -----

  /** Two states a release may lead to from `h`. */
  ghost predicate Outcomes(h: Heap, h1: Heap, h2: Heap) {
    && Inv(h) && Inv(h1) && Inv(h2) && h1.limbo == h2.limbo == {}
    && h1.claims == h2.claims && Shrinks(h, h1) && Shrinks(h, h2)
  }

  lemma {:induction false} SurvivesToo(h: Heap, h1: Heap, h2: Heap, path: seq<Ptr>)
    requires Outcomes(h, h1, h2) && Path(h1, path) && OnHeap(h1.mem, path[|path| - 1])
    ensures path[|path| - 1] in h2.mem
    decreases |path|
  {
    hide Outcomes, Root;
    var p := path[|path| - 1];
    if |path| == 1 {
      RootSurvivesToo(h, h1, h2, p);
    } else {
      var q, front := path[|path| - 2], path[..|path| - 1];
      assert Holds(h1, q, p);
      assert Path(h1, front) && front[|front| - 1] == q;
      SurvivesToo(h, h1, h2, front);
      HeldSurvivesToo(h, h1, h2, q, p);
    }
  }

  lemma HeldSurvivesToo(h: Heap, h1: Heap, h2: Heap, q: Ptr, p: Ptr)
    requires Outcomes(h, h1, h2) && Holds(h1, q, p) && q in h2.mem && OnHeap(h1.mem, p)
    ensures p in h2.mem
  {
    hide Balanced, CellShape, CellLinks;
    assert ShrunkCell(h.mem[q], h1.mem[q]) && ShrunkCell(h.mem[q], h2.mem[q]);
    HeldIsDurable(h2, q, p);
  }

  lemma RootSurvivesToo(h: Heap, h1: Heap, h2: Heap, p: Ptr)
    requires Outcomes(h, h1, h2) && Root(h1, p) && OnHeap(h1.mem, p)
    ensures p in h2.mem
  {
    hide Balanced, CellShape, CellLinks, Shrinks;
    if s :| s in h1.mem && h1.mem[s].Byref? && s != p && h1.mem[s].forwarding == p {
      ForwarderSurvivesToo(h, h1, h2, s, p);
    } else if Mem(p) !in h1.claims {
      LatchedSurvivesToo(h, h1, h2, p);
    }
  }

  lemma ForwarderSurvivesToo(h: Heap, h1: Heap, h2: Heap, s: Ptr, p: Ptr)
    requires Outcomes(h, h1, h2) && s in h1.mem && h1.mem[s].Byref? && s != p && h1.mem[s].forwarding == p
    ensures p in h2.mem
  {
    hide Balanced;
    assert CellShape(s, h1.mem[s]);
    assert ShrunkCell(h.mem[s], h1.mem[s]);
    assert s in h2.mem && ShrunkCell(h.mem[s], h2.mem[s]);
    assert CellLinks(h2.mem, h2.rank, s);
  }

  lemma LatchedSurvivesToo(h: Heap, h1: Heap, h2: Heap, p: Ptr)
    requires Outcomes(h, h1, h2) && OnHeap(h1.mem, p) && h1.mem[p].flags.count == LATCHED
    ensures p in h2.mem && h2.mem[p].flags.count == LATCHED
  {
    hide Balanced;
    assert ShrunkCell(h.mem[p], h1.mem[p]) && CellShape(p, h.mem[p]);
    assert p in h2.mem && ShrunkCell(h.mem[p], h2.mem[p]);
  }

  lemma {:induction false} SameAddresses(h: Heap, h1: Heap, h2: Heap)
    requires Outcomes(h, h1, h2)
    ensures h1.mem.Keys <= h2.mem.Keys
  {
    hide Balanced, CellShape, CellLinks;
    var bound := RankBound(h1);
    forall p | p in h1.mem ensures p in h2.mem {
      assert ShrunkCell(h.mem[p], h1.mem[p]);
      if h1.mem[p].flags.needsFree {
        LiveIsReachable(h1, p, bound);
        var path :| Path(h1, path) && path[|path| - 1] == p;
        SurvivesToo(h, h1, h2, path);
      }
    }
  }

  lemma SameOwned(h: Heap, h1: Heap, h2: Heap)
    requires Outcomes(h, h1, h2) && h1.mem.Keys == h2.mem.Keys
    ensures Owned(h1) == Owned(h2)
  {
    hide Inv;
    assert h1.mem.Keys - h1.limbo == h1.mem.Keys == h2.mem.Keys - h2.limbo;
    forall q | q in h1.mem.Keys ensures OwnedRefs(q, h1.mem[q]) == OwnedRefs(q, h2.mem[q]) {
      assert ShrunkCell(h.mem[q], h1.mem[q]) && ShrunkCell(h.mem[q], h2.mem[q]);
    }
    RefsSame(h1.mem, h2.mem, h1.mem.Keys);
  }

  lemma SameCell(h: Heap, h1: Heap, h2: Heap, p: Ptr)
    requires Outcomes(h, h1, h2) && p in h1.mem && p in h2.mem && Owned(h1) == Owned(h2)
    ensures h1.mem[p] == h2.mem[p]
  {
    hide Owned, CellLinks;
    assert ShrunkCell(h.mem[p], h1.mem[p]) && ShrunkCell(h.mem[p], h2.mem[p]);
    assert CellShape(p, h.mem[p]);
    if OnHeap(h1.mem, p) {
      assert CountOk(h1.mem[p].flags.count, Owned(h1)[Mem(p)]) && CountOk(h2.mem[p].flags.count, Owned(h2)[Mem(p)]);
    }
  }

  /** The invariant, the frame condition and the claims leave a release no
      choice: what is freed, and every remaining count, is determined. */
  lemma {:induction false} ReleaseIsDetermined(h: Heap, h1: Heap, h2: Heap)
    requires Outcomes(h, h1, h2)
    ensures h1 == h2
  {
    hide Inv, Shrinks;
    SameAddresses(h, h1, h2);
    SameAddresses(h, h2, h1);
    SameOwned(h, h1, h2);
    forall p | p in h1.mem ensures h1.mem[p] == h2.mem[p] {
      SameCell(h, h1, h2, p);
    }
    assert h1.mem == h2.mem;
    SameRetains(h, h1, h2);
  }

  lemma SameRetains(h: Heap, h1: Heap, h2: Heap)
    requires Outcomes(h, h1, h2) && Owned(h1) == Owned(h2)
    ensures h1.retains == h2.retains && h1.rank == h2.rank
  {
    hide Owned, Shaped;
    assert forall o :: h1.retains[o] == Owned(h1)[Object(o)] && h2.retains[o] == Owned(h2)[Object(o)];
  }
}

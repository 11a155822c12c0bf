/** Each step of copying seen as growth, and the state of a block that its
    copy helper is part way through. */
module BlockSteps {
  import opened BlockHeap
  import opened BlockLedger
  import opened BlockSharing

  // ----- steps that grow -----

  lemma RetainedGrows(h: Heap, p: Ptr)
    requires h.mem.Keys <= h.rank.Keys && OnHeap(h.mem, p)
    ensures Grows(h, Retained(h, p))
  {
    var mem' := Retained(h, p).mem;
    forall b | IsVariable(h.mem, b) ensures SameValue(h.mem, mem', b) {
    }
    forall q | q in h.mem ensures GrownCell(q, h.mem[q], mem'[q]) {
    }
  }

  lemma AllocatedGrows(h: Heap, r: Ptr, c: Cell, k: nat)
    requires h.mem.Keys <= h.rank.Keys && r !in h.mem
    ensures Grows(h, Allocated(h, r, c, k))
  {
    var mem' := Allocated(h, r, c, k).mem;
    forall b | IsVariable(h.mem, b) ensures SameValue(h.mem, mem', b) {
    }
  }

  lemma LimboWriteGrows(h: Heap, r: Ptr, c: Cell)
    requires h.mem.Keys <= h.rank.Keys && r in h.mem && r in h.limbo && h.mem[r].Block? && c.Block?
    ensures Grows(h, h.(mem := h.mem[r := c]))
  {
    var mem' := h.mem[r := c];
    forall b | IsVariable(h.mem, b) ensures SameValue(h.mem, mem', b) {
    }
  }

  lemma SettledGrows(h: Heap, r: Ptr)
    requires h.mem.Keys <= h.rank.Keys && r in h.mem
    ensures Grows(h, Settled(h, r))
  {
  }

  lemma MovedGrows(h: Heap, s: Ptr, r: Ptr)
    requires Inv(h) && s in h.mem && s !in h.limbo && h.mem[s].Byref? && h.mem[s].forwarding == s &&
             !h.mem[s].flags.needsFree
    requires r in h.limbo && h.mem[r].Byref? && h.mem[r].forwarding == r && h.mem[r].value == h.mem[s].value
    ensures Grows(h, Moved(h, s, r))
  {
    hide Balanced, CellShape, CellLinks, IsVariable, Aliases, SameValue;
    var mem' := Moved(h, s, r).mem;
    forall b | IsVariable(h.mem, b) && b !in h.limbo ensures SameValue(h.mem, mem', b) {
      MovedVariable(h, s, r, b);
    }
    forall a, b | IsVariable(h.mem, a) && a !in h.limbo && IsVariable(h.mem, b) && b !in h.limbo
      ensures Aliases(mem', a, b) <==> Aliases(h.mem, a, b)
    {
      MovedAliases(h, s, r, a, b);
    }
  }

  lemma MovedVariable(h: Heap, s: Ptr, r: Ptr, b: Ptr)
    requires Inv(h) && s in h.mem && h.mem[s].Byref? && h.mem[s].forwarding == s && !h.mem[s].flags.needsFree
    requires r in h.limbo && h.mem[r].Byref? && h.mem[r].forwarding == r && h.mem[r].value == h.mem[s].value
    requires IsVariable(h.mem, b) && b !in h.limbo
    ensures SameValue(h.mem, Moved(h, s, r).mem, b)
    ensures h.mem[b].forwarding != r && (b != s ==> h.mem[b].forwarding != s)
  {
    VariableFacts(h, b);
  }

  lemma MovedAliases(h: Heap, s: Ptr, r: Ptr, a: Ptr, b: Ptr)
    requires Inv(h) && s in h.mem && h.mem[s].Byref? && h.mem[s].forwarding == s && !h.mem[s].flags.needsFree
    requires r in h.limbo && h.mem[r].Byref? && h.mem[r].forwarding == r && h.mem[r].value == h.mem[s].value
    requires IsVariable(h.mem, a) && a !in h.limbo && IsVariable(h.mem, b) && b !in h.limbo
    ensures Aliases(Moved(h, s, r).mem, a, b) <==> Aliases(h.mem, a, b)
  {
    hide Inv;
    MovedVariable(h, s, r, a);
    MovedVariable(h, s, r, b);
  }

  // ----- a block under construction -----

  /** The block at `dst` is being built from the literal at `src` and its first
      `n` fields are done. */
  ghost predicate Building(h: Heap, src: Ptr, dst: Ptr, n: nat) {
    && OnStack(h.mem, src) && h.mem[src].Block? && src !in h.limbo && src in h.rank
    && OnHeap(h.mem, dst) && h.mem[dst].Block? && dst in h.limbo && dst in h.rank
    && h.mem[dst].isa == MallocBlock
    && h.mem[dst].invoke == h.mem[src].invoke
    && h.mem[dst].flags == h.mem[src].flags.(needsFree := true, count := 1)
    && |h.mem[dst].captures| == |h.mem[src].captures|
    && h.rank[dst] == h.rank[src]
    && n <= |h.mem[src].captures|
    && h.mem.Keys <= h.rank.Keys
    && (forall i :: 0 <= i < n ==> FieldBuilt(h, src, dst, h.mem[src].captures[i], h.mem[dst].captures[i]))
    && (forall i :: n <= i < |h.mem[src].captures| ==> h.mem[dst].captures[i] == h.mem[src].captures[i])
  }

  ghost predicate FieldBuilt(h: Heap, src: Ptr, dst: Ptr, c: Capture, d: Capture)
    requires h.mem.Keys <= h.rank.Keys && dst in h.mem
  {
    FieldCopy(h, src, c, d) && CaptureOk(h.mem, h.rank, dst, d)
  }

  lemma FieldBuiltGrows(h: Heap, h': Heap, src: Ptr, dst: Ptr, c: Capture, d: Capture)
    requires Inv(h) && Inv(h') && Grows(h, h') && src in h.mem && dst in h.mem
    requires FieldReady(h, src, c) && FieldBuilt(h, src, dst, c, d) && RefOf(d) in h.claims
    ensures FieldBuilt(h', src, dst, c, d)
  {
    FieldCopyGrows(h, h', src, c, d);
    CaptureOkGrows(h, h', dst, d);
  }

  lemma CaptureOkGrows(h: Heap, h': Heap, p: Ptr, d: Capture)
    requires Inv(h) && h'.mem.Keys <= h'.rank.Keys && Grows(h, h') && p in h.mem && CaptureOk(h.mem, h.rank, p, d)
    requires RefOf(d) in h.claims
    ensures CaptureOk(h'.mem, h'.rank, p, d)
  {
    if d.flags != FIELD_IS_OBJECT && d.ptr in h.mem {
      assert Mem(d.ptr) in Owned(h);
      assert GrownCell(d.ptr, h.mem[d.ptr], h'.mem[d.ptr]);
    }
  }

  /** What _Block_object_assign puts in a field for the pointer `p`. */
  ghost predicate Assigned(h: Heap, p: Ptr, flags: bv8, dest: Ptr)
  {
    && (flags == FIELD_IS_OBJECT ==> dest == p)
    && (IsByrefField(flags) ==> SharesVariable(h.mem, p, dest))
    && (flags == FIELD_IS_BLOCK ==> CopyOf(h, p, dest) && CopyResult(h, p, dest))
  }

  predicate CopyResult(h: Heap, p: Ptr, r: Ptr) {
    && (p == NULL ==> r == NULL)
    && (p != NULL ==> p in h.mem && r in h.mem && h.mem[r].Block? && Durable(h.mem, r) && Age(h, r) == Age(h, p))
  }

  /** The ledger has no part in it. */
  lemma SameResult(h: Heap, h': Heap, p: Ptr, r: Ptr)
    requires CopyResult(h, p, r) && h'.mem == h.mem && h'.rank == h.rank
    ensures CopyResult(h', p, r)
  {
  }

  lemma AssignedIsBuilt(h: Heap, src: Ptr, dst: Ptr, c: Capture, dest: Ptr)
    requires h.mem.Keys <= h.rank.Keys && src in h.mem && dst in h.mem && h.rank[dst] == h.rank[src] && NULL !in h.mem
    requires FieldReady(h, src, c) && ValidField(c.flags) && Assigned(h, c.ptr, c.flags, dest)
    ensures FieldBuilt(h, src, dst, c, Capture(c.flags, dest))
  {
  }

  lemma FieldFilled(h1: Heap, h2: Heap, src: Ptr, dst: Ptr, i: nat, dest: Ptr) returns (h3: Heap)
    requires Inv(h1) && Inv(h2) && Grows(h1, h2) && Building(h1, src, dst, i) && i < |h1.mem[src].captures|
    requires CopyReady(h1, src) && h2.limbo == h1.limbo && h2.mem[dst] == h1.mem[dst]
    requires CaptureRefs(h1.mem[dst].captures[..i]) <= h1.claims
    requires h2.claims == h1.claims + multiset{RefOf(Capture(h1.mem[src].captures[i].flags, dest))}
    requires Assigned(h2, h1.mem[src].captures[i].ptr, h1.mem[src].captures[i].flags, dest)
    ensures h3 == h2.(mem := h2.mem[dst := Filled(h1.mem[dst], i, dest)])
    ensures Inv(h3) && Grows(h2, h3) && Building(h3, src, dst, i + 1)
  {
    hide Balanced, CellLinks, Grows, FieldCopy, CopyOf, CaptureOk;
    var c := Filled(h1.mem[dst], i, dest);
    h3 := h2.(mem := h2.mem[dst := c]);
    assert CellShape(dst, h2.mem[dst]);
    LimboWriteKeepsInv(h2, dst, c);
    LimboWriteGrows(h2, dst, c);
    StillBuilding(h1, h2, src, dst, i);
    CopyReadyGrows(h1, h2, src);
    assert FieldReady(h2, src, h2.mem[src].captures[i]);
    assert CellShape(src, h2.mem[src]);
    AssignedIsBuilt(h2, src, dst, h2.mem[src].captures[i], dest);
    FilledBuilding(h2, h3, src, dst, i, dest);
  }

  function Filled(c: Cell, i: nat, dest: Ptr): Cell
    requires c.Block? && i < |c.captures|
  {
    Block(c.isa, c.flags, c.invoke, c.captures[i := Capture(c.captures[i].flags, dest)])
  }

  lemma StillBuilding(h1: Heap, h2: Heap, src: Ptr, dst: Ptr, i: nat)
    requires Inv(h1) && Inv(h2) && Grows(h1, h2) && Building(h1, src, dst, i)
    requires CopyReady(h1, src) && h2.limbo == h1.limbo && h2.mem[dst] == h1.mem[dst]
    requires CaptureRefs(h1.mem[dst].captures[..i]) <= h1.claims
    ensures Building(h2, src, dst, i)
  {
    assert GrownCell(src, h1.mem[src], h2.mem[src]);
    forall j | 0 <= j < i ensures FieldBuilt(h2, src, dst, h1.mem[src].captures[j], h1.mem[dst].captures[j]) {
      assert FieldBuilt(h1, src, dst, h1.mem[src].captures[j], h1.mem[dst].captures[j]);
      assert FieldReady(h1, src, h1.mem[src].captures[j]);
      assert h1.mem[dst].captures[..i][j] == h1.mem[dst].captures[j];
      CaptureRefsMember(h1.mem[dst].captures[..i], RefOf(h1.mem[dst].captures[j]));
      FieldBuiltGrows(h1, h2, src, dst, h1.mem[src].captures[j], h1.mem[dst].captures[j]);
    }
  }

  lemma FilledBuilding(h2: Heap, h3: Heap, src: Ptr, dst: Ptr, i: nat, dest: Ptr)
    requires Building(h2, src, dst, i) && i < |h2.mem[src].captures|
    requires Inv(h2) && Inv(h3) && Grows(h2, h3)
    requires CaptureRefs(h2.mem[dst].captures[..i]) <= h2.claims
    requires CopyReady(h2, src) && RefOf(Capture(h2.mem[src].captures[i].flags, dest)) in h2.claims
    requires FieldBuilt(h2, src, dst, h2.mem[src].captures[i], Capture(h2.mem[src].captures[i].flags, dest))
    requires h3 == h2.(mem := h2.mem[dst := Filled(h2.mem[dst], i, dest)])
    ensures Building(h3, src, dst, i + 1)
  {
    hide Inv, Grows, FieldBuilt, CellShape, CellLinks;
    StateFacts(h2);
    var cs, ds, es := h2.mem[src].captures, h2.mem[dst].captures, h3.mem[dst].captures;
    assert src != dst;
    forall j | 0 <= j < i + 1 ensures FieldBuilt(h3, src, dst, cs[j], es[j]) {
      assert FieldReady(h2, src, cs[j]);
      if j < i {
        assert FieldBuilt(h2, src, dst, cs[j], ds[j]);
        assert ds[..i][j] == ds[j];
        CaptureRefsMember(ds[..i], RefOf(ds[j]));
      }
      FieldBuiltGrows(h2, h3, src, dst, cs[j], es[j]);
    }
  }

  /** A block whose fields are all done can be settled. */
  lemma BuiltLinks(h: Heap, src: Ptr, dst: Ptr)
    requires Inv(h) && src in h.mem && h.mem[src].Block? && Building(h, src, dst, |h.mem[src].captures|)
    ensures CellLinks(h.mem, h.rank, dst)
  {
    forall i | 0 <= i < |h.mem[dst].captures| ensures CaptureOk(h.mem, h.rank, dst, h.mem[dst].captures[i]) {
      assert FieldBuilt(h, src, dst, h.mem[src].captures[i], h.mem[dst].captures[i]);
    }
  }

  /** ... and is then a copy of its literal. */
  lemma BuiltCopy(h: Heap, src: Ptr, dst: Ptr)
    requires Inv(h) && src in h.mem && h.mem[src].Block? && Building(h, src, dst, |h.mem[src].captures|) &&
             CopyReady(h, src)
    requires NULL !in Settled(h, dst).mem
    ensures CopyOf(Settled(h, dst), src, dst)
  {
    var h' := Settled(h, dst);
    SettledGrows(h, dst);
    forall i | 0 <= i < |h.mem[src].captures|
      ensures FieldCopy(h', src, h.mem[src].captures[i], h.mem[dst].captures[i])
    {
      assert FieldBuilt(h, src, dst, h.mem[src].captures[i], h.mem[dst].captures[i]);
      assert FieldReady(h, src, h.mem[src].captures[i]);
      FieldCopyGrows(h, h', src, h.mem[src].captures[i], h.mem[dst].captures[i]);
    }
  }

  lemma ReadyFacts(h: Heap, p: Ptr)
    requires Inv(h) && CopyReady(h, p)
    ensures p == NULL ==> p !in h.mem && p !in h.limbo && p !in h.rank
    ensures p != NULL ==> p in h.mem && p !in h.limbo && p in h.rank && h.mem[p].Block? && CellShape(p, h.mem[p])
    ensures h.mem.Keys <= h.rank.Keys && h.limbo <= h.mem.Keys && Grows(h, h)
  {
    GrowsRefl(h);
  }

  /** Claims are no part of memory. */
  lemma ClaimGrows(h: Heap, claims: multiset<Ref>)
    requires h.mem.Keys <= h.rank.Keys
    ensures Grows(h, h.(claims := claims))
  {
    GrowsRefl(h);
  }

  lemma BuildingFacts(h: Heap, src: Ptr, dst: Ptr, n: nat)
    requires Inv(h) && Building(h, src, dst, n)
    ensures src in h.mem && src !in h.limbo && src in h.rank && h.mem[src].Block? && OnStack(h.mem, src) &&
            CellShape(src, h.mem[src])
    ensures dst in h.mem && dst in h.limbo && h.mem[dst].Block? && n <= |h.mem[src].captures| == |h.mem[dst].captures|
    ensures CopyResult(h, src, dst) && src != dst
    ensures !h.mem[src].flags.hasCopyDispose ==> h.mem[src].captures == []
  {
  }

  lemma VariableFacts(h: Heap, b: Ptr)
    requires Inv(h) && b in h.mem && h.mem[b].Byref? && b !in h.limbo
    ensures IsVariable(h.mem, b) && CellShape(b, h.mem[b]) && h.limbo <= h.mem.Keys <= h.rank.Keys
    ensures var f := h.mem[b].forwarding; f !in h.limbo && (f == b || h.mem[f].flags.needsFree)
    ensures h.mem[h.mem[b].forwarding].flags.needsFree <==> h.mem[h.mem[b].forwarding].flags.count != 0
    ensures h.mem[b].flags.needsFree ==> h.mem[b].forwarding == b
  {
    OwnedOrSelf(h, b);
    var f := h.mem[b].forwarding;
    assert CellLinks(h.mem, h.rank, b) && CellShape(f, h.mem[f]) && CellShape(b, h.mem[b]);
    if h.mem[f].flags.needsFree {
      assert CountOk(h.mem[f].flags.count, Owned(h)[Mem(f)]);
    }
  }

  lemma StateFacts(h: Heap)
    requires Inv(h)
    ensures NULL !in h.mem && NULL !in h.rank && h.limbo <= h.mem.Keys <= h.rank.Keys && Grows(h, h)
  {
    GrowsRefl(h);
  }

  /** What a copy helper may rely on before it handles field `i`. */
  lemma FieldFacts(h0: Heap, h: Heap, src: Ptr, dst: Ptr, i: nat)
    requires Inv(h) && Building(h, src, dst, i) && i < |h.mem[src].captures|
    requires Grows(h0, h) && CopyReady(h0, src) && src in h0.mem
    ensures CopyReady(h, src) && Age(h, src) == Age(h0, src)
    ensures var c := h.mem[src].captures[i];
            && ValidField(c.flags) && FieldReady(h, src, c)
            && (c.flags == FIELD_IS_BLOCK ==> CopyReady(h, c.ptr) && (c.ptr != NULL ==> Age(h, c.ptr) < Age(h0, src)))
    ensures |h.mem[dst].captures| == |h.mem[src].captures| && dst in h.limbo &&
            h.mem[dst].captures[i] == h.mem[src].captures[i]
  {
    CopyReadyGrows(h0, h, src);
    assert CellShape(src, h.mem[src]);
    assert FieldReady(h, src, h.mem[src].captures[i]);
  }

  lemma GrowsFacts(h: Heap, h': Heap, p: Ptr)
    requires Grows(h, h') && p in h.mem && p !in h.limbo
    ensures p in h'.mem && p !in h'.limbo && p in h'.rank && Age(h', p) == Age(h, p) &&
            GrownCell(p, h.mem[p], h'.mem[p])
  {
  }

  lemma ByrefShape(h: Heap, p: Ptr, value: Ptr)
    requires Inv(h) && p in h.mem && h.mem[p].Byref?
    ensures CellShape(p, h.mem[p].(value := value))
  {
    assert CellShape(p, h.mem[p]);
  }

  lemma ByrefWriteGrows(h: Heap, r: Ptr, c: Cell)
    requires Inv(h) && r in h.limbo && h.mem[r].Byref? && c.Byref?
    ensures Grows(h, h.(mem := h.mem[r := c]))
  {
    hide Balanced, CellShape, CellLinks;
    var mem' := h.mem[r := c];
    forall b | IsVariable(h.mem, b) && b !in h.limbo
      ensures SameValue(h.mem, mem', b) && h.mem[b].forwarding == mem'[b].forwarding
    {
      OwnedOrSelf(h, b);
    }
  }

  // ----- steps that shrink -----

  lemma ReleasedShrinks(h: Heap, p: Ptr)
    requires OnHeap(h.mem, p) && p !in h.limbo
    ensures Shrinks(h, Released(h, p))
  {
  }

  lemma ClaimShrinks(h: Heap, h': Heap)
    requires h'.mem == h.mem && h'.rank == h.rank
    ensures Shrinks(h, h')
  {
  }

  /** From the last release of `p`, through disposal of what it held, to the
      return of its memory. */
  lemma RetiredThenFreed(h: Heap, h': Heap, p: Ptr)
    requires OnHeap(h.mem, p) && p !in h.limbo && h.mem[p].flags.count == 1
    requires Shrinks(Retired(h, p), h')
    ensures Shrinks(h, Freed(h', p))
  {
    var h1 := Retired(h, p);
    forall q | q in Freed(h', p).mem ensures ShrunkCell(h.mem[q], h'.mem[q]) {
      assert ShrunkCell(h1.mem[q], h'.mem[q]);
    }
  }

  lemma CountFacts(h: Heap, p: Ptr)
    requires Inv(h) && OnHeap(h.mem, p) && p !in h.limbo
    ensures 1 <= h.mem[p].flags.count <= LATCHED && CellShape(p, h.mem[p]) && CellLinks(h.mem, h.rank, p)
  {
    assert CountOk(h.mem[p].flags.count, Owned(h)[Mem(p)]);
  }

  /** A claim keeps what it names settled and in place while other things go. */
  lemma ClaimFacts(h: Heap, h': Heap, p: Ptr)
    requires Inv(h) && Inv(h') && Shrinks(h, h') && Mem(p) in h'.claims
    ensures Durable(h'.mem, p) && p !in h'.limbo
    ensures p != NULL ==> p in h.mem && p in h'.mem && ShrunkCell(h.mem[p], h'.mem[p]) && Age(h', p) == Age(h, p)
    ensures p in h'.mem && h'.mem[p].Byref? ==> h'.mem[p].forwarding == p
  {
    assert Mem(p) in Owned(h');
    if p in h'.mem { assert CellShape(p, h'.mem[p]); }
  }

  /** What a dispose helper may rely on for one field of the block at `p`. */
  predicate Disposable(h: Heap, p: Ptr, c: Capture) {
    && ValidField(c.flags)
    && (c.flags == FIELD_IS_BLOCK && c.ptr != NULL ==>
          c.ptr in h.mem && h.mem[c.ptr].Block? && (h.mem[c.ptr].flags.needsFree ==> Age(h, c.ptr) < Age(h, p)))
    && (IsByrefField(c.flags) ==> c.ptr in h.mem && h.mem[c.ptr].Byref? && h.mem[c.ptr].flags.needsFree)
  }

  lemma RetiredDisposable(h: Heap, p: Ptr)
    requires Inv(h) && OnHeap(h.mem, p) && h.mem[p].Block? && p !in h.limbo
    ensures forall i :: 0 <= i < |h.mem[p].captures| ==> Disposable(Retired(h, p), p, h.mem[p].captures[i])
  {
    assert CellShape(p, h.mem[p]) && CellLinks(h.mem, h.rank, p);
    forall i | 0 <= i < |h.mem[p].captures| ensures Disposable(Retired(h, p), p, h.mem[p].captures[i]) {
      assert CaptureOk(h.mem, h.rank, p, h.mem[p].captures[i]);
    }
  }

  /** Releasing what is not in malloc memory moves nothing. */
  lemma WeightlessRelease(h: Heap, p: Ptr)
    requires Inv(h) && !OnHeap(h.mem, p) && p !in h.limbo && (p != NULL ==> p in h.mem)
    ensures Inv(h.(claims := h.claims - multiset{Mem(p)}))
    ensures p != NULL ==> WithFlags(h.mem, p, Decremented(h.mem[p].flags)) == h.mem && h.mem[p].flags.count == 0
  {
    if p != NULL { assert CellShape(p, h.mem[p]); }
    if Durable(h.mem, p) {
      WeightlessClaim(h, p, h.claims - multiset{Mem(p)});
    } else {
      assert h.claims - multiset{Mem(p)} == h.claims;
    }
  }
}

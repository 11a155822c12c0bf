/** Relations between two states of memory: what a copy may change, what a
    release may change, and when one block is a copy of another. */
module BlockSharing {
  import opened BlockHeap

  /** The current value of a `__block` variable, read the way compiled code
      reads it. */
  function Value(mem: map<Ptr, Cell>, b: Ptr): Ptr
    requires IsVariable(mem, b)
  {
    mem[mem[b].forwarding].value
  }

  predicate IsVariable(mem: map<Ptr, Cell>, b: Ptr) {
    && b in mem && mem[b].Byref?
    && mem[b].forwarding in mem && mem[mem[b].forwarding].Byref?
  }

  // ----- growth: what copying may do -----

  predicate GrownCell(p: Ptr, c: Cell, d: Cell) {
    match c
    case Block(isa, flags, invoke, captures) =>
      && d == Block(isa, flags.(count := d.flags.count), invoke, captures)
      && flags.count <= d.flags.count && (!flags.needsFree ==> d == c)
    case Byref(weakIsa, flags, forwarding, keepFlags, value) =>
      && d.Byref?
      && d == Byref(weakIsa, flags.(count := d.flags.count), d.forwarding, keepFlags, value)
      && flags.count <= d.flags.count && (!flags.needsFree ==> d.flags == flags)
      && (forwarding != p || flags.needsFree ==> d.forwarding == forwarding)
  }

  /** Nothing settled goes away or is altered: only counts rise and variables
      move to the heap, keeping their values. */
  ghost predicate Grows(h: Heap, h': Heap) {
    && (forall p :: p in h.mem ==> p in h'.mem && p in h.rank && p in h'.rank && h'.rank[p] == h.rank[p])
    && (forall p :: p in h.mem && p !in h.limbo ==> p !in h'.limbo && GrownCell(p, h.mem[p], h'.mem[p]))
    && (forall b :: IsVariable(h.mem, b) && b !in h.limbo ==> SameValue(h.mem, h'.mem, b))
    && (forall a, b :: IsVariable(h.mem, a) && a !in h.limbo && IsVariable(h.mem, b) && b !in h.limbo ==>
          (Aliases(h'.mem, a, b) <==> Aliases(h.mem, a, b)))
  }

  /** Two names of one variable: a frame's struct and its copy in malloc memory. */
  predicate Aliases(mem: map<Ptr, Cell>, a: Ptr, b: Ptr) {
    IsVariable(mem, a) && IsVariable(mem, b) && mem[a].forwarding == mem[b].forwarding
  }

  predicate SameValue(mem: map<Ptr, Cell>, mem': map<Ptr, Cell>, b: Ptr)
    requires IsVariable(mem, b)
  {
    IsVariable(mem', b) && Value(mem', b) == Value(mem, b)
  }

  lemma GrowsRefl(h: Heap)
    requires h.mem.Keys <= h.rank.Keys
    ensures Grows(h, h)
  {
  }

  lemma GrowsTrans(a: Heap, b: Heap, c: Heap)
    requires Grows(a, b) && Grows(b, c)
    ensures Grows(a, c)
  {
    forall p | p in a.mem && p !in a.limbo ensures GrownCell(p, a.mem[p], c.mem[p]) {
      assert GrownCell(p, a.mem[p], b.mem[p]) && GrownCell(p, b.mem[p], c.mem[p]);
    }
    forall v | IsVariable(a.mem, v) && v !in a.limbo ensures SameValue(a.mem, c.mem, v) {
      assert SameValue(a.mem, b.mem, v) && SameValue(b.mem, c.mem, v);
    }
  }

  // ----- copies -----

  predicate OnStack(mem: map<Ptr, Cell>, p: Ptr) {
    p in mem && !mem[p].flags.needsFree && !mem[p].flags.isGlobal
  }

  /** Literals are ordered by creation. */
  function Age(h: Heap, p: Ptr): nat {
    if p in h.rank then h.rank[p] else 0
  }

  /** Every pointer a copy of the block at `p` will follow is good: a captured
      literal is older than the one capturing it. */
  ghost predicate CopyReady(h: Heap, p: Ptr)
    decreases Age(h, p), 1
  {
    p != NULL ==>
      && p in h.mem && h.mem[p].Block? && p !in h.limbo
      && (OnStack(h.mem, p) ==>
           forall i :: 0 <= i < |h.mem[p].captures| ==> FieldReady(h, p, h.mem[p].captures[i]))
  }

  ghost predicate FieldReady(h: Heap, p: Ptr, c: Capture)
    decreases Age(h, p), 0
  {
    && (IsByrefField(c.flags) ==> c.ptr in h.mem && h.mem[c.ptr].Byref? && c.ptr !in h.limbo)
    && (c.flags == FIELD_IS_BLOCK && c.ptr != NULL ==> Age(h, c.ptr) < Age(h, p) && CopyReady(h, c.ptr))
  }

  lemma {:induction false} CopyReadyGrows(h: Heap, h': Heap, p: Ptr)
    requires Grows(h, h') && CopyReady(h, p)
    ensures CopyReady(h', p)
    decreases Age(h, p), 1
  {
    if p != NULL {
      assert GrownCell(p, h.mem[p], h'.mem[p]);
      if OnStack(h.mem, p) {
        forall i | 0 <= i < |h.mem[p].captures| ensures FieldReady(h', p, h.mem[p].captures[i]) {
          FieldReadyGrows(h, h', p, h.mem[p].captures[i]);
        }
      }
    }
  }

  lemma {:induction false} FieldReadyGrows(h: Heap, h': Heap, p: Ptr, c: Capture)
    requires Grows(h, h') && p in h.mem && FieldReady(h, p, c)
    ensures FieldReady(h', p, c)
    decreases Age(h, p), 0
  {
    if IsByrefField(c.flags) {
      assert GrownCell(c.ptr, h.mem[c.ptr], h'.mem[c.ptr]);
    } else if c.flags == FIELD_IS_BLOCK && c.ptr != NULL {
      CopyReadyGrows(h, h', c.ptr);
    }
  }

  /** `r` is what Block_copy makes of `p`: the same block when `p` needs no
      copy, otherwise a block in malloc memory with the same code whose fields
      are copies in turn, share the moved variables, and name the same objects. */
  ghost predicate CopyOf(h: Heap, p: Ptr, r: Ptr)
    decreases Age(h, p), 1
  {
    if !OnStack(h.mem, p) then r == p
    else
      && h.mem[p].Block?
      && OnHeap(h.mem, r) && h.mem[r].Block? && r !in h.limbo
      && h.mem[r].invoke == h.mem[p].invoke
      && h.mem[r].flags.hasCopyDispose == h.mem[p].flags.hasCopyDispose
      && |h.mem[r].captures| == |h.mem[p].captures|
      && forall i :: 0 <= i < |h.mem[p].captures| ==>
           FieldCopy(h, p, h.mem[p].captures[i], h.mem[r].captures[i])
  }

  ghost predicate FieldCopy(h: Heap, p: Ptr, c: Capture, d: Capture)
    decreases Age(h, p), 0
  {
    && d.flags == c.flags
    && (c.flags == FIELD_IS_OBJECT ==> d.ptr == c.ptr)
    && (IsByrefField(c.flags) ==> SharesVariable(h.mem, c.ptr, d.ptr))
    && (c.flags == FIELD_IS_BLOCK ==>
         && (c.ptr == NULL ==> d.ptr == NULL)
         && (c.ptr != NULL ==> c.ptr in h.mem && Age(h, c.ptr) < Age(h, p) && CopyOf(h, c.ptr, d.ptr)))
  }

  /** `d` is the heap home of the variable the literal calls `b`. */
  predicate SharesVariable(mem: map<Ptr, Cell>, b: Ptr, d: Ptr) {
    b in mem && mem[b].Byref? && mem[b].forwarding == d && OnHeap(mem, d) && mem[d].Byref?
  }

  lemma {:induction false} CopyOfGrows(h: Heap, h': Heap, p: Ptr, r: Ptr)
    requires Inv(h) && NULL !in h'.mem && Grows(h, h') && CopyReady(h, p) && CopyOf(h, p, r)
    ensures CopyOf(h', p, r)
    decreases Age(h, p), 1
  {
    if p != NULL {
      assert GrownCell(p, h.mem[p], h'.mem[p]);
      if OnStack(h.mem, p) {
        assert GrownCell(r, h.mem[r], h'.mem[r]);
        forall i | 0 <= i < |h.mem[p].captures|
          ensures FieldCopy(h', p, h.mem[p].captures[i], h.mem[r].captures[i])
        {
          assert FieldReady(h, p, h.mem[p].captures[i]);
          FieldCopyGrows(h, h', p, h.mem[p].captures[i], h.mem[r].captures[i]);
        }
      }
    }
  }

  lemma {:induction false} FieldCopyGrows(h: Heap, h': Heap, p: Ptr, c: Capture, d: Capture)
    requires Inv(h) && NULL !in h'.mem && Grows(h, h') && p in h.mem
    requires FieldReady(h, p, c) && FieldCopy(h, p, c, d)
    ensures FieldCopy(h', p, c, d)
    decreases Age(h, p), 0
  {
    if IsByrefField(c.flags) {
      assert CellShape(d.ptr, h.mem[d.ptr]);
      OwnedOrSelf(h, c.ptr);
      assert GrownCell(c.ptr, h.mem[c.ptr], h'.mem[c.ptr]);
      assert d.ptr !in h.limbo ==> GrownCell(d.ptr, h.mem[d.ptr], h'.mem[d.ptr]);
    } else if c.flags == FIELD_IS_BLOCK && c.ptr != NULL {
      CopyOfGrows(h, h', c.ptr, d.ptr);
    }
  }

  /** A settled variable forwards to a settled cell. */
  lemma OwnedOrSelf(h: Heap, b: Ptr)
    requires Inv(h) && b in h.mem && h.mem[b].Byref? && b !in h.limbo
    ensures h.mem[b].forwarding !in h.limbo
    ensures IsVariable(h.mem, b)
  {
    var f := h.mem[b].forwarding;
    assert CellLinks(h.mem, h.rank, b);
    if f != b {
      RefsRemove(h.mem, h.mem.Keys - h.limbo, b);
      assert Mem(f) in Owned(h);
    }
  }

  // ----- shrinking: what releasing may do -----

  predicate ShrunkCell(c: Cell, d: Cell) {
    && d == c.(flags := c.flags.(count := d.flags.count))
    && d.flags.count <= c.flags.count
    && (!c.flags.needsFree || c.flags.count == LATCHED ==> d == c)
  }

  /** Only counts fall and cells of malloc memory go; latched cells, frames and
      cells in limbo stay as they are. */
  predicate Shrinks(h: Heap, h': Heap) {
    && h'.rank == h.rank
    && h'.mem.Keys <= h.mem.Keys
    && (forall p :: p in h'.mem ==> ShrunkCell(h.mem[p], h'.mem[p]))
    && (forall p :: p in h.mem && p !in h'.mem ==>
          h.mem[p].flags.needsFree && p !in h.limbo && h.mem[p].flags.count != LATCHED)
    && (forall p :: p in h.limbo && p in h'.mem ==> h'.mem[p] == h.mem[p])
  }

  lemma ShrinksTrans(a: Heap, b: Heap, c: Heap)
    requires Shrinks(a, b) && Shrinks(b, c) && a.limbo <= b.limbo
    ensures Shrinks(a, c)
  {
    forall p | p in c.mem ensures ShrunkCell(a.mem[p], c.mem[p]) {
      assert ShrunkCell(a.mem[p], b.mem[p]) && ShrunkCell(b.mem[p], c.mem[p]);
    }
    forall p | p in a.mem && p !in c.mem
      ensures a.mem[p].flags.needsFree && p !in a.limbo && a.mem[p].flags.count != LATCHED
    {
      if p in b.mem { assert ShrunkCell(a.mem[p], b.mem[p]); }
    }
  }
}

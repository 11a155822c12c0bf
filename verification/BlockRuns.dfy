/** Runs of the runtime as clients see them, and what a `__block` variable
    holds along such a run. */
module BlockRuns {
  import opened BlockHeap
  import opened BlockLedger
  import opened BlockSharing
  import opened BlockSteps

  /** What a client can do between two states with nothing under way. */
  datatype Event =
    | Grew                      // Block_copy, a new literal, a new variable
    | Shrank                    // Block_release
    | Wrote(b: Ptr, v: Ptr)     // an assignment through some name of a variable
    | Popped(s: Ptr)            // a frame cell goes out of scope

  ghost function Written(h: Heap, b: Ptr, v: Ptr): Heap
    requires IsVariable(h.mem, b)
  {
    var f := h.mem[b].forwarding;
    h.(mem := h.mem[f := h.mem[f].(value := v)])
  }

  function Without(h: Heap, s: Ptr): Heap {
    h.(mem := h.mem - {s})
  }

  ghost predicate Step(h: Heap, e: Event, h': Heap) {
    && Inv(h) && Inv(h') && h.limbo == h'.limbo == {}
    && match e
       case Grew => Grows(h, h')
       case Shrank => Shrinks(h, h')
       case Wrote(b, v) => IsVariable(h.mem, b) && h' == Written(h, b, v)
       case Popped(s) => OnStack(h.mem, s) && Shrinks(Without(h, s), h')
  }

  ghost predicate Run(hs: seq<Heap>, es: seq<Event>) {
    |hs| == |es| + 1 && forall i :: 0 <= i < |es| ==> Step(hs[i], es[i], hs[i + 1])
  }

  ghost predicate AliveThroughout(hs: seq<Heap>, a: Ptr) {
    forall i :: 0 <= i < |hs| ==> IsVariable(hs[i].mem, a)
  }

  /** The value a single shared cell would hold: that of the last assignment
      through any of its names. */
  ghost function LastWrite(hs: seq<Heap>, es: seq<Event>, a: Ptr): Ptr
    requires |hs| == |es| + 1 && IsVariable(hs[0].mem, a)
    decreases |es|
  {
    if es == [] then Value(hs[0].mem, a)
    else
      var n := |es| - 1;
      if es[n].Wrote? && Aliases(hs[n].mem, a, es[n].b) then es[n].v
      else LastWrite(hs[..n + 1], es[..n], a)
  }

  lemma StepValue(h: Heap, e: Event, h': Heap, a: Ptr)
    requires Step(h, e, h') && IsVariable(h.mem, a) && IsVariable(h'.mem, a)
    ensures Value(h'.mem, a) == if e.Wrote? && Aliases(h.mem, a, e.b) then e.v else Value(h.mem, a)
  {
    hide Inv, Shrinks, GrownCell, Written;
    match e {
      case Grew => assert SameValue(h.mem, h'.mem, a);
      case Shrank => ShrinksValue(h, h', a);
      case Wrote(b, v) => WrittenValue(h, b, v, a);
      case Popped(s) => ShrinksValue(Without(h, s), h', a);
    }
  }

  lemma WrittenValue(h: Heap, b: Ptr, v: Ptr, a: Ptr)
    requires Inv(h) && h.limbo == {} && IsVariable(h.mem, a) && IsVariable(h.mem, b)
    ensures var mem' := Written(h, b, v).mem;
            && IsVariable(mem', a) && mem'[a].forwarding == h.mem[a].forwarding
            && Value(mem', a) == if Aliases(h.mem, a, b) then v else Value(h.mem, a)
  {
    hide Inv;
    VariableFacts(h, a);
    VariableFacts(h, b);
  }

  lemma ShrinksValue(h: Heap, h': Heap, a: Ptr)
    requires Shrinks(h, h') && IsVariable(h'.mem, a)
    ensures IsVariable(h.mem, a) && Value(h'.mem, a) == Value(h.mem, a) && h'.mem[a].forwarding == h.mem[a].forwarding
  {
    assert ShrunkCell(h.mem[a], h'.mem[a]);
    var f := h'.mem[a].forwarding;
    assert ShrunkCell(h.mem[f], h'.mem[f]);
  }

  lemma StepAliases(h: Heap, e: Event, h': Heap, a: Ptr, b: Ptr)
    requires Step(h, e, h') && IsVariable(h.mem, a) && IsVariable(h'.mem, a) && IsVariable(h.mem, b) &&
             IsVariable(h'.mem, b)
    ensures Aliases(h'.mem, a, b) <==> Aliases(h.mem, a, b)
  {
    hide Inv, Shrinks, GrownCell, Written;
    match e {
      case Grew =>
      case Shrank => ShrinksValue(h, h', a); ShrinksValue(h, h', b);
      case Wrote(x, v) => WrittenValue(h, x, v, a); WrittenValue(h, x, v, b);
      case Popped(s) => ShrinksValue(Without(h, s), h', a); ShrinksValue(Without(h, s), h', b);
    }
  }

  /** Forwarding settles in one hop. */
  lemma OneHop(h: Heap, b: Ptr)
    requires Inv(h) && b in h.mem && h.mem[b].Byref? && b !in h.limbo
    ensures IsVariable(h.mem, b) && h.mem[h.mem[b].forwarding].forwarding == h.mem[b].forwarding
  {
    VariableFacts(h, b);
    assert CellShape(h.mem[b].forwarding, h.mem[h.mem[b].forwarding]);
  }

  /** The forwarding protocol refines one shared variable: whatever mix of
      copies, releases, scope exits and assignments a run consists of, reading
      through any surviving name gives the last value assigned through any name. */
  lemma {:induction false} ReadsLastWrite(hs: seq<Heap>, es: seq<Event>, a: Ptr)
    requires Run(hs, es) && AliveThroughout(hs, a)
    ensures Value(hs[|es|].mem, a) == LastWrite(hs, es, a)
    decreases |es|
  {
    hide Step;
    if es != [] {
      var n := |es| - 1;
      assert Step(hs[n], es[n], hs[n + 1]);
      StepValue(hs[n], es[n], hs[n + 1], a);
      assert Run(hs[..n + 1], es[..n]);
      ReadsLastWrite(hs[..n + 1], es[..n], a);
    }
  }

  /** Names of one variable stay names of one variable, and read alike; names
      of different variables never meet. */
  lemma {:induction false} NamesAgree(hs: seq<Heap>, es: seq<Event>, a: Ptr, b: Ptr)
    requires Run(hs, es) && AliveThroughout(hs, a) && AliveThroughout(hs, b)
    ensures Aliases(hs[|es|].mem, a, b) <==> Aliases(hs[0].mem, a, b)
    ensures Aliases(hs[0].mem, a, b) ==> Value(hs[|es|].mem, a) == Value(hs[|es|].mem, b)
    decreases |es|
  {
    hide Step;
    if es != [] {
      var n := |es| - 1;
      assert Step(hs[n], es[n], hs[n + 1]);
      StepAliases(hs[n], es[n], hs[n + 1], a, b);
      assert Run(hs[..n + 1], es[..n]);
      NamesAgree(hs[..n + 1], es[..n], a, b);
    }
  }

  // ----- the steps of frames -----

  lemma WrittenKeepsInv(h: Heap, b: Ptr, v: Ptr)
    requires Inv(h) && b in h.mem && h.mem[b].Byref? && b !in h.limbo
    ensures IsVariable(h.mem, b) && Inv(Written(h, b, v))
  {
    hide Shaped, Balanced;
    VariableFacts(h, b);
    var h' := Written(h, b, v);
    RefsSame(h.mem, h'.mem, h.mem.Keys - h.limbo);
    assert h'.mem.Keys == h.mem.Keys;
    WrittenShape(h, h.mem[b].forwarding, v);
    WrittenBalance(h.mem, h.limbo, h.retains, Owned(h), h.mem[b].forwarding, v);
  }

  lemma WrittenShape(h: Heap, f: Ptr, v: Ptr)
    requires Shaped(h) && f in h.mem && h.mem[f].Byref?
    ensures Shaped(h.(mem := h.mem[f := h.mem[f].(value := v)]))
  {
    var mem' := h.mem[f := h.mem[f].(value := v)];
    forall p | p in mem' ensures CellShape(p, mem'[p]) {
      assert CellShape(p, h.mem[p]);
    }
    forall p | p in mem' && p !in h.limbo ensures CellLinks(mem', h.rank, p) {
      assert CellLinks(h.mem, h.rank, p);
    }
  }

  lemma WrittenBalance(mem: map<Ptr, Cell>, limbo: set<Ptr>, retains: multiset<Ptr>, owned: multiset<Ref>,
                       f: Ptr, v: Ptr)
    requires Balanced(mem, limbo, retains, owned) && f in mem && mem[f].Byref?
    ensures Balanced(mem[f := mem[f].(value := v)], limbo, retains, owned)
  {
  }

  lemma PoppedShrinks(h: Heap, h': Heap, s: Ptr)
    requires s in h.mem && Shrinks(Leaving(h, s), h')
    ensures Shrinks(Without(h, s), Freed(h', s))
  {
    forall p | p in Freed(h', s).mem ensures ShrunkCell(h.mem[p], h'.mem[p]) {
      assert ShrunkCell(Leaving(h, s).mem[p], h'.mem[p]);
    }
  }

  /** A literal that captures what is ready to be copied is itself ready. */
  lemma {:induction false} YoungestIsReady(h: Heap, h': Heap, p: Ptr)
    requires Inv(h) && Inv(h') && Grows(h, h') && p in h'.mem && p !in h'.limbo && h'.mem[p].Block?
    requires forall q :: q in h.mem ==> Age(h', q) < Age(h', p)
    requires forall i :: 0 <= i < |h'.mem[p].captures| ==>
               var c := h'.mem[p].captures[i];
               && (c.flags == FIELD_IS_BLOCK ==> CopyReady(h, c.ptr))
               && (IsByrefField(c.flags) ==> c.ptr in h.mem && h.mem[c.ptr].Byref? && c.ptr !in h.limbo)
    ensures CopyReady(h', p)
  {
    forall i | 0 <= i < |h'.mem[p].captures| ensures FieldReady(h', p, h'.mem[p].captures[i]) {
      var c := h'.mem[p].captures[i];
      if c.flags == FIELD_IS_BLOCK && c.ptr != NULL { CopyReadyGrows(h, h', c.ptr); }
      if IsByrefField(c.flags) { GrowsFacts(h, h', c.ptr); }
    }
  }
}

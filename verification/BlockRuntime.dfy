/** The entry points of the Blocks runtime, with garbage collection off. */
module BlockRuntime {
  import opened BlockHeap
  import opened BlockLedger
  import opened BlockSharing
  import opened BlockSteps
  import opened BlockRuns

  class Runtime {
    var mem: map<Ptr, Cell>
    ghost var rank: map<Ptr, nat>
    ghost var claims: multiset<Ref>
    ghost var limbo: set<Ptr>
    ghost var retains: multiset<Ptr>

    ghost function State(): Heap
      reads this
    {
      Heap(mem, rank, claims, limbo, retains)
    }

    ghost predicate Valid()
      reads this
    {
      Inv(State())
    }

    constructor ()
      ensures Valid() && mem == map[] && claims == multiset{} && limbo == {}
    {
      mem := map[];
      rank := map[];
      claims := multiset{};
      limbo := {};
      retains := multiset{};
    }

    // ----- counts -----

    method LatchingIncr(p: Ptr)
      requires p in mem
      modifies this`mem
      ensures mem == WithFlags(old(mem), p, Incremented(old(mem)[p].flags))
    {
      var flags := mem[p].flags;
      if flags.count != LATCHED {
        flags := flags.(count := flags.count + 1);
      }
      mem := mem[p := mem[p].(flags := flags)];
    }

    method LatchingDecr(p: Ptr) returns (count: nat)
      requires p in mem
      modifies this`mem
      ensures mem == WithFlags(old(mem), p, Decremented(old(mem)[p].flags))
      ensures count == mem[p].flags.count
    {
      var flags := mem[p].flags;
      if flags.count == LATCHED {
        count := LATCHED;
      } else if flags.count == 0 {
        count := 0;
      } else {
        flags := flags.(count := flags.count - 1);
        count := flags.count;
      }
      mem := mem[p := mem[p].(flags := flags)];
    }

    // ----- malloc and free -----

    method Malloc() returns (r: Ptr)
      ensures r != NULL && r !in mem
    {
      ghost var free := FreshAddress(mem.Keys + {NULL});
      r :| r != NULL && r !in mem;
    }

    /** Give back the memory of a cell whose last reference went at state `h0`. */
    method Free(p: Ptr, ghost h0: Heap)
      requires Valid() && p in mem && OnHeap(h0.mem, p) && p !in h0.limbo && h0.mem[p].flags.count == 1
      requires Shrinks(Retired(h0, p), State()) && limbo == h0.limbo + {p}
      modifies this`mem, this`limbo
      ensures Valid() && Shrinks(h0, State()) && limbo == h0.limbo
    {
      hide Inv, Shrinks;
      ghost var h := State();
      RetiredThenFreed(h0, h, p);
      FreedKeepsInv(h, p);
      mem := mem - {p};
      limbo := limbo - {p};
      assert State() == Freed(h, p);
    }

    /** The count of `p` has just reached zero; nothing happens at run time. */
    ghost method Retire(p: Ptr, h0: Heap)
      requires Inv(h0) && OnHeap(h0.mem, p) && p !in h0.limbo && Mem(p) in h0.claims && h0.mem[p].flags.count == 1
      requires State() == h0.(mem := WithFlags(h0.mem, p, Decremented(h0.mem[p].flags)))
      modifies this`limbo, this`claims
      ensures Valid() && State() == Retired(h0, p)
    {
      hide Inv;
      RetiredKeepsInv(h0, p);
      limbo := limbo + {p};
      claims := claims - multiset{Mem(p)} + OwnedRefs(p, h0.mem[p]);
      assert State() == Retired(h0, p);
    }

    // ----- copying -----

    /** _Block_copy_internal, and so _Block_copy: the result is one more
        reference for the caller. */
    method CopyInternal(arg: Ptr) returns (r: Ptr)
      requires Valid() && CopyReady(State(), arg)
      modifies this
      ensures Valid() && Grows(old(State()), State())
      ensures claims == old(claims) + multiset{Mem(r)} && limbo == old(limbo)
      ensures CopyOf(State(), arg, r) && CopyResult(State(), arg, r)
      ensures OnStack(old(mem), arg) ==> r !in old(mem)
      ensures forall p :: p in limbo ==> p in mem && mem[p] == old(mem)[p]
      decreases if arg == NULL then 0 else Age(State(), arg) + 1, 4
    {
      hide Inv, Grows, Building;
      ghost var h0 := State();
      ReadyFacts(h0, arg);
      if arg == NULL {
        WeightlessClaim(h0, arg, claims + multiset{Mem(arg)});
        ClaimGrows(h0, claims + multiset{Mem(arg)});
        claims := claims + multiset{Mem(arg)};
        return NULL;
      }
      var aBlock := mem[arg];
      if aBlock.flags.needsFree {
        LatchingIncr(arg);
        claims := claims + multiset{Mem(arg)};
        RetainedKeepsInv(h0, arg);
        RetainedGrows(h0, arg);
        return arg;
      } else if aBlock.flags.isGlobal {
        WeightlessClaim(h0, arg, claims + multiset{Mem(arg)});
        ClaimGrows(h0, claims + multiset{Mem(arg)});
        claims := claims + multiset{Mem(arg)};
        return arg;
      }

      // It is a stack block: make a copy.
      r := CopyStackBlock(arg);
    }

    method CopyStackBlock(arg: Ptr) returns (r: Ptr)
      requires Valid() && CopyReady(State(), arg) && OnStack(mem, arg) && mem[arg].Block?
      modifies this
      ensures Valid() && Grows(old(State()), State())
      ensures claims == old(claims) + multiset{Mem(r)} && limbo == old(limbo)
      ensures CopyOf(State(), arg, r) && CopyResult(State(), arg, r) && r !in old(mem)
      ensures forall p :: p in limbo ==> p in mem && mem[p] == old(mem)[p]
      decreases Age(State(), arg) + 1, 3
    {
      hide Inv, Grows, Building, CopyReady, CopyOf, CellShape, GrownCell, CopyResult, Age;
      ghost var h0 := State();
      ReadyFacts(h0, arg);
      var flags := mem[arg].flags;
      r := CloneToHeap(arg);
      ghost var h1 := State();
      CopyReadyGrows(h0, h1, arg);
      GrowsFacts(h0, h1, arg);
      BuildingFacts(h1, arg, r, 0);
      if flags.hasCopyDispose {
        CopyHelper(r, arg);
      }
      ghost var h2 := State();
      if !flags.hasCopyDispose { ClaimGrows(h1, claims); }
      CopyReadyGrows(h1, h2, arg);
      BuildingFacts(h2, arg, r, |mem[arg].captures|);
      Settle(arg, r);
      SameResult(h2, State(), arg, r);
      GrowsTrans(h0, h1, h2);
      GrowsTrans(h0, h2, State());
    }

    /** malloc, bit copy, and the new flags word and class. */
    method CloneToHeap(arg: Ptr) returns (r: Ptr)
      requires Valid() && arg in mem && arg !in limbo && mem[arg].Block? && OnStack(mem, arg) && arg in rank
      modifies this`mem, this`rank, this`limbo
      ensures Valid() && Grows(old(State()), State()) && r !in old(mem) && limbo == old(limbo) + {r}
      ensures Building(State(), arg, r, 0)
      ensures forall p :: p in old(limbo) ==> mem[p] == old(mem)[p]
      ensures mem[r].captures == mem[arg].captures == old(mem)[arg].captures
    {
      ghost var h0 := State();
      var aBlock := mem[arg];
      assert CellShape(arg, aBlock);
      r := Malloc();
      var flags := aBlock.flags.(count := 0);
      flags := flags.(needsFree := true, count := flags.count + 1);
      var result := Block(MallocBlock, flags, aBlock.invoke, aBlock.captures);
      mem := mem[r := result];
      rank := rank[r := rank[arg]];
      limbo := limbo + {r};
      assert State() == Allocated(h0, r, result, h0.rank[arg]);
      AllocatedKeepsInv(h0, r, result, h0.rank[arg]);
      AllocatedGrows(h0, r, result, h0.rank[arg]);
    }

    /** Hand a finished block to its first owner; nothing happens at run time. */
    ghost method Settle(src: Ptr, dst: Ptr)
      requires Valid() && src in mem && mem[src].Block? && Building(State(), src, dst, |mem[src].captures|)
      requires CopyReady(State(), src) && CaptureRefs(mem[dst].captures) <= claims
      modifies this`limbo, this`claims
      ensures Valid() && Grows(old(State()), State())
      ensures limbo == old(limbo) - {dst}
      ensures claims == old(claims) - CaptureRefs(mem[dst].captures) + multiset{Mem(dst)}
      ensures CopyOf(State(), src, dst)
    {
      hide Inv, Grows, CopyReady, CopyOf, CellLinks;
      ghost var h := State();
      StateFacts(h);
      BuildingFacts(h, src, dst, |mem[src].captures|);
      BuiltLinks(h, src, dst);
      SettledKeepsInv(h, dst);
      limbo := limbo - {dst};
      claims := claims - CaptureRefs(mem[dst].captures) + multiset{Mem(dst)};
      assert State() == Settled(h, dst);
      SettledGrows(h, dst);
      BuiltCopy(h, src, dst);
    }

    /** The compiler's copy helper: fix up every captured variable in turn. */
    method CopyHelper(dst: Ptr, src: Ptr)
      requires Valid() && CopyReady(State(), src) && src in mem && mem[src].Block? && Building(State(), src, dst, 0)
      modifies this
      ensures Valid() && Grows(old(State()), State()) && limbo == old(limbo)
      ensures src in mem && mem[src].Block? && Building(State(), src, dst, |mem[src].captures|)
      ensures claims == old(claims) + CaptureRefs(mem[dst].captures)
      ensures forall p :: p in limbo && p != dst ==> p in mem && mem[p] == old(mem)[p]
      decreases Age(State(), src) + 1, 2
    {
      hide Inv, Grows, Building, CopyReady, CellShape, CopyResult, CaptureRefs, Age;
      ghost var h0 := State();
      StateFacts(h0);
      BuildingFacts(h0, src, dst, 0);
      var captures := mem[src].captures;
      ClaimGrows(h0, claims);
      CaptureRefsNone(mem[dst].captures);
      for i := 0 to |captures|
        invariant Valid() && Grows(h0, State()) && limbo == h0.limbo
        invariant src in mem && mem[src].Block? && dst in mem && mem[dst].Block?
        invariant mem[src].captures == captures && |mem[dst].captures| == |captures|
        invariant Building(State(), src, dst, i)
        invariant claims == h0.claims + CaptureRefs(mem[dst].captures[..i])
        invariant forall p :: p in limbo && p != dst ==> p in mem && mem[p] == h0.mem[p]
      {
        ghost var h1 := State();
        CopyField(dst, src, i, captures[i], h0);
        BuildingFacts(State(), src, dst, i + 1);
        CaptureRefsPrefix(h1.mem[dst].captures, mem[dst].captures, i);
      }
      assert mem[dst].captures[..|captures|] == mem[dst].captures;
    }

    /** One line of a copy helper. */
    method CopyField(dst: Ptr, src: Ptr, i: nat, c: Capture, ghost h0: Heap)
      requires Valid() && Building(State(), src, dst, i) && Grows(h0, State()) && CopyReady(h0, src) && src in h0.mem
      requires i < |mem[src].captures| && mem[src].captures[i] == c
      requires CaptureRefs(mem[dst].captures[..i]) <= claims
      modifies this
      ensures Valid() && Grows(h0, State()) && limbo == old(limbo)
      ensures Building(State(), src, dst, i + 1) && mem[src].captures == old(mem)[src].captures
      ensures claims == old(claims) + multiset{RefOf(mem[dst].captures[i])}
      ensures mem[dst].captures[..i] == old(mem)[dst].captures[..i]
      ensures forall p :: p in limbo && p != dst ==> p in mem && mem[p] == old(mem)[p]
      decreases Age(h0, src) + 1, 1
    {
      hide Inv, Grows, Building, CopyReady;
      ghost var h1 := State();
      BuildingFacts(h1, src, dst, i);
      FieldFacts(h0, h1, src, dst, i);
      var field := ObjectAssign(c.ptr, c.flags);
      ghost var h2 := State();
      GrowsFacts(h1, h2, src);
      var d := mem[dst];
      mem := mem[dst := Block(d.isa, d.flags, d.invoke, d.captures[i := Capture(d.captures[i].flags, field)])];
      ghost var h3 := FieldFilled(h1, h2, src, dst, i, field);
      assert h3 == State();
      GrowsTrans(h0, h1, h2);
      GrowsTrans(h0, h2, h3);
    }

    /** _Block_object_assign: what goes into the field. */
    method ObjectAssign(p: Ptr, flags: bv8) returns (dest: Ptr)
      requires Valid() && (ValidKeep(flags) || ValidField(flags))
      requires flags == FIELD_IS_BLOCK ==> CopyReady(State(), p)
      requires IsByrefField(flags) ==> p in mem && mem[p].Byref? && p !in limbo
      modifies this
      ensures Valid() && Grows(old(State()), State()) && limbo == old(limbo)
      ensures ValidKeep(flags) ==> dest == p && State() == old(State())
      ensures ValidField(flags) ==>
                claims == old(claims) + multiset{RefOf(Capture(flags, dest))} && Assigned(State(), p, flags, dest)
      ensures forall q :: q in limbo ==> q in mem && mem[q] == old(mem)[q]
      decreases if flags == FIELD_IS_BLOCK && p != NULL then Age(State(), p) + 1 else 0,
        if ValidKeep(flags) then 0 else 5
    {
      hide Inv, Grows, CopyReady, CopyOf;
      ghost var h0 := State();
      StateFacts(h0);
      if flags & BYREF_CALLER == BYREF_CALLER {
        // Neither retained nor copied, whatever the variable holds.
        dest := p;
      } else if flags & FIELD_IS_BYREF == FIELD_IS_BYREF {
        dest := ByrefAssignCopy(p, flags);
      } else if flags & FIELD_IS_BLOCK == FIELD_IS_BLOCK {
        dest := CopyInternal(p);
      } else if flags & FIELD_IS_OBJECT == FIELD_IS_OBJECT {
        RetainObject(p);
        dest := p;
      }
    }

    /** The retain callback. */
    method RetainObject(o: Ptr)
      requires Valid()
      modifies this`claims, this`retains
      ensures Valid() && retains == old(retains) + multiset{o} && claims == old(claims) + multiset{Object(o)}
      ensures Grows(old(State()), State())
    {
      hide Inv;
      ObjectRetainedKeepsInv(State(), o);
      StateFacts(State());
      claims := claims + multiset{Object(o)};
      retains := retains + multiset{o};
      assert Grows(old(State()), State());
    }

    /** _Block_byref_assign_copy: share the variable, moving it to the heap the
        first time a block that uses it is copied. */
    method ByrefAssignCopy(src: Ptr, flags: bv8) returns (dest: Ptr)
      requires Valid() && src in mem && mem[src].Byref? && src !in limbo && IsByrefField(flags)
      modifies this
      ensures Valid() && Grows(old(State()), State()) && limbo == old(limbo)
      ensures claims == old(claims) + multiset{Mem(dest)} && SharesVariable(mem, src, dest)
      ensures old(mem[mem[src].forwarding].flags.count) == 0 ==>
                dest !in old(mem) && dest in mem && mem[dest].Byref? && (mem[dest].weakIsa <==> flags == 24)
      ensures forall q :: q in limbo ==> q in mem && mem[q] == old(mem)[q]
      decreases 0, 4
    {
      hide Inv, Grows;
      ghost var h0 := State();
      VariableFacts(h0, src);
      var shared := mem[src].forwarding;
      if mem[shared].flags.count == 0 {
        var isWeak := flags & (FIELD_IS_BYREF | FIELD_IS_WEAK) == FIELD_IS_BYREF | FIELD_IS_WEAK;
        MoveToHeap(src, isWeak);
      } else if mem[shared].flags.needsFree {
        LatchingIncr(shared);
        claims := claims + multiset{Mem(shared)};
        RetainedKeepsInv(h0, shared);
        RetainedGrows(h0, shared);
      }
      dest := mem[src].forwarding;
    }

    /** The copy starts with two references, one for the block and one for the
        frame, whose variable now forwards to it. */
    method MoveToHeap(src: Ptr, isWeak: bool)
      requires Valid() && src in mem && mem[src].Byref? && src !in limbo
      requires mem[src].forwarding == src && !mem[src].flags.needsFree
      modifies this
      ensures Valid() && Grows(old(State()), State()) && limbo == old(limbo)
      ensures IsVariable(mem, src) && SharesVariable(mem, src, mem[src].forwarding)
      ensures claims == old(claims) + multiset{Mem(mem[src].forwarding)}
      ensures var copy := mem[src].forwarding;
              copy !in old(mem) && copy in mem &&
              mem[copy] == Byref(isWeak, old(mem)[src].flags.(count := 2, needsFree := true), copy,
                                 old(mem)[src].keepFlags, mem[src].value)
      ensures forall q :: q in limbo ==> q in mem && mem[q] == old(mem)[q]
      decreases 0, 3
    {
      hide Inv, Grows;
      ghost var h0 := State();
      VariableFacts(h0, src);
      var copy := AllocateByref(src, isWeak);
      ghost var h1 := State();
      var field := mem[src].value;
      if mem[src].flags.hasCopyDispose {
        // The byref's own helper.
        field := ObjectAssign(field, mem[src].keepFlags);
      }
      FillByref(copy, field);
      ghost var h2 := State();
      GrowsTrans(h0, h1, h2);
      ForwardTo(src, copy);
      GrowsTrans(h0, h2, State());
    }

    /** Patch the frame's variable to forward to its copy. */
    method ForwardTo(src: Ptr, copy: Ptr)
      requires Valid() && src in mem && mem[src].Byref? && src !in limbo && mem[src].forwarding == src &&
               !mem[src].flags.needsFree
      requires copy in limbo && copy in mem && mem[copy].Byref? && mem[copy].flags.needsFree &&
               mem[copy].flags.count == 2
      requires mem[copy].forwarding == copy && mem[copy].value == mem[src].value
      modifies this
      ensures Valid() && Grows(old(State()), State())
      ensures limbo == old(limbo) - {copy} && claims == old(claims) + multiset{Mem(copy)}
      ensures mem == old(mem)[src := old(mem)[src].(forwarding := copy)]
    {
      hide Inv, Grows;
      ghost var h := State();
      MovedKeepsInv(h, src, copy);
      MovedGrows(h, src, copy);
      mem := mem[src := mem[src].(forwarding := copy)];
      limbo := limbo - {copy};
      claims := claims + multiset{Mem(copy)};
      assert State() == Moved(h, src, copy);
    }

    method AllocateByref(src: Ptr, isWeak: bool) returns (copy: Ptr)
      requires Valid() && src in mem && mem[src].Byref? && src !in limbo && !mem[src].flags.needsFree
      modifies this`mem, this`rank, this`limbo
      ensures Valid() && Grows(old(State()), State()) && copy !in old(mem) && limbo == old(limbo) + {copy}
      ensures copy in mem && mem == old(mem)[copy := mem[copy]]
      ensures mem[copy] == Byref(isWeak, old(mem)[src].flags.(count := 2, needsFree := true), copy,
              old(mem)[src].keepFlags, NULL)
    {
      hide Inv, Grows;
      ghost var h0 := State();
      VariableFacts(h0, src);
      copy := Malloc();
      var flags := mem[src].flags.(needsFree := true, count := 2);
      var result := Byref(isWeak, flags, copy, mem[src].keepFlags, NULL);
      mem := mem[copy := result];
      rank := rank[copy := 0];
      limbo := limbo + {copy};
      assert State() == Allocated(h0, copy, result, 0);
      AllocatedKeepsInv(h0, copy, result, 0);
      AllocatedGrows(h0, copy, result, 0);
    }

    method FillByref(copy: Ptr, value: Ptr)
      requires Valid() && copy in limbo && copy in mem && mem[copy].Byref?
      modifies this`mem
      ensures Valid() && Grows(old(State()), State())
      ensures mem == old(mem)[copy := Byref(old(mem)[copy].weakIsa, old(mem)[copy].flags, old(mem)[copy].forwarding,
              old(mem)[copy].keepFlags, value)]
    {
      hide Inv, Grows;
      ghost var h := State();
      StateFacts(h);
      var c := mem[copy];
      ByrefShape(h, copy, value);
      mem := mem[copy := Byref(c.weakIsa, c.flags, c.forwarding, c.keepFlags, value)];
      LimboWriteKeepsInv(h, copy, mem[copy]);
      ByrefWriteGrows(h, copy, mem[copy]);
      assert State() == h.(mem := mem);
    }

    // ----- releasing -----

    /** _Block_release: the caller gives up one reference. A block that is not
        in malloc memory is left alone. */
    method Release(arg: Ptr)
      requires Valid() && (arg != NULL ==> arg in mem && mem[arg].Block? && arg !in limbo)
      requires OnHeap(mem, arg) ==> Mem(arg) in claims
      modifies this
      ensures Valid() && Shrinks(old(State()), State())
      ensures claims == old(claims) - multiset{Mem(arg)} && limbo == old(limbo)
      decreases if OnHeap(mem, arg) then Age(State(), arg) + 1 else 0, 2
    {
      hide Inv, Shrinks, CellLinks;
      ghost var h0 := State();
      StateFacts(h0);
      if !OnHeap(mem, arg) { WeightlessRelease(h0, arg); } else { CountFacts(h0, arg); }
      if arg == NULL {
        claims := claims - multiset{Mem(arg)};
        ClaimShrinks(h0, State());
        return;
      }
      var newCount := LatchingDecr(arg);
      if newCount > 0 {
        claims := claims - multiset{Mem(arg)};
        ReleasedKeepsInv(h0, arg);
        ReleasedShrinks(h0, arg);
        return;
      }
      if mem[arg].flags.needsFree {
        Retire(arg, h0);
        RetiredDisposable(h0, arg);
        ClaimShrinks(State(), State());
        if mem[arg].flags.hasCopyDispose {
          DisposeHelper(arg);
        }
        StateFacts(State());
        Free(arg, h0);
      } else {
        // A global block, or a stack block with a message that it is ignored.
        claims := claims - multiset{Mem(arg)};
        assert mem == h0.mem;
        ClaimShrinks(h0, State());
      }
    }

    /** The compiler's dispose helper: let go of every captured variable. */
    method DisposeHelper(p: Ptr)
      requires Valid() && p in limbo && p in mem && mem[p].Block?
      requires CaptureRefs(mem[p].captures) <= claims
      requires forall i :: 0 <= i < |mem[p].captures| ==> Disposable(State(), p, mem[p].captures[i])
      modifies this
      ensures Valid() && Shrinks(old(State()), State()) && limbo == old(limbo)
      ensures claims == old(claims) - CaptureRefs(old(mem)[p].captures)
      decreases Age(State(), p) + 1, 1
    {
      hide Inv, Shrinks, Disposable;
      ghost var h0 := State();
      var captures := mem[p].captures;
      ghost var rest := claims - CaptureRefs(captures);
      ClaimShrinks(h0, h0);
      for i := 0 to |captures|
        invariant Valid() && Shrinks(h0, State()) && limbo == h0.limbo
        invariant claims == rest + CaptureRefs(captures[i..])
      {
        assert captures[i..][0] == captures[i] && captures[i..][1..] == captures[i + 1..];
        ObjectDisposeField(p, captures[i], h0);
      }
    }

    /** One line of a dispose helper. */
    method ObjectDisposeField(p: Ptr, c: Capture, ghost h0: Heap)
      requires Valid() && Inv(h0) && Shrinks(h0, State()) && limbo == h0.limbo
      requires RefOf(c) in claims && Disposable(h0, p, c)
      modifies this
      ensures Valid() && Shrinks(h0, State()) && limbo == old(limbo)
      ensures claims == old(claims) - multiset{RefOf(c)}
      decreases Age(h0, p) + 1, 0
    {
      hide Inv, Shrinks;
      ghost var h1 := State();
      StateFacts(h0);
      StateFacts(h1);
      if c.flags != FIELD_IS_OBJECT { ClaimFacts(h0, h1, c.ptr); }
      if IsByrefField(c.flags) {
        assert IsVariable(mem, c.ptr);
        assert Share(mem, c.ptr) == multiset{Mem(c.ptr)} <= claims;
      }
      ObjectDispose(c.ptr, c.flags);
      ShrinksTrans(h0, h1, State());
    }

    /** _Block_object_dispose: let go of what a field held. */
    method ObjectDispose(p: Ptr, flags: bv8)
      requires Valid() && (ValidKeep(flags) || ValidField(flags))
      requires flags == FIELD_IS_OBJECT ==> Object(p) in claims
      requires flags == FIELD_IS_BLOCK ==>
                 (p != NULL ==> p in mem && mem[p].Block? && p !in limbo) && (OnHeap(mem, p) ==> Mem(p) in claims)
      requires IsByrefField(flags) ==> VariableHeld(p)
      modifies this
      ensures Valid() && Shrinks(old(State()), State()) && limbo == old(limbo)
      ensures ValidKeep(flags) ==> State() == old(State())
      ensures flags == FIELD_IS_OBJECT ==> claims == old(claims) - multiset{Object(p)}
      ensures flags == FIELD_IS_BLOCK ==> claims == old(claims) - multiset{Mem(p)}
      ensures IsByrefField(flags) ==> claims == old(claims) - Share(old(mem), p)
      decreases if flags == FIELD_IS_BLOCK && OnHeap(mem, p) then Age(State(), p) + 1 else 0,
        if ValidKeep(flags) then 0 else 5
    {
      hide Inv, Shrinks;
      ghost var h0 := State();
      ClaimShrinks(h0, h0);
      if flags & FIELD_IS_BYREF != 0 {
        ByrefRelease(p);
      } else if flags & (FIELD_IS_BLOCK | BYREF_CALLER) == FIELD_IS_BLOCK {
        Destroy(p);
      } else if flags & (FIELD_IS_WEAK | FIELD_IS_BLOCK | BYREF_CALLER) == FIELD_IS_OBJECT {
        ReleaseObject(p);
      }
    }

    /** The reference that disposing of the variable at `p` gives up: none
        while it still lives in its frame. */
    static function Share(m: map<Ptr, Cell>, p: Ptr): multiset<Ref>
      requires IsVariable(m, p)
    {
      if m[m[p].forwarding].flags.needsFree then multiset{Mem(m[p].forwarding)} else multiset{}
    }

    ghost predicate VariableHeld(p: Ptr)
      reads this
    {
      IsVariable(mem, p) && Share(mem, p) <= claims &&
        (mem[mem[p].forwarding].flags.needsFree ==> mem[p].forwarding !in limbo)
    }

    /** _Block_destroy. */
    method Destroy(arg: Ptr)
      requires Valid() && (arg != NULL ==> arg in mem && mem[arg].Block? && arg !in limbo)
      requires OnHeap(mem, arg) ==> Mem(arg) in claims
      modifies this
      ensures Valid() && Shrinks(old(State()), State())
      ensures claims == old(claims) - multiset{Mem(arg)} && limbo == old(limbo)
      decreases if OnHeap(mem, arg) then Age(State(), arg) + 1 else 0, 4
    {
      hide Inv, Shrinks;
      if arg == NULL {
        ghost var h0 := State();
        StateFacts(h0);
        WeightlessRelease(h0, arg);
        claims := claims - multiset{Mem(arg)};
        ClaimShrinks(h0, State());
        return;
      }
      Release(arg);
    }

    /** The release callback. */
    method ReleaseObject(o: Ptr)
      requires Valid() && Object(o) in claims
      modifies this`claims, this`retains
      ensures Valid() && claims == old(claims) - multiset{Object(o)} && retains == old(retains) - multiset{o}
      ensures o in old(retains) && Shrinks(old(State()), State())
    {
      hide Inv, Shrinks;
      ghost var h0 := State();
      ObjectReleasedKeepsInv(h0, o);
      claims := claims - multiset{Object(o)};
      retains := retains - multiset{o};
      assert State() == h0.(claims := claims, retains := retains);
      ClaimShrinks(h0, State());
    }

    /** _Block_byref_release: give up one reference to a variable, wherever it
        lives now. */
    method ByrefRelease(arg: Ptr)
      requires Valid() && VariableHeld(arg)
      modifies this
      ensures Valid() && Shrinks(old(State()), State()) && limbo == old(limbo)
      ensures claims == old(claims) - Share(old(mem), arg)
      decreases 0, 4
    {
      hide Inv, Shrinks;
      ghost var h0 := State();
      ClaimShrinks(h0, h0);
      var shared := mem[arg].forwarding;
      if !mem[shared].flags.needsFree {
        return;
      }
      CountFacts(h0, shared);
      var refcount := mem[shared].flags.count;
      if refcount <= 0 {
        // The underflow message; counts of owned variables never get here.
        assert false;
      } else {
        var left := LatchingDecr(shared);
        if left == 0 {
          Retire(shared, h0);
          ClaimShrinks(State(), State());
          if mem[shared].flags.hasCopyDispose {
            // The byref's own helper.
            ObjectDispose(mem[shared].value, mem[shared].keepFlags);
          }
          Free(shared, h0);
        } else {
          claims := claims - multiset{Mem(shared)};
          ReleasedKeepsInv(h0, shared);
          ReleasedShrinks(h0, shared);
        }
      }
    }

    // ----- what compiled code does around these entry points -----

    /** A block literal comes into being on the stack, youngest of all. */
    method NewLiteral(invoke: nat, hasCopyDispose: bool, captures: seq<Capture>) returns (p: Ptr)
      requires Valid() && (captures != [] ==> hasCopyDispose)
      requires forall i :: 0 <= i < |captures| ==> ValidField(captures[i].flags)
      modifies this
      ensures Valid() && Grows(old(State()), State()) && claims == old(claims) && limbo == old(limbo)
      ensures p !in old(mem) &&
              mem == old(mem)[p := Block(StackBlock, Flags(0, false, hasCopyDispose, false), invoke, captures)]
      ensures forall q :: q in old(mem) ==> Age(State(), q) < Age(State(), p)
    {
      hide Inv, Grows;
      ghost var h0 := State();
      StateFacts(h0);
      ghost var bound := AboveAll(rank.Values);
      assert forall q :: q in rank ==> rank[q] in rank.Values;
      p := Malloc();
      NewPlainCell(p, Block(StackBlock, Flags(0, false, hasCopyDispose, false), invoke, captures), bound);
    }

    /** A `__block` variable comes into being on the stack. */
    method NewVariable(hasCopyDispose: bool, keepFlags: bv8, value: Ptr) returns (b: Ptr)
      requires Valid() && (hasCopyDispose ==> ValidKeep(keepFlags))
      modifies this
      ensures Valid() && Grows(old(State()), State()) && claims == old(claims) && limbo == old(limbo)
      ensures b !in old(mem) &&
              mem == old(mem)[b := Byref(false, Flags(0, false, hasCopyDispose, false), b, keepFlags, value)]
      ensures IsVariable(mem, b) && Value(mem, b) == value
    {
      hide Inv, Grows;
      b := Malloc();
      NewPlainCell(b, Byref(false, Flags(0, false, hasCopyDispose, false), b, keepFlags, value), 0);
    }

    /** A global block is there from the start of the program. */
    method NewGlobal(invoke: nat) returns (p: Ptr)
      requires Valid()
      modifies this
      ensures Valid() && Grows(old(State()), State()) && claims == old(claims) && limbo == old(limbo)
      ensures p !in old(mem) && mem == old(mem)[p := Block(GlobalBlock, Flags(0, false, false, true), invoke, [])]
    {
      hide Inv, Grows;
      p := Malloc();
      NewPlainCell(p, Block(GlobalBlock, Flags(0, false, false, true), invoke, []), 0);
    }

    /** A cell at a fresh address outside malloc memory; it owns nothing. */
    method NewPlainCell(p: Ptr, c: Cell, ghost age: nat)
      requires Valid() && p != NULL && p !in mem && CellShape(p, c) && !c.flags.needsFree
      requires c.Byref? ==> c.forwarding == p
      modifies this
      ensures Valid() && Grows(old(State()), State()) && claims == old(claims) && limbo == old(limbo)
      ensures mem == old(mem)[p := c] && rank == old(rank)[p := age]
    {
      hide Inv, Grows, CellShape;
      ghost var h0 := State();
      StateFacts(h0);
      AllocatedKeepsInv(h0, p, c, age);
      AllocatedGrows(h0, p, c, age);
      ghost var h1 := Allocated(h0, p, c, age);
      SettledKeepsInv(h1, p);
      SettledGrows(h1, p);
      mem := mem[p := c];
      rank := rank[p := age];
      assert Settled(h1, p) == h0.(mem := mem, rank := rank);
      GrowsTrans(h0, h1, State());
    }

    /** Compiled code reads a variable through its forwarding pointer ... */
    method ReadVariable(b: Ptr) returns (v: Ptr)
      requires Valid() && b in mem && mem[b].Byref? && b !in limbo
      ensures IsVariable(mem, b) && v == Value(mem, b)
    {
      hide Inv;
      VariableFacts(State(), b);
      v := mem[mem[b].forwarding].value;
    }

    /** ... and writes it the same way. */
    method WriteVariable(b: Ptr, v: Ptr)
      requires Valid() && b in mem && mem[b].Byref? && b !in limbo
      modifies this`mem
      ensures IsVariable(old(mem), b) && Valid() && State() == Written(old(State()), b, v)
    {
      hide Inv;
      WrittenKeepsInv(State(), b, v);
      var home := mem[b].forwarding;
      mem := mem[home := mem[home].(value := v)];
    }

    /** The scope of a variable ends: the compiler disposes of it and its frame
        cell goes. */
    method LeaveVariable(b: Ptr)
      requires Valid() && b in mem && mem[b].Byref? && b !in limbo && !mem[b].flags.needsFree
      modifies this
      ensures Valid() && b !in mem && claims == old(claims) && limbo == old(limbo)
      ensures Shrinks(Without(old(State()), b), State())
    {
      hide Inv, Shrinks, CellShape;
      ghost var h0 := State();
      StateFacts(h0);
      VariableFacts(h0, b);
      LeavingKeepsInv(h0, b);
      limbo := limbo + {b};
      claims := claims + OwnedRefs(b, mem[b]);
      assert State() == Leaving(h0, b);
      assert Share(mem, b) == OwnedRefs(b, mem[b]);
      ObjectDispose(b, FIELD_IS_BYREF);
      PopFrameCell(b, h0);
    }

    /** The scope of a literal ends. */
    method LeaveLiteral(p: Ptr)
      requires Valid() && p in mem && mem[p].Block? && p !in limbo && OnStack(mem, p)
      modifies this
      ensures Valid() && p !in mem && claims == old(claims) && limbo == old(limbo)
      ensures Shrinks(Without(old(State()), p), State())
    {
      hide Inv, Shrinks, CellShape;
      ghost var h0 := State();
      StateFacts(h0);
      LeavingKeepsInv(h0, p);
      limbo := limbo + {p};
      assert State() == Leaving(h0, p);
      ClaimShrinks(State(), State());
      PopFrameCell(p, h0);
    }

    method PopFrameCell(p: Ptr, ghost h0: Heap)
      requires Valid() && p in h0.mem && p !in h0.limbo && Shrinks(Leaving(h0, p), State()) && limbo == h0.limbo + {p}
      modifies this`mem, this`limbo
      ensures Valid() && p !in mem && limbo == h0.limbo && Shrinks(Without(h0, p), State())
    {
      hide Inv, Shrinks;
      ghost var h := State();
      FreedKeepsInv(h, p);
      PoppedShrinks(h0, h, p);
      mem := mem - {p};
      limbo := limbo - {p};
      assert State() == Freed(h, p);
    }
  }
}

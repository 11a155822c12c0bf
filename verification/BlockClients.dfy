/** Programs that use the runtime: whatever they call, what they did is a run. */
module BlockClients {
  import opened BlockHeap
  import opened BlockLedger
  import opened BlockSharing
  import opened BlockSteps
  import opened BlockRuns
  import opened BlockRuntime

  /** A program, its runtime, and the record of all states and events so far. */
  class Client {
    const rt: Runtime
    ghost var states: seq<Heap>
    ghost var events: seq<Event>

    ghost predicate Valid()
      reads this, rt
    {
      rt.Valid() && rt.limbo == {} && Run(states, events) && states[|events|] == rt.State()
    }

    constructor ()
      ensures Valid() && fresh(rt) && events == []
    {
      rt := new Runtime();
      new;
      states, events := [rt.State()], [];
    }

    /** What the last call did goes on record. */
    ghost method Record(e: Event)
      requires Run(states, events) && rt.limbo == {} && Step(states[|events|], e, rt.State())
      modifies this`states, this`events
      ensures Valid() && events == old(events) + [e] && states == old(states) + [rt.State()]
    {
      hide Step;
      StepKeepsValid(states[|events|], e, rt.State());
      RunGrows(states, events, e, rt.State());
      states, events := states + [rt.State()], events + [e];
    }

    method Copy(arg: Ptr) returns (r: Ptr)
      requires Valid() && CopyReady(rt.State(), arg)
      modifies this, rt
      ensures Valid() && events == old(events) + [Grew] && old(states) <= states
      ensures CopyOf(rt.State(), arg, r) && rt.claims == old(rt.claims) + multiset{Mem(r)}
    {
      hide Run, Inv, Grows;
      r := rt.CopyInternal(arg);
      Record(Grew);
    }

    method Release(arg: Ptr)
      requires Valid() && (arg != NULL ==> arg in rt.mem && rt.mem[arg].Block?)
      requires OnHeap(rt.mem, arg) ==> Mem(arg) in rt.claims
      modifies this, rt
      ensures Valid() && events == old(events) + [Shrank] && old(states) <= states
      ensures rt.claims == old(rt.claims) - multiset{Mem(arg)}
    {
      hide Run, Inv, Shrinks;
      rt.Release(arg);
      Record(Shrank);
    }

    method NewLiteral(invoke: nat, hasCopyDispose: bool, captures: seq<Capture>) returns (p: Ptr)
      requires Valid() && (captures != [] ==> hasCopyDispose)
      requires forall i :: 0 <= i < |captures| ==> ValidField(captures[i].flags)
      modifies this, rt
      ensures Valid() && events == old(events) + [Grew] && old(states) <= states
      ensures p !in old(rt.mem) && OnStack(rt.mem, p) && rt.mem[p].Block? && rt.mem[p].captures == captures
    {
      hide Run, Inv, Grows;
      p := rt.NewLiteral(invoke, hasCopyDispose, captures);
      Record(Grew);
    }

    method NewVariable(hasCopyDispose: bool, keepFlags: bv8, value: Ptr) returns (b: Ptr)
      requires Valid() && (hasCopyDispose ==> ValidKeep(keepFlags))
      modifies this, rt
      ensures Valid() && events == old(events) + [Grew] && old(states) <= states
      ensures b !in old(rt.mem) && IsVariable(rt.mem, b) && Value(rt.mem, b) == value
    {
      hide Run, Inv, Grows;
      b := rt.NewVariable(hasCopyDispose, keepFlags, value);
      Record(Grew);
    }

    method Write(b: Ptr, v: Ptr)
      requires Valid() && b in rt.mem && rt.mem[b].Byref?
      modifies this, rt
      ensures Valid() && events == old(events) + [Wrote(b, v)] && old(states) <= states
    {
      hide Run, Inv;
      rt.WriteVariable(b, v);
      Record(Wrote(b, v));
    }

    method LeaveVariable(b: Ptr)
      requires Valid() && b in rt.mem && rt.mem[b].Byref? && !rt.mem[b].flags.needsFree
      modifies this, rt
      ensures Valid() && events == old(events) + [Popped(b)] && old(states) <= states && b !in rt.mem
    {
      hide Run, Inv, Shrinks, CellShape;
      FrameFacts(rt.State(), b);
      rt.LeaveVariable(b);
      Record(Popped(b));
    }

    method LeaveLiteral(p: Ptr)
      requires Valid() && OnStack(rt.mem, p) && rt.mem[p].Block?
      modifies this, rt
      ensures Valid() && events == old(events) + [Popped(p)] && old(states) <= states && p !in rt.mem
    {
      hide Run, Inv, Shrinks;
      rt.LeaveLiteral(p);
      Record(Popped(p));
    }

    /** However the program got here: through a name that has been there since some
        moment, it reads the last value assigned since then through any name. */
    method Read(b: Ptr) returns (v: Ptr)
      requires Valid() && b in rt.mem && rt.mem[b].Byref?
      ensures forall i :: 0 <= i <= |events| && AliveThroughout(states[i..], b) ==>
                v == LastWrite(states[i..], events[i..], b)
    {
      hide Inv;
      v := rt.ReadVariable(b);
      forall i | 0 <= i <= |events| && AliveThroughout(states[i..], b)
        ensures v == LastWrite(states[i..], events[i..], b)
      {
        RunFrom(states, events, i);
        ReadsLastWrite(states[i..], events[i..], b);
      }
    }
  }

  lemma StepKeepsValid(h: Heap, e: Event, h': Heap)
    requires Step(h, e, h')
    ensures Inv(h')
  {
    hide Inv;
  }

  lemma FrameFacts(h: Heap, b: Ptr)
    requires Inv(h) && b in h.mem && h.mem[b].Byref? && !h.mem[b].flags.needsFree
    ensures OnStack(h.mem, b)
  {
    assert CellShape(b, h.mem[b]);
  }

  lemma RunGrows(hs: seq<Heap>, es: seq<Event>, e: Event, h: Heap)
    requires Run(hs, es) && Step(hs[|es|], e, h)
    ensures Run(hs + [h], es + [e])
  {
    hide Step;
    forall i | 0 <= i < |es + [e]| ensures Step((hs + [h])[i], (es + [e])[i], (hs + [h])[i + 1]) {
      if i < |es| { assert Step(hs[i], es[i], hs[i + 1]); }
    }
  }

  lemma RunFrom(hs: seq<Heap>, es: seq<Event>, i: nat)
    requires Run(hs, es) && i <= |es|
    ensures Run(hs[i..], es[i..])
  {
    hide Step;
    forall j | 0 <= j < |es[i..]| ensures Step(hs[i..][j], es[i..][j], hs[i..][j + 1]) {
      assert Step(hs[i + j], es[i + j], hs[i + j + 1]);
    }
  }
}

/** The latching increment and decrement under any interleaving: each thread
    loads the word, decides, and tries to swap in its new value. */
module LatchingCounter {
  import opened FlagWord
  import BlockLedger

  datatype Op = Incr | Decr

  /** Where a thread stands in its loop. `seen` is how many swaps had succeeded
      when it loaded `was`. */
  datatype Pc = Idle | Looping(op: Op) | Loaded(op: Op, was: Word, seen: nat)

  /** The shared word, the threads, and tallies of the successful swaps. */
  datatype State = State(word: Word, threads: seq<Pc>, incs: nat, decs: nat)

  predicate Latched(w: Word) {
    Count(w) == REFCOUNT_MASK
  }

  /** The values on which the loop returns without swapping. */
  predicate ReturnsEarly(op: Op, was: Word) {
    Latched(was) || (op == Decr && Count(was) == 0)
  }

  function Target(op: Op, was: Word): Word
    requires !ReturnsEarly(op, was)
  {
    if op == Incr then
      IncrementWord(was);
      was + 1
    else
      DecrementWord(was);
      was - 1
  }

  ghost predicate Step(s: State, t: nat, s': State) {
    t < |s.threads| &&
    match s.threads[t]
    case Idle =>
      exists op :: s' == s.(threads := s.threads[t := Looping(op)])
    case Looping(op) =>
      s' == s.(threads := s.threads[t := Loaded(op, s.word, s.incs + s.decs)])
    case Loaded(op, was, _) =>
      if ReturnsEarly(op, was) then
        s' == s.(threads := s.threads[t := Idle])
      else if s.word == was then
        s' == State(Target(op, was), s.threads[t := Idle],
                    s.incs + (if op == Incr then 1 else 0), s.decs + (if op == Decr then 1 else 0))
      else
        s' == s.(threads := s.threads[t := Looping(op)])
  }

  ghost predicate Run(b: seq<State>, schedule: seq<nat>) {
    && |b| == |schedule| + 1
    && (forall t :: 0 <= t < |b[0].threads| ==> !b[0].threads[t].Loaded?)
    && forall i :: 0 <= i < |schedule| ==> Step(b[i], schedule[i], b[i + 1])
  }

  ghost predicate Inv(s0: State, s: State) {
    && High(s.word) == High(s0.word)
    && s0.incs <= s.incs && s0.decs <= s.decs
    && Count(s.word) == Count(s0.word) + (s.incs - s0.incs) - (s.decs - s0.decs)
    && forall t :: 0 <= t < |s.threads| ==> LoadInv(s, s.threads[t])
  }

  /** A loaded value is current as long as no swap has succeeded since. */
  predicate LoadInv(s: State, pc: Pc) {
    pc.Loaded? ==> pc.seen <= s.incs + s.decs && (pc.seen == s.incs + s.decs ==> pc.was == s.word)
  }

  lemma StepKeepsInv(s0: State, s: State, t: nat, s': State)
    requires Inv(s0, s) && Step(s, t, s')
    ensures Inv(s0, s') && (Latched(s.word) ==> s'.word == s.word)
  {
    var pc := s.threads[t];
    assert LoadInv(s, pc);
    if pc.Loaded? && !ReturnsEarly(pc.op, pc.was) {
      if pc.op == Incr { IncrementWord(pc.was); } else { DecrementWord(pc.was); }
    }
    forall u | 0 <= u < |s'.threads| ensures LoadInv(s', s'.threads[u]) {
      if u != t { assert LoadInv(s, s.threads[u]); }
    }
  }

  /** The counter linearizes: at every moment of every run the flag bits are those
      of the start, and the count is the starting count plus the successful
      increments less the successful decrements; none succeeds once it latched. */
  lemma {:induction false} Linearizes(b: seq<State>, schedule: seq<nat>)
    requires Run(b, schedule)
    ensures Inv(b[0], b[|schedule|])
    decreases |schedule|
  {
    if schedule != [] {
      var n := |schedule| - 1;
      assert Run(b[..n + 1], schedule[..n]);
      Linearizes(b[..n + 1], schedule[..n]);
      StepKeepsInv(b[0], b[n], schedule[n], b[n + 1]);
    }
  }

  /** 0xffff is absorbing. */
  lemma {:induction false} LatchIsForever(b: seq<State>, schedule: seq<nat>, i: nat)
    requires Run(b, schedule) && i <= |schedule| && Latched(b[i].word)
    ensures b[|schedule|].word == b[i].word
    decreases |schedule|
  {
    if i < |schedule| {
      var n := |schedule| - 1;
      assert Run(b[..n + 1], schedule[..n]);
      LatchIsForever(b[..n + 1], schedule[..n], i);
      Linearizes(b[..n + 1], schedule[..n]);
      StepKeepsInv(b[0], b[n], schedule[n], b[n + 1]);
    }
  }

  /** A thread's swap fails only if another swap succeeded since its load, so
      some thread always makes progress. */
  lemma {:induction false} FailureMeansProgress(b: seq<State>, schedule: seq<nat>, t: nat)
    requires Run(b, schedule)
    requires var s := b[|schedule|];
             t < |s.threads| && s.threads[t].Loaded? && s.word != s.threads[t].was
    ensures var s := b[|schedule|]; s.threads[t].seen < s.incs + s.decs
  {
    Linearizes(b, schedule);
    assert LoadInv(b[|schedule|], b[|schedule|].threads[t]);
  }

  // ----- a call that has returned did its work -----

  /** A thread is in a call of this kind from the step that takes it out of idleness to
      the one that takes it back. */
  predicate InCall(pc: Pc, op: Op) {
    !pc.Idle? && pc.op == op
  }

  predicate Calls(s: State, t: nat, s': State, op: Op) {
    t < |s.threads| && t < |s'.threads| && s.threads[t].Idle? && InCall(s'.threads[t], op)
  }

  /** The step changes the shared word. */
  predicate Swaps(s: State, t: nat, s': State, op: Op) {
    t < |s.threads| && InCall(s.threads[t], op) && s'.word != s.word
  }

  /** The step loads a value on which the call has nothing to do: the latched word, or
      for a decrement a zero. */
  predicate Excused(s: State, t: nat, s': State, op: Op) {
    t < |s.threads| && t < |s'.threads| &&
    InCall(s.threads[t], op) && !s.threads[t].Loaded? && s'.threads[t].Loaded? &&
    (Count(s.word) == 0xffff || (op == Decr && Count(s.word) == 0))
  }

  datatype Tally = OfCalls | OfSwaps | OfExcuses

  predicate Counts(m: Tally, s: State, t: nat, s': State, op: Op) {
    match m
    case OfCalls => Calls(s, t, s', op)
    case OfSwaps => Swaps(s, t, s', op)
    case OfExcuses => Excused(s, t, s', op)
  }

  /** How many steps of a run are of that sort. */
  function StepsThat(m: Tally, b: seq<State>, schedule: seq<nat>, op: Op): nat
    requires |b| == |schedule| + 1
    decreases |schedule|
  {
    if schedule == [] then 0
    else
      var n := |schedule| - 1;
      StepsThat(m, b[..n + 1], schedule[..n], op) + if Counts(m, b[n], schedule[n], b[n + 1], op) then 1 else 0
  }

  /** Calls that still have to swap, or to load a value that excuses them. */
  predicate Pending(pc: Pc, op: Op) {
    InCall(pc, op) && (pc.Loaded? ==> !ReturnsEarly(op, pc.was))
  }

  function PendingCalls(ts: seq<Pc>, op: Op): nat {
    if ts == [] then 0 else PendingCalls(ts[..|ts| - 1], op) + if Pending(ts[|ts| - 1], op) then 1 else 0
  }

  lemma {:induction false} PendingPut(ts: seq<Pc>, t: nat, pc: Pc, op: Op)
    requires t < |ts|
    ensures PendingCalls(ts[t := pc], op) + (if Pending(ts[t], op) then 1 else 0)
         == PendingCalls(ts, op) + if Pending(pc, op) then 1 else 0
  {
    var n := |ts| - 1;
    if t == n {
      assert ts[t := pc][..n] == ts[..n];
    } else {
      PendingPut(ts[..n], t, pc, op);
      assert ts[t := pc][..n] == ts[..n][t := pc];
    }
  }

  lemma {:induction false} NothingPending(ts: seq<Pc>, op: Op)
    requires forall t :: 0 <= t < |ts| ==> ts[t].Idle?
    ensures PendingCalls(ts, op) == 0
  {
    if ts != [] {
      NothingPending(ts[..|ts| - 1], op);
    }
  }

  lemma StepAccounts(s: State, t: nat, s': State, op: Op)
    requires Step(s, t, s')
    ensures PendingCalls(s'.threads, op) + (if Swaps(s, t, s', op) then 1 else 0) +
              (if Excused(s, t, s', op) then 1 else 0)
         == PendingCalls(s.threads, op) + if Calls(s, t, s', op) then 1 else 0
    ensures Swaps(s, t, s', Incr) <==> s'.incs == s.incs + 1
    ensures Swaps(s, t, s', Decr) <==> s'.decs == s.decs + 1
    ensures s'.incs <= s.incs + 1 && s'.decs <= s.decs + 1 && s.incs <= s'.incs && s.decs <= s'.decs
  {
    assert s'.threads == s.threads[t := s'.threads[t]];
    PendingPut(s.threads, t, s'.threads[t], op);
    var pc := s.threads[t];
    if pc.Loaded? && !ReturnsEarly(pc.op, pc.was) {
      if pc.op == Incr { IncrementWord(pc.was); } else { DecrementWord(pc.was); }
    }
  }

  /** In any run, every call has made exactly one successful swap, has loaded a value
      that excuses it, or is still in its loop. */
  lemma {:induction false} CallsAccounted(b: seq<State>, schedule: seq<nat>, op: Op)
    requires Run(b, schedule) && PendingCalls(b[0].threads, op) == 0
    ensures StepsThat(OfCalls, b, schedule, op)
         == StepsThat(OfSwaps, b, schedule, op) + StepsThat(OfExcuses, b, schedule, op) +
            PendingCalls(b[|schedule|].threads, op)
    ensures var s0, s := b[0], b[|schedule|];
            s0.incs <= s.incs && s0.decs <= s.decs &&
            StepsThat(OfSwaps, b, schedule, op) == if op == Incr then s.incs - s0.incs else s.decs - s0.decs
    decreases |schedule|
  {
    if schedule != [] {
      var n := |schedule| - 1;
      assert Run(b[..n + 1], schedule[..n]);
      CallsAccounted(b[..n + 1], schedule[..n], op);
      hide Step, PendingCalls, Counts;
      assert Step(b[n], schedule[n], b[n + 1]);
      CountedStep(b[n], schedule[n], b[n + 1], op);
    }
  }

  lemma CountedStep(s: State, t: nat, s': State, op: Op)
    requires Step(s, t, s')
    ensures PendingCalls(s'.threads, op) + (if Counts(OfSwaps, s, t, s', op) then 1 else 0) +
              (if Counts(OfExcuses, s, t, s', op) then 1 else 0)
         == PendingCalls(s.threads, op) + if Counts(OfCalls, s, t, s', op) then 1 else 0
    ensures s.incs <= s'.incs && s.decs <= s'.decs
    ensures (if Counts(OfSwaps, s, t, s', op) then 1 else 0)
         == if op == Incr then s'.incs - s.incs else s'.decs - s.decs
  {
    hide Step;
    StepAccounts(s, t, s', op);
  }

  /** When every thread is out again, the count is that of the start plus the calls of
      the increment less those of the decrement, not counting the calls that met the
      latch or a zero. */
  lemma {:induction false} EveryCallCounts(b: seq<State>, schedule: seq<nat>)
    requires Run(b, schedule)
    requires forall t :: 0 <= t < |b[0].threads| ==> b[0].threads[t].Idle?
    requires forall t :: 0 <= t < |b[|schedule|].threads| ==> b[|schedule|].threads[t].Idle?
    ensures Count(b[|schedule|].word)
         == Count(b[0].word)
            + (StepsThat(OfCalls, b, schedule, Incr) - StepsThat(OfExcuses, b, schedule, Incr))
            - (StepsThat(OfCalls, b, schedule, Decr) - StepsThat(OfExcuses, b, schedule, Decr))
  {
    forall op {:trigger PendingCalls(b[0].threads, op)}
      ensures PendingCalls(b[0].threads, op) == 0 && PendingCalls(b[|schedule|].threads, op) == 0
    {
      NothingPending(b[0].threads, op);
      NothingPending(b[|schedule|].threads, op);
    }
    CallsAccounted(b, schedule, Incr);
    CallsAccounted(b, schedule, Decr);
    Linearizes(b, schedule);
  }

  // ----- the same two functions run by one thread -----

  /** The flags word of one block, with nobody else at it: the loop succeeds on
      its first try. */
  class FlagsCell {
    var flags: Word

    constructor (flags: Word)
      ensures this.flags == flags
    {
      this.flags := flags;
    }

    method CompareAndSwap(was: Word, new_value: Word) returns (swapped: bool)
      modifies this
      ensures swapped == (old(flags) == was)
      ensures flags == if swapped then new_value else old(flags)
    {
      swapped := flags == was;
      if swapped {
        flags := new_value;
      }
    }

    method LatchingIncr() returns (r: Word)
      modifies this
      ensures Decode(flags) == BlockLedger.Incremented(Decode(old(flags))) && High(flags) == High(old(flags))
      ensures r == if Latched(old(flags)) then REFCOUNT_MASK else flags
      ensures Latched(old(flags)) ==> flags == old(flags)
    {
      var swapped := false;
      r := 0;
      while !swapped
        invariant swapped ==>
                    !Latched(old(flags)) && r == flags && Decode(r) == BlockLedger.Incremented(Decode(old(flags))) &&
                    High(r) == High(old(flags))
        invariant !swapped ==> flags == old(flags)
        decreases !swapped
      {
        var was := flags;
        if Count(was) == REFCOUNT_MASK {
          return REFCOUNT_MASK;
        }
        IncrementWord(was);
        swapped := CompareAndSwap(was, was + 1);
        r := was + 1;
      }
    }

    method LatchingDecr() returns (r: Word)
      modifies this
      ensures Decode(flags) == BlockLedger.Decremented(Decode(old(flags))) && High(flags) == High(old(flags))
      ensures r == if Latched(old(flags)) then REFCOUNT_MASK else if Count(old(flags)) == 0 then 0 else flags
      ensures Latched(old(flags)) || Count(old(flags)) == 0 ==> flags == old(flags)
    {
      var swapped := false;
      r := 0;
      while !swapped
        invariant swapped ==>
                    !Latched(old(flags)) && Count(old(flags)) != 0 && r == flags &&
                    Decode(r) == BlockLedger.Decremented(Decode(old(flags))) && High(r) == High(old(flags))
        invariant !swapped ==> flags == old(flags)
        decreases !swapped
      {
        var was := flags;
        if Count(was) == REFCOUNT_MASK {
          return REFCOUNT_MASK;
        }
        if Count(was) == 0 {
          return 0;
        }
        DecrementWord(was);
        swapped := CompareAndSwap(was, was - 1);
        r := was - 1;
      }
    }
  }
}

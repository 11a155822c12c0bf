/** Any number of heap blocks shared by any number of threads that retain them,
    release them, hand references to each other and build new blocks out of them.
    Every load and every swap of the two latching loops is a step of its own, and so
    is every release that a dispose helper makes; whoever takes a count to zero
    disposes of the block and frees it. */
module SharedRelease {
  import opened BlockHeap
  import opened FlagWord
  import opened LatchingCounter

  /** A block, with what it captured; `zeros` counts the decrements that reported
      zero, `freed` the calls of the deallocator. Addresses are not used again. */
  datatype SharedBlock = SharedBlock(word: Word, fields: seq<Ptr>, zeros: nat, freed: nat)

  /** What a thread is in the middle of. The dispose helper of a block has the
      fields in `rest` still to release. */
  datatype Frame =
    | Retaining(p: Ptr)
    | RetainLoaded(p: Ptr, was: Word)
    | Releasing(p: Ptr)
    | ReleaseLoaded(p: Ptr, was: Word)
    | Disposing(p: Ptr, rest: seq<Ptr>)

  /** The references a thread owns, and its calls into the runtime, the last one running. */
  datatype Thread = Thread(owned: multiset<Ptr>, stack: seq<Frame>)

  datatype World = World(blocks: seq<SharedBlock>, threads: seq<Thread>)

  /** What a thread does next: outside the runtime it can start something, inside it goes on. */
  datatype Act =
    | Retain(p: Ptr)
    | Release(p: Ptr)
    | HandOver(p: Ptr, to: nat)
    | Build(word: Word, fields: seq<Ptr>)
    | GoOn

  function Bag(ps: seq<Ptr>): multiset<Ptr> {
    multiset(ps)
  }

  predicate CanDo(s: World, t: nat, a: Act) {
    t < |s.threads| &&
    var me := s.threads[t];
    match a
    case Retain(p) => me.stack == [] && p in me.owned
    case Release(p) => me.stack == [] && p in me.owned
    case HandOver(p, to) => me.stack == [] && p in me.owned && to < |s.threads| && to != t
    case Build(word, fields) => me.stack == [] && Bag(fields) <= me.owned && Count(word) == 1
    case GoOn => me.stack != [] && me.stack[|me.stack| - 1].p < |s.blocks|
  }

  function Put(s: World, t: nat, x: Thread): World
    requires t < |s.threads|
  {
    s.(threads := s.threads[t := x])
  }

  function PutBlock(s: World, p: Ptr, b: SharedBlock): World
    requires p < |s.blocks|
  {
    s.(blocks := s.blocks[p := b])
  }

  function Do(s: World, t: nat, a: Act): World
    requires CanDo(s, t, a)
  {
    var me := s.threads[t];
    match a
    case Retain(p) => Put(s, t, me.(stack := [Retaining(p)]))
    case Release(p) => Put(s, t, Thread(me.owned - multiset{p}, [Releasing(p)]))
    case HandOver(p, to) =>
      Put(Put(s, t, me.(owned := me.owned - multiset{p})), to,
          s.threads[to].(owned := s.threads[to].owned + multiset{p}))
    case Build(word, fields) =>
      Put(s.(blocks := s.blocks + [SharedBlock(word, fields, 0, 0)]), t,
          me.(owned := me.owned - Bag(fields) + multiset{|s.blocks|}))
    case GoOn => Continued(s, t, me.stack[..|me.stack| - 1], me.stack[|me.stack| - 1])
  }

  /** A dispose helper releases its next field. */
  function NextCalls(f: Frame): seq<Frame>
    requires f.Disposing? && f.rest != []
  {
    [Disposing(f.p, f.rest[1..]), Releasing(f.rest[0])]
  }

  /** The running call takes one step; `below` are the calls it was made from. */
  function Continued(s: World, t: nat, below: seq<Frame>, f: Frame): World
    requires t < |s.threads| && f.p < |s.blocks|
  {
    var me, b := s.threads[t], s.blocks[f.p];
    match f
    case Retaining(p) => Put(s, t, me.(stack := below + [RetainLoaded(p, b.word)]))
    case RetainLoaded(p, was) =>
      if Latched(was) then Put(s, t, Thread(me.owned + multiset{p}, below))
      else if b.word == was then
        PutBlock(Put(s, t, Thread(me.owned + multiset{p}, below)), p, b.(word := Target(Incr, was)))
      else Put(s, t, me.(stack := below + [Retaining(p)]))
    case Releasing(p) => Put(s, t, me.(stack := below + [ReleaseLoaded(p, b.word)]))
    case ReleaseLoaded(p, was) =>
      if Latched(was) then Put(s, t, me.(stack := below))
      else if Count(was) == 0 then
        PutBlock(Put(s, t, me.(stack := below + [Disposing(p, b.fields)])), p, b.(zeros := b.zeros + 1))
      else if b.word != was then Put(s, t, me.(stack := below + [Releasing(p)]))
      else if Count(Target(Decr, was)) == 0 then
        PutBlock(Put(s, t, me.(stack := below + [Disposing(p, b.fields)])), p,
                 b.(word := Target(Decr, was), zeros := b.zeros + 1))
      else PutBlock(Put(s, t, me.(stack := below)), p, b.(word := Target(Decr, was)))
    case Disposing(p, rest) =>
      if rest == [] then PutBlock(Put(s, t, me.(stack := below)), p, b.(freed := b.freed + 1))
      else Put(s, t, me.(stack := below + NextCalls(f)))
  }

  // ----- who holds what -----

  function FrameRefs(f: Frame): multiset<Ptr> {
    match f
    case Releasing(p) => multiset{p}
    case ReleaseLoaded(p, _) => multiset{p}
    case Disposing(_, rest) => Bag(rest)
    case _ => multiset{}
  }

  function FrameDisposes(f: Frame): multiset<Ptr> {
    if f.Disposing? then multiset{f.p} else multiset{}
  }

  datatype Tally = OfReferences | OfDisposals

  function FrameTally(m: Tally, f: Frame): multiset<Ptr> {
    if m == OfReferences then FrameRefs(f) else FrameDisposes(f)
  }

  function StackTally(m: Tally, stack: seq<Frame>): multiset<Ptr> {
    if stack == [] then multiset{}
    else StackTally(m, stack[..|stack| - 1]) + FrameTally(m, stack[|stack| - 1])
  }

  function ThreadTally(m: Tally, x: Thread): multiset<Ptr> {
    if m == OfReferences then x.owned + StackTally(m, x.stack) else StackTally(m, x.stack)
  }

  /** A block holds what it captured until its count has been seen at zero. */
  function BlockRefs(b: SharedBlock): multiset<Ptr> {
    if b.zeros == 0 then Bag(b.fields) else multiset{}
  }

  function Sum(ms: seq<multiset<Ptr>>): multiset<Ptr> {
    if ms == [] then multiset{} else Sum(ms[..|ms| - 1]) + ms[|ms| - 1]
  }

  function Tallies(m: Tally, ts: seq<Thread>): seq<multiset<Ptr>> {
    seq(|ts|, i requires 0 <= i < |ts| => ThreadTally(m, ts[i]))
  }

  function Fields(bs: seq<SharedBlock>): seq<multiset<Ptr>> {
    seq(|bs|, i requires 0 <= i < |bs| => BlockRefs(bs[i]))
  }

  /** All references to blocks, with multiplicity. */
  function Refs(s: World): multiset<Ptr> {
    Sum(Tallies(OfReferences, s.threads)) + Sum(Fields(s.blocks))
  }

  /** The blocks whose dispose helpers are running. */
  function Disposals(s: World): multiset<Ptr> {
    Sum(Tallies(OfDisposals, s.threads))
  }

  lemma {:induction false} SumPut(ms: seq<multiset<Ptr>>, i: nat, m: multiset<Ptr>)
    requires i < |ms|
    ensures ms[i] <= Sum(ms) && Sum(ms[i := m]) == Sum(ms) - ms[i] + m
  {
    var n := |ms| - 1;
    if i == n {
      assert ms[i := m][..n] == ms[..n];
    } else {
      SumPut(ms[..n], i, m);
      assert ms[i := m][..n] == ms[..n][i := m];
    }
  }

  lemma {:induction false} SumMember(ms: seq<multiset<Ptr>>, p: Ptr)
    ensures p in Sum(ms) <==> exists i :: 0 <= i < |ms| && p in ms[i]
  {
    if ms != [] {
      var n := |ms| - 1;
      SumMember(ms[..n], p);
      assert forall i :: 0 <= i < n ==> ms[..n][i] == ms[i];
    }
  }

  lemma StackPush(m: Tally, stack: seq<Frame>, f: Frame)
    ensures StackTally(m, stack + [f]) == StackTally(m, stack) + FrameTally(m, f)
  {
    assert (stack + [f])[..|stack|] == stack;
  }

  lemma ThreadPut(s: World, t: nat, x: Thread)
    requires t < |s.threads|
    ensures ThreadTally(OfReferences, s.threads[t]) <= Refs(s)
    ensures Refs(Put(s, t, x)) == Refs(s) - ThreadTally(OfReferences, s.threads[t]) + ThreadTally(OfReferences, x)
    ensures ThreadTally(OfDisposals, s.threads[t]) <= Disposals(s)
    ensures Disposals(Put(s, t, x))
         == Disposals(s) - ThreadTally(OfDisposals, s.threads[t]) + ThreadTally(OfDisposals, x)
  {
    hide ThreadTally;
    var ms := Tallies(OfReferences, s.threads);
    assert Tallies(OfReferences, s.threads[t := x]) == ms[t := ThreadTally(OfReferences, x)];
    SumPut(ms, t, ThreadTally(OfReferences, x));
    var ds := Tallies(OfDisposals, s.threads);
    assert Tallies(OfDisposals, s.threads[t := x]) == ds[t := ThreadTally(OfDisposals, x)];
    SumPut(ds, t, ThreadTally(OfDisposals, x));
  }

  lemma BlockPut(s: World, p: Ptr, b: SharedBlock)
    requires p < |s.blocks|
    ensures BlockRefs(s.blocks[p]) <= Refs(s)
    ensures Refs(PutBlock(s, p, b)) == Refs(s) - BlockRefs(s.blocks[p]) + BlockRefs(b)
    ensures Disposals(PutBlock(s, p, b)) == Disposals(s)
  {
    var ms := Fields(s.blocks);
    SumPut(ms, p, BlockRefs(b));
    assert Fields(s.blocks[p := b]) == ms[p := BlockRefs(b)];
  }

  // ----- the invariant -----

  /** Of an unlatched block that has not been seen at zero, the count is the number of
      references; once it has, there are none, and one dispose helper runs until the
      block is freed. */
  predicate BlockInv(b: SharedBlock, refs: nat, disposals: nat) {
    b.freed <= b.zeros <= 1 && disposals == b.zeros - b.freed &&
    if b.zeros == 0 then Count(b.word) >= 1 && (Latched(b.word) || Count(b.word) == refs)
    else Count(b.word) == 0 && refs == 0
  }

  /** What was loaded was no zero, and a latched value is still there. */
  predicate FrameInv(s: World, f: Frame) {
    f.p < |s.blocks| &&
    (f.RetainLoaded? || f.ReleaseLoaded? ==>
       Count(f.was) >= 1 && (Latched(f.was) ==> Latched(s.blocks[f.p].word)))
  }

  predicate IsRetain(f: Frame) {
    f.Retaining? || f.RetainLoaded?
  }

  /** A thread that retains a block owns a reference to it all the while. */
  predicate ThreadInv(s: World, x: Thread) {
    (forall i :: 0 <= i < |x.stack| ==> FrameInv(s, x.stack[i])) &&
    forall i :: 0 <= i < |x.stack| && IsRetain(x.stack[i]) ==> x.stack[i].p in x.owned
  }

  predicate Known(s: World, refs: multiset<Ptr>) {
    forall p :: p in refs ==> p < |s.blocks|
  }

  /** Blocks capture only older ones. */
  predicate Older(bs: seq<SharedBlock>) {
    forall p, i :: 0 <= p < |bs| && 0 <= i < |bs[p].fields| ==> bs[p].fields[i] < p
  }

  predicate WorldInv(s: World) {
    Older(s.blocks) && Known(s, Refs(s)) && Known(s, Disposals(s)) &&
    (forall p :: 0 <= p < |s.blocks| ==> BlockInv(s.blocks[p], Refs(s)[p], Disposals(s)[p])) &&
    forall t :: 0 <= t < |s.threads| ==> ThreadInv(s, s.threads[t])
  }

  // ----- every step keeps it -----

  /** One thread moved, and with it at most one block. */
  lemma OneMoved(s: World, s': World, t: nat, p: Ptr)
    requires WorldInv(s) && t < |s.threads| == |s'.threads| && p < |s.blocks| == |s'.blocks|
    requires s'.threads == s.threads[t := s'.threads[t]] && s'.blocks == s.blocks[p := s'.blocks[p]]
    requires s'.blocks[p].fields == s.blocks[p].fields
    requires Latched(s.blocks[p].word) ==> Latched(s'.blocks[p].word)
    requires forall q :: q != p ==> Refs(s')[q] == Refs(s)[q] && Disposals(s')[q] == Disposals(s)[q]
    requires BlockInv(s'.blocks[p], Refs(s')[p], Disposals(s')[p]) && ThreadInv(s', s'.threads[t])
    ensures WorldInv(s')
  {
    hide Refs, Disposals, BlockInv;
    assert forall q :: 0 <= q < |s.blocks| && q != p ==> s'.blocks[q] == s.blocks[q];
    assert forall q :: q in Refs(s') ==> q == p || q in Refs(s);
    assert forall q :: q in Disposals(s') ==> q == p || q in Disposals(s);
    forall u | 0 <= u < |s'.threads| ensures ThreadInv(s', s'.threads[u]) {
      if u != t { assert ThreadInv(s, s.threads[u]); }
    }
  }

  lemma BagsJoin(a: multiset<Ptr>, b: multiset<Ptr>, c: multiset<Ptr>)
    ensures a + (b + c) == a + b + c
  {
  }

  lemma StackNone(m: Tally)
    ensures StackTally(m, []) == multiset{}
  {
  }

  lemma {:induction false} StackJoin(m: Tally, below: seq<Frame>, g: seq<Frame>)
    ensures StackTally(m, below + g) == StackTally(m, below) + StackTally(m, g)
    decreases |g|
  {
    StackNone(m);
    hide FrameTally, StackTally;
    if g == [] {
      assert below + g == below;
    } else {
      var front, last := g[..|g| - 1], g[|g| - 1];
      StackJoin(m, below, front);
      StackPush(m, below + front, last);
      StackPush(m, front, last);
      assert g == front + [last] && below + g == below + front + [last];
      BagsJoin(StackTally(m, below), StackTally(m, front), FrameTally(m, last));
    }
  }

  lemma Replaced(all: multiset<Ptr>, part: multiset<Ptr>, out: multiset<Ptr>, more: multiset<Ptr>)
    requires out <= part <= all
    ensures all - part + (part - out + more) == all - out + more
  {
  }

  lemma {:induction false} ThreadExchanged(m: Tally, x: Thread, below: seq<Frame>, f: Frame, gained: multiset<Ptr>,
                                           g: seq<Frame>)
    requires x.stack == below + [f]
    ensures FrameTally(m, f) <= ThreadTally(m, x)
    ensures ThreadTally(m, Thread(x.owned + gained, below + g))
         == ThreadTally(m, x) - FrameTally(m, f) +
            (StackTally(m, g) + if m == OfReferences then gained else multiset{})
  {
    hide FrameTally, StackTally;
    StackPush(m, below, f);
    StackJoin(m, below, g);
  }

  /** A thread that exchanges its running call for others. */
  lemma {:induction false} Exchanged(s: World, t: nat, below: seq<Frame>, f: Frame, gained: multiset<Ptr>,
                                     g: seq<Frame>)
    requires t < |s.threads| && s.threads[t].stack == below + [f]
    ensures var s' := Put(s, t, Thread(s.threads[t].owned + gained, below + g));
            (forall q :: Refs(s')[q] + FrameRefs(f)[q]
                      == Refs(s)[q] + StackTally(OfReferences, g)[q] + gained[q]) &&
            (forall q :: Disposals(s')[q] + FrameDisposes(f)[q] == Disposals(s)[q] + StackTally(OfDisposals, g)[q])
    ensures FrameRefs(f) <= Refs(s) && FrameDisposes(f) <= Disposals(s)
  {
    var me, x := s.threads[t], Thread(s.threads[t].owned + gained, below + g);
    ThreadExchanged(OfReferences, me, below, f, gained, g);
    ThreadExchanged(OfDisposals, me, below, f, gained, g);
    ThreadPut(s, t, x);
    hide Refs, Disposals, ThreadTally, StackTally;
    Replaced(Refs(s), ThreadTally(OfReferences, me), FrameRefs(f), StackTally(OfReferences, g) + gained);
    Replaced(Disposals(s), ThreadTally(OfDisposals, me), FrameDisposes(f), StackTally(OfDisposals, g) + multiset{});
  }

  // ----- the cases of a running call -----

  lemma Swapped(was: Word)
    requires !Latched(was) && Count(was) >= 1
    ensures Count(Target(Incr, was)) == Count(was) + 1 && Count(Target(Decr, was)) == Count(was) - 1
  {
    IncrementWord(was);
    DecrementWord(was);
  }

  /** The situation of a thread inside the runtime. */
  predicate Running(s: World, t: nat, below: seq<Frame>, f: Frame) {
    t < |s.threads| && f.p < |s.blocks| && s.threads[t].stack == below + [f]
  }

  lemma RunningFacts(s: World, t: nat, below: seq<Frame>, f: Frame)
    requires WorldInv(s) && Running(s, t, below, f)
    ensures FrameInv(s, f) && (IsRetain(f) ==> f.p in s.threads[t].owned)
    ensures forall i :: 0 <= i < |below| ==>
              FrameInv(s, below[i]) && (IsRetain(below[i]) ==> below[i].p in s.threads[t].owned)
    ensures BlockInv(s.blocks[f.p], Refs(s)[f.p], Disposals(s)[f.p])
  {
    hide Refs, Disposals, BlockInv;
    assert ThreadInv(s, s.threads[t]);
    assert s.threads[t].stack[|below|] == f;
    forall i | 0 <= i < |below|
      ensures FrameInv(s, below[i]) && (IsRetain(below[i]) ==> below[i].p in s.threads[t].owned)
    {
      assert s.threads[t].stack[i] == below[i];
    }
  }

  /** The thread's calls are in order again after the step. */
  lemma {:induction false} StackOk(s: World, s': World, owned: multiset<Ptr>, owned': multiset<Ptr>, below: seq<Frame>,
                                   g: seq<Frame>)
    requires |s'.blocks| == |s.blocks| && owned <= owned'
    requires forall p :: 0 <= p < |s.blocks| && Latched(s.blocks[p].word) ==> Latched(s'.blocks[p].word)
    requires forall i :: 0 <= i < |below| ==> FrameInv(s, below[i]) && (IsRetain(below[i]) ==> below[i].p in owned)
    requires forall i :: 0 <= i < |g| ==> FrameInv(s', g[i]) && (IsRetain(g[i]) ==> g[i].p in owned')
    ensures ThreadInv(s', Thread(owned', below + g))
  {
    var stack := below + g;
    forall i | 0 <= i < |stack| ensures FrameInv(s', stack[i]) && (IsRetain(stack[i]) ==> stack[i].p in owned') {
      if i < |below| { assert stack[i] == below[i]; } else { assert stack[i] == g[i - |below|]; }
    }
  }

  /** A step that changes no block: something is loaded, a swap fails, a latched count
      stays, or a dispose helper turns to the next field. */
  lemma {:induction false} NothingSwapped(s: World, t: nat, below: seq<Frame>, f: Frame, gained: multiset<Ptr>,
                                          g: seq<Frame>)
    requires WorldInv(s) && Running(s, t, below, f)
    requires forall i :: 0 <= i < |g| ==>
               FrameInv(s, g[i]) && (IsRetain(g[i]) ==> g[i].p in s.threads[t].owned + gained)
    requires StackTally(OfDisposals, g) == FrameDisposes(f)
    requires forall q :: StackTally(OfReferences, g)[q] + gained[q] == FrameRefs(f)[q] ||
                         (q == f.p && Latched(s.blocks[q].word))
    ensures WorldInv(Put(s, t, Thread(s.threads[t].owned + gained, below + g)))
  {
    hide WorldInv, Refs, Disposals, StackTally, FrameRefs, FrameDisposes, ThreadInv, BlockInv, Latched, IsRetain;
    var s' := Put(s, t, Thread(s.threads[t].owned + gained, below + g));
    RunningFacts(s, t, below, f);
    Exchanged(s, t, below, f, gained, g);
    StackOk(s, s', s.threads[t].owned, s.threads[t].owned + gained, below, g);
    hide FrameInv;
    if Latched(s.blocks[f.p].word) {
      LatchedCount(s.blocks[f.p], Refs(s)[f.p], Refs(s')[f.p], Disposals(s)[f.p]);
    }
    OneMoved(s, s', t, f.p);
  }

  lemma LatchedCount(b: SharedBlock, refs: nat, refs': nat, disposals: nat)
    requires BlockInv(b, refs, disposals) && Latched(b.word)
    ensures BlockInv(b, refs', disposals)
  {
  }

  lemma StackOne(m: Tally, f: Frame)
    ensures StackTally(m, [f]) == FrameTally(m, f)
  {
    StackNone(m);
    StackPush(m, [], f);
    assert [] + [f] == [f];
  }

  /** A block with a reference to it has not been seen at zero. */
  lemma HeldIsAlive(s: World, t: nat, below: seq<Frame>, f: Frame)
    requires WorldInv(s) && Running(s, t, below, f) && !f.Disposing?
    ensures s.blocks[f.p].zeros == 0 && Count(s.blocks[f.p].word) >= 1
    ensures !IsRetain(f) ==> Refs(s)[f.p] >= 1
  {
    RunningFacts(s, t, below, f);
    Exchanged(s, t, below, f, multiset{}, [f]);
    ThreadPut(s, t, s.threads[t]);
    hide WorldInv, Refs, Disposals, StackTally, ThreadInv;
    if IsRetain(f) {
      assert f.p in ThreadTally(OfReferences, s.threads[t]);
    } else {
      assert f.p in FrameRefs(f);
    }
  }

  /** A step that changes the block of the running call. */
  lemma {:induction false} BlockChanged(s: World, t: nat, below: seq<Frame>, f: Frame, gained: multiset<Ptr>,
                                        g: seq<Frame>, b: SharedBlock)
    requires WorldInv(s) && Running(s, t, below, f) && b.fields == s.blocks[f.p].fields
    requires Latched(s.blocks[f.p].word) ==> Latched(b.word)
    requires forall i :: 0 <= i < |g| ==> g[i].p < |s.blocks| && !g[i].ReleaseLoaded? && !IsRetain(g[i])
    requires forall q :: q != f.p ==>
               FrameRefs(f)[q] + BlockRefs(s.blocks[f.p])[q]
                 == StackTally(OfReferences, g)[q] + gained[q] + BlockRefs(b)[q] &&
               FrameDisposes(f)[q] == StackTally(OfDisposals, g)[q]
    requires forall refs: nat, disposals: nat ::
               refs + FrameRefs(f)[f.p] + BlockRefs(s.blocks[f.p])[f.p]
                 == Refs(s)[f.p] + StackTally(OfReferences, g)[f.p] + gained[f.p] + BlockRefs(b)[f.p] &&
               disposals + FrameDisposes(f)[f.p] == Disposals(s)[f.p] + StackTally(OfDisposals, g)[f.p] ==>
                 BlockInv(b, refs, disposals)
    ensures WorldInv(PutBlock(Put(s, t, Thread(s.threads[t].owned + gained, below + g)), f.p, b))
  {
    hide WorldInv, Refs, Disposals, StackTally, FrameRefs, FrameDisposes, ThreadInv, BlockInv, Latched, BlockRefs;
    var moved := Put(s, t, Thread(s.threads[t].owned + gained, below + g));
    var s' := PutBlock(moved, f.p, b);
    RunningFacts(s, t, below, f);
    Exchanged(s, t, below, f, gained, g);
    BlockPut(moved, f.p, b);
    forall q ensures Refs(s')[q] + BlockRefs(s.blocks[f.p])[q] == Refs(moved)[q] + BlockRefs(b)[q] {
    }
    forall i | 0 <= i < |g| ensures FrameInv(s', g[i]) && (IsRetain(g[i]) ==> g[i].p in s.threads[t].owned + gained) {
    }
    StackOk(s, s', s.threads[t].owned, s.threads[t].owned + gained, below, g);
    hide FrameInv, IsRetain;
    OneMoved(s, s', t, f.p);
  }

  lemma SameStack(x: Thread, stack: seq<Frame>)
    ensures Thread(x.owned + multiset{}, stack) == x.(stack := stack)
    ensures stack + [] == stack
  {
    assert x.owned + multiset{} == x.owned;
  }

  /** One call turns into another that holds the same: something was loaded, or a
      swap failed. */
  lemma {:induction false} Turned(s: World, t: nat, below: seq<Frame>, f: Frame, g: Frame)
    requires WorldInv(s) && Running(s, t, below, f) && FrameInv(s, g)
    requires FrameRefs(g) == FrameRefs(f) && FrameDisposes(g) == FrameDisposes(f)
    requires IsRetain(g) ==> IsRetain(f) && g.p == f.p
    ensures WorldInv(Put(s, t, s.threads[t].(stack := below + [g])))
  {
    hide WorldInv, Refs, Disposals, StackTally, FrameRefs, FrameDisposes, FrameInv, BlockInv;
    RunningFacts(s, t, below, f);
    StackOne(OfReferences, g);
    StackOne(OfDisposals, g);
    SameStack(s.threads[t], below + [g]);
    NothingSwapped(s, t, below, f, multiset{}, [g]);
  }

  lemma {:induction false} LatchedStays(s: World, t: nat, below: seq<Frame>, f: Frame, gained: multiset<Ptr>)
    requires WorldInv(s) && Running(s, t, below, f) && Latched(s.blocks[f.p].word) && !f.Disposing?
    requires gained == multiset{f.p} || gained == multiset{}
    ensures WorldInv(Put(s, t, Thread(s.threads[t].owned + gained, below)))
  {
    hide WorldInv, Refs, Disposals, StackTally, FrameInv, BlockInv, Latched;
    StackNone(OfReferences);
    StackNone(OfDisposals);
    SameStack(s.threads[t], below);
    NothingSwapped(s, t, below, f, gained, []);
  }

  lemma {:induction false} RetainSwaps(s: World, t: nat, below: seq<Frame>, f: Frame)
    requires WorldInv(s) && Running(s, t, below, f) && f.RetainLoaded? && s.blocks[f.p].word == f.was && !Latched(f.was)
    ensures WorldInv(PutBlock(Put(s, t, Thread(s.threads[t].owned + multiset{f.p}, below)), f.p,
                              s.blocks[f.p].(word := Target(Incr, f.was))))
  {
    hide WorldInv, Refs, Disposals, StackTally, FrameInv;
    RunningFacts(s, t, below, f);
    HeldIsAlive(s, t, below, f);
    StackNone(OfReferences);
    StackNone(OfDisposals);
    SameStack(s.threads[t], below);
    Swapped(f.was);
    hide Latched, Target;
    BlockChanged(s, t, below, f, multiset{f.p}, [], s.blocks[f.p].(word := Target(Incr, f.was)));
  }

  lemma {:induction false} ReleaseSwaps(s: World, t: nat, below: seq<Frame>, f: Frame)
    requires WorldInv(s) && Running(s, t, below, f) && f.ReleaseLoaded? && s.blocks[f.p].word == f.was
    requires !Latched(f.was) && Count(f.was) > 1
    ensures WorldInv(PutBlock(Put(s, t, s.threads[t].(stack := below)), f.p,
                              s.blocks[f.p].(word := Target(Decr, f.was))))
  {
    hide WorldInv, Refs, Disposals, StackTally, FrameInv;
    RunningFacts(s, t, below, f);
    HeldIsAlive(s, t, below, f);
    StackNone(OfReferences);
    StackNone(OfDisposals);
    SameStack(s.threads[t], below);
    Swapped(f.was);
    hide Latched, Target;
    BlockChanged(s, t, below, f, multiset{}, [], s.blocks[f.p].(word := Target(Decr, f.was)));
  }

  /** The last reference goes: what the block holds passes to its dispose helper. */
  lemma {:induction false} LastReleased(s: World, t: nat, below: seq<Frame>, f: Frame)
    requires WorldInv(s) && Running(s, t, below, f) && f.ReleaseLoaded? && s.blocks[f.p].word == f.was
    requires !Latched(f.was) && Count(f.was) == 1
    ensures var b := s.blocks[f.p];
            WorldInv(PutBlock(Put(s, t, s.threads[t].(stack := below + [Frame.Disposing(f.p, b.fields)])), f.p,
                              b.(word := Target(Decr, f.was), zeros := b.zeros + 1)))
  {
    hide WorldInv, Refs, Disposals, StackTally, FrameInv;
    var b := s.blocks[f.p];
    var g := Frame.Disposing(f.p, b.fields);
    RunningFacts(s, t, below, f);
    HeldIsAlive(s, t, below, f);
    StackOne(OfReferences, g);
    StackOne(OfDisposals, g);
    SameStack(s.threads[t], below + [g]);
    Swapped(f.was);
    NoSelfCapture(s, f.p);
    hide Latched, Target;
    BlockChanged(s, t, below, f, multiset{}, [g], b.(word := Target(Decr, f.was), zeros := b.zeros + 1));
  }

  lemma NoSelfCapture(s: World, p: Ptr)
    requires WorldInv(s) && p < |s.blocks|
    ensures p !in Bag(s.blocks[p].fields)
  {
    hide Refs, Disposals, BlockInv, ThreadInv;
  }

  /** The reference to the next field passes from the dispose helper to a release. */
  lemma NextField(s: World, t: nat, below: seq<Frame>, f: Frame)
    requires Known(s, Refs(s)) && Running(s, t, below, f) && f.Disposing? && f.rest != []
    ensures var g := NextCalls(f);
            StackTally(OfReferences, g) == FrameRefs(f) && StackTally(OfDisposals, g) == FrameDisposes(f) &&
            forall i :: 0 <= i < |g| ==> FrameInv(s, g[i]) && !IsRetain(g[i])
  {
    hide Refs, Disposals, StackTally;
    var d, r := Frame.Disposing(f.p, f.rest[1..]), Releasing(f.rest[0]);
    StackOne(OfReferences, d);
    StackOne(OfDisposals, d);
    StackPush(OfReferences, [d], r);
    StackPush(OfDisposals, [d], r);
    assert [d] + [r] == [d, r];
    assert f.rest == [f.rest[0]] + f.rest[1..];
    Exchanged(s, t, below, f, multiset{}, []);
    assert f.rest[0] in FrameRefs(f);
    assert f.rest[0] in Refs(s);
  }

  lemma {:induction false} FieldReleased(s: World, t: nat, below: seq<Frame>, f: Frame)
    requires WorldInv(s) && Running(s, t, below, f) && f.Disposing? && f.rest != []
    ensures WorldInv(Put(s, t, s.threads[t].(stack := below + NextCalls(f))))
  {
    var g := NextCalls(f);
    assert Known(s, Refs(s));
    hide WorldInv, Refs, Disposals, StackTally, BlockInv, FrameRefs, FrameDisposes, Known;
    NextField(s, t, below, f);
    hide NextCalls, FrameInv, IsRetain;
    SameStack(s.threads[t], below + g);
    NothingSwapped(s, t, below, f, multiset{}, g);
  }

  lemma {:induction false} BlockFreed(s: World, t: nat, below: seq<Frame>, f: Frame)
    requires WorldInv(s) && Running(s, t, below, f) && f.Disposing? && f.rest == []
    ensures var b := s.blocks[f.p];
            b.freed == 0 && b.zeros == 1 &&
            WorldInv(PutBlock(Put(s, t, s.threads[t].(stack := below)), f.p, b.(freed := b.freed + 1)))
  {
    hide WorldInv, Refs, Disposals, StackTally, FrameInv;
    var b := s.blocks[f.p];
    RunningFacts(s, t, below, f);
    StackNone(OfReferences);
    StackNone(OfDisposals);
    SameStack(s.threads[t], below);
    Exchanged(s, t, below, f, multiset{}, []);
    assert f.p in FrameDisposes(f);
    BlockChanged(s, t, below, f, multiset{}, [], b.(freed := b.freed + 1));
  }

  lemma {:induction false} ContinuedKeepsInv(s: World, t: nat, below: seq<Frame>, f: Frame)
    requires WorldInv(s) && Running(s, t, below, f)
    ensures WorldInv(Continued(s, t, below, f))
  {
    hide WorldInv, Refs, Disposals;
    RunningFacts(s, t, below, f);
    if !f.Disposing? { HeldIsAlive(s, t, below, f); }
    var b := s.blocks[f.p];
    match f
    case Retaining(p) => Turned(s, t, below, f, RetainLoaded(p, b.word));
    case RetainLoaded(p, was) =>
      if Latched(was) {
        LatchedStays(s, t, below, f, multiset{p});
      } else if b.word == was {
        RetainSwaps(s, t, below, f);
      } else {
        Turned(s, t, below, f, Retaining(p));
      }
    case Releasing(p) => Turned(s, t, below, f, ReleaseLoaded(p, b.word));
    case ReleaseLoaded(p, was) =>
      if Latched(was) {
        SameStack(s.threads[t], below);
        LatchedStays(s, t, below, f, multiset{});
      } else if b.word != was {
        Turned(s, t, below, f, Releasing(p));
      } else {
        Swapped(was);
        if Count(was) == 1 { LastReleased(s, t, below, f); } else { ReleaseSwaps(s, t, below, f); }
      }
    case Disposing(p, rest) =>
      if rest == [] { BlockFreed(s, t, below, f); } else { FieldReleased(s, t, below, f); }
  }

  // ----- what a thread starts -----

  lemma OwnedIsKnown(s: World, t: nat, p: Ptr)
    requires WorldInv(s) && t < |s.threads| && p in s.threads[t].owned
    ensures p < |s.blocks| && Refs(s)[p] >= 1
  {
    hide BlockInv, ThreadInv, Refs, Disposals;
    ThreadPut(s, t, s.threads[t]);
    hide StackTally;
    assert p in ThreadTally(OfReferences, s.threads[t]);
  }

  lemma SameBlocks(s: World, s': World, x: Thread)
    requires s'.blocks == s.blocks && ThreadInv(s, x)
    ensures ThreadInv(s', x)
  {
  }

  /** References changed hands, and no block changed. */
  lemma {:induction false} NoBlockMoved(s: World, s': World)
    requires WorldInv(s) && s'.blocks == s.blocks && Refs(s') == Refs(s) && Disposals(s') == Disposals(s)
    requires forall u :: 0 <= u < |s'.threads| ==> ThreadInv(s, s'.threads[u])
    ensures WorldInv(s')
  {
    hide Refs, Disposals, BlockInv, ThreadInv;
    forall u | 0 <= u < |s'.threads| ensures ThreadInv(s', s'.threads[u]) {
      SameBlocks(s, s', s'.threads[u]);
    }
  }

  lemma AllInOrder(s: World, u: nat)
    requires WorldInv(s) && u < |s.threads|
    ensures ThreadInv(s, s.threads[u])
  {
  }

  lemma SameBag(a: multiset<Ptr>, b: multiset<Ptr>)
    requires b <= a
    ensures a - b + b == a
  {
  }

  /** A thread that holds what it held before. */
  lemma {:induction false} Rearranged(s: World, t: nat, x: Thread)
    requires WorldInv(s) && t < |s.threads| && ThreadInv(s, x)
    requires ThreadTally(OfReferences, x) == ThreadTally(OfReferences, s.threads[t])
    requires ThreadTally(OfDisposals, x) == ThreadTally(OfDisposals, s.threads[t])
    ensures WorldInv(Put(s, t, x))
  {
    hide WorldInv, Refs, Disposals, ThreadInv, ThreadTally;
    var s' := Put(s, t, x);
    ThreadPut(s, t, x);
    SameBag(Refs(s), ThreadTally(OfReferences, x));
    SameBag(Disposals(s), ThreadTally(OfDisposals, x));
    forall u | 0 <= u < |s'.threads| ensures ThreadInv(s, s'.threads[u]) {
      AllInOrder(s, u);
    }
    NoBlockMoved(s, s');
  }

  lemma {:induction false} StartKeepsInv(s: World, t: nat, a: Act)
    requires WorldInv(s) && CanDo(s, t, a) && (a.Retain? || a.Release?)
    ensures WorldInv(Do(s, t, a))
  {
    hide WorldInv, Refs, Disposals, StackTally;
    var me := s.threads[t];
    OwnedIsKnown(s, t, a.p);
    StackNone(OfReferences);
    StackNone(OfDisposals);
    var f := if a.Retain? then Retaining(a.p) else Releasing(a.p);
    StackOne(OfReferences, f);
    StackOne(OfDisposals, f);
    assert a.Release? ==> me.owned - multiset{a.p} + multiset{a.p} == me.owned;
    Rearranged(s, t, Thread(if a.Retain? then me.owned else me.owned - multiset{a.p}, [f]));
  }

  lemma {:induction false} HandOverKeepsInv(s: World, t: nat, a: Act)
    requires WorldInv(s) && CanDo(s, t, a) && a.HandOver?
    ensures WorldInv(Do(s, t, a))
  {
    hide WorldInv, Refs, Disposals, StackTally, ThreadInv;
    var me, you, s' := s.threads[t], s.threads[a.to], Do(s, t, a);
    HandedTallies(s, t, a);
    forall u | 0 <= u < |s'.threads| ensures ThreadInv(s, s'.threads[u]) {
      AllInOrder(s, u);
      StillOwned(s, s.threads[u], s'.threads[u]);
    }
    NoBlockMoved(s, s');
  }

  /** A thread that is outside the runtime, or owns no less. */
  lemma StillOwned(s: World, x: Thread, y: Thread)
    requires ThreadInv(s, x) && y.stack == x.stack && (x.stack == [] || x.owned <= y.owned)
    ensures ThreadInv(s, y)
  {
  }

  lemma HandedTallies(s: World, t: nat, a: Act)
    requires CanDo(s, t, a) && a.HandOver?
    ensures Refs(Do(s, t, a)) == Refs(s) && Disposals(Do(s, t, a)) == Disposals(s)
  {
    hide Refs, Disposals, StackTally;
    var me, you := s.threads[t], s.threads[a.to];
    var x, y := me.(owned := me.owned - multiset{a.p}), you.(owned := you.owned + multiset{a.p});
    var between := Put(s, t, x);
    ThreadPut(s, t, x);
    ThreadPut(between, a.to, y);
    StackNone(OfReferences);
    assert between.threads[a.to] == you;
    hide ThreadTally;
    OneLess(Refs(s), ThreadTally(OfReferences, me), a.p, ThreadTally(OfReferences, x));
    OneMore(Refs(between), ThreadTally(OfReferences, you), a.p, ThreadTally(OfReferences, y));
    SameBag(Refs(s), multiset{a.p});
    SameBag(Disposals(s), ThreadTally(OfDisposals, me));
    SameBag(Disposals(between), ThreadTally(OfDisposals, you));
  }

  lemma OneLess(refs: multiset<Ptr>, mine: multiset<Ptr>, p: Ptr, less: multiset<Ptr>)
    requires mine <= refs && p in mine && mine == less + multiset{p}
    ensures refs - mine + less == refs - multiset{p} && multiset{p} <= refs
  {
  }

  lemma OneMore(refs: multiset<Ptr>, yours: multiset<Ptr>, p: Ptr, more: multiset<Ptr>)
    requires yours <= refs && more == yours + multiset{p}
    ensures refs - yours + more == refs + multiset{p}
  {
  }

  lemma {:induction false} BuildKeepsInv(s: World, t: nat, a: Act)
    requires WorldInv(s) && CanDo(s, t, a) && a.Build?
    ensures WorldInv(Do(s, t, a))
  {
    var n, s' := |s.blocks|, Do(s, t, a);
    forall i | 0 <= i < |a.fields| ensures a.fields[i] < n {
      assert a.fields[i] in Bag(a.fields);
      OwnedIsKnown(s, t, a.fields[i]);
    }
    BuiltTallies(s, t, a);
    assert Known(s, Refs(s)) && Known(s, Disposals(s));
    hide Refs, Disposals, ThreadInv;
    assert Refs(s)[n] == 0 && Disposals(s)[n] == 0;
    assert BlockInv(s'.blocks[n], Refs(s')[n], Disposals(s')[n]);
    hide BlockInv;
    BuiltInv(s, t, a);
  }

  lemma {:induction false} BuiltInv(s: World, t: nat, a: Act)
    requires WorldInv(s) && CanDo(s, t, a) && a.Build? && forall i :: 0 <= i < |a.fields| ==> a.fields[i] < |s.blocks|
    requires forall p :: Refs(Do(s, t, a))[p] == Refs(s)[p] + if p == |s.blocks| then 1 else 0
    requires Disposals(Do(s, t, a)) == Disposals(s)
    requires var s' := Do(s, t, a); BlockInv(s'.blocks[|s.blocks|], Refs(s')[|s.blocks|], Disposals(s')[|s.blocks|])
    ensures WorldInv(Do(s, t, a))
  {
    hide Refs, Disposals, BlockInv, FrameInv;
    var n, s' := |s.blocks|, Do(s, t, a);
    assert forall p :: 0 <= p < n ==> s'.blocks[p] == s.blocks[p];
    assert forall p :: p in Refs(s') ==> p == n || p in Refs(s);
    forall u | 0 <= u < |s'.threads| ensures ThreadInv(s', s'.threads[u]) {
      assert ThreadInv(s, s.threads[u]);
      StillThere(s, s', s.threads[u], s'.threads[u]);
    }
  }

  lemma StillThere(s: World, s': World, x: Thread, y: Thread)
    requires |s.blocks| <= |s'.blocks| && forall p :: 0 <= p < |s.blocks| ==> s'.blocks[p] == s.blocks[p]
    requires ThreadInv(s, x) && (y == x || y.stack == [])
    ensures ThreadInv(s', y)
  {
  }

  /** A new block takes over the references to what it captures. */
  lemma BuiltTallies(s: World, t: nat, a: Act)
    requires CanDo(s, t, a) && a.Build?
    ensures forall p :: Refs(Do(s, t, a))[p] == Refs(s)[p] + if p == |s.blocks| then 1 else 0
    ensures Disposals(Do(s, t, a)) == Disposals(s)
  {
    var me, n := s.threads[t], |s.blocks|;
    var x := me.(owned := me.owned - Bag(a.fields) + multiset{n});
    var built := s.(blocks := s.blocks + [SharedBlock(a.word, a.fields, 0, 0)]);
    BlockAdded(s, SharedBlock(a.word, a.fields, 0, 0));
    hide Refs, Disposals, StackTally, Bag;
    ThreadPut(built, t, x);
    StackNone(OfReferences);
    hide ThreadTally;
    SameBag(Disposals(s), ThreadTally(OfDisposals, me));
  }

  lemma BlockAdded(s: World, b: SharedBlock)
    ensures Refs(s.(blocks := s.blocks + [b])) == Refs(s) + BlockRefs(b)
    ensures Disposals(s.(blocks := s.blocks + [b])) == Disposals(s)
  {
    hide BlockRefs;
    assert Fields(s.blocks + [b])[..|s.blocks|] == Fields(s.blocks);
  }

  /** Every step of every thread keeps the invariant. */
  lemma {:induction false} NextKeepsInv(s: World, t: nat, a: Act)
    requires WorldInv(s) && CanDo(s, t, a)
    ensures WorldInv(Do(s, t, a))
  {
    hide WorldInv;
    match a
    case Retain(_) => StartKeepsInv(s, t, a);
    case Release(_) => StartKeepsInv(s, t, a);
    case HandOver(_, _) => HandOverKeepsInv(s, t, a);
    case Build(_, _) => BuildKeepsInv(s, t, a);
    case GoOn =>
      var stack := s.threads[t].stack;
      assert stack == stack[..|stack| - 1] + [stack[|stack| - 1]];
      ContinuedKeepsInv(s, t, stack[..|stack| - 1], stack[|stack| - 1]);
  }

  /** A thread inside the runtime can always go on. */
  lemma NeverStuck(s: World, t: nat)
    requires WorldInv(s) && t < |s.threads| && s.threads[t].stack != []
    ensures CanDo(s, t, GoOn)
  {
    hide Refs, Disposals, BlockInv;
    assert ThreadInv(s, s.threads[t]);
  }

  // ----- runs -----

  /** Before anything was built. */
  predicate Start(s: World) {
    s.blocks == [] && forall t :: 0 <= t < |s.threads| ==> s.threads[t] == Thread(multiset{}, [])
  }

  predicate SharedRun(b: seq<World>, schedule: seq<(nat, Act)>) {
    |b| == |schedule| + 1 && Start(b[0]) &&
    forall i :: 0 <= i < |schedule| ==>
      CanDo(b[i], schedule[i].0, schedule[i].1) && b[i + 1] == Do(b[i], schedule[i].0, schedule[i].1)
  }

  lemma {:induction false} NothingHeld(m: Tally, ts: seq<Thread>)
    requires forall t :: 0 <= t < |ts| ==> ts[t] == Thread(multiset{}, [])
    ensures Sum(Tallies(m, ts)) == multiset{}
  {
    StackNone(m);
    if ts != [] {
      NothingHeld(m, ts[..|ts| - 1]);
      assert Tallies(m, ts)[..|ts| - 1] == Tallies(m, ts[..|ts| - 1]);
    }
  }

  lemma StartHasInv(s: World)
    requires Start(s)
    ensures WorldInv(s)
  {
    NothingHeld(OfReferences, s.threads);
    NothingHeld(OfDisposals, s.threads);
    assert Fields(s.blocks) == [];
    assert Refs(s) == multiset{} && Disposals(s) == multiset{};
  }

  lemma {:induction false} RunKeepsInv(b: seq<World>, schedule: seq<(nat, Act)>)
    requires SharedRun(b, schedule)
    ensures WorldInv(b[|schedule|])
    decreases |schedule|
  {
    hide WorldInv, Do, CanDo;
    if schedule == [] {
      StartHasInv(b[0]);
    } else {
      var n := |schedule| - 1;
      assert SharedRun(b[..n + 1], schedule[..n]);
      RunKeepsInv(b[..n + 1], schedule[..n]);
      NextKeepsInv(b[n], schedule[n].0, schedule[n].1);
    }
  }

  lemma {:induction false} StackMember(m: Tally, stack: seq<Frame>, f: Frame)
    requires f in stack
    ensures FrameTally(m, f) <= StackTally(m, stack)
  {
    hide FrameTally;
    var front, last := stack[..|stack| - 1], stack[|stack| - 1];
    assert stack == front + [last];
    if f != last { StackMember(m, front, f); }
  }

  /** What a thread owns, is about to touch, or still has to release. */
  predicate Touches(x: Thread, p: Ptr) {
    p in x.owned || exists f :: f in x.stack && (f.p == p || p in FrameRefs(f))
  }

  /** In any run, whatever a thread owns or is busy with has not been freed. */
  lemma {:induction false} NoTouchAfterFree(b: seq<World>, schedule: seq<(nat, Act)>, t: nat, p: Ptr)
    requires SharedRun(b, schedule) && t < |b[|schedule|].threads| && Touches(b[|schedule|].threads[t], p)
    ensures p < |b[|schedule|].blocks| && b[|schedule|].blocks[p].freed == 0
  {
    RunKeepsInv(b, schedule);
    TouchedIsThere(b[|schedule|], t, p);
  }

  lemma HeldIsThere(s: World, p: Ptr)
    requires WorldInv(s) && (p in Refs(s) || p in Disposals(s))
    ensures p < |s.blocks| && s.blocks[p].freed == 0
  {
    hide Refs, Disposals, ThreadInv;
    assert BlockInv(s.blocks[p], Refs(s)[p], Disposals(s)[p]);
  }

  lemma {:induction false} TouchedIsHeld(s: World, t: nat, p: Ptr)
    requires t < |s.threads| && ThreadInv(s, s.threads[t]) && Touches(s.threads[t], p)
    ensures p in Refs(s) || p in Disposals(s)
  {
    hide Refs, Disposals, StackTally, FrameInv;
    var x := s.threads[t];
    ThreadPut(s, t, x);
    assert forall q :: q in x.owned ==> q in ThreadTally(OfReferences, x);
    if p !in x.owned {
      var f :| f in x.stack && (f.p == p || p in FrameRefs(f));
      StackMember(OfReferences, x.stack, f);
      StackMember(OfDisposals, x.stack, f);
      assert p in FrameRefs(f) ==> p in ThreadTally(OfReferences, x);
      assert p in FrameDisposes(f) ==> p in ThreadTally(OfDisposals, x);
      assert IsRetain(f) ==> f.p in x.owned;
    }
  }

  lemma TouchedIsThere(s: World, t: nat, p: Ptr)
    requires WorldInv(s) && t < |s.threads| && Touches(s.threads[t], p)
    ensures p < |s.blocks| && s.blocks[p].freed == 0
  {
    hide WorldInv, Refs, Disposals, Touches, ThreadInv;
    AllInOrder(s, t);
    TouchedIsHeld(s, t, p);
    HeldIsThere(s, p);
  }

  /** At no moment has a block been seen at zero, or freed, more than once, and no two
      dispose helpers run for it. */
  lemma {:induction false} AtMostOnce(b: seq<World>, schedule: seq<(nat, Act)>, p: Ptr)
    requires SharedRun(b, schedule) && p < |b[|schedule|].blocks|
    ensures var s := b[|schedule|]; s.blocks[p].freed <= s.blocks[p].zeros <= 1 && Disposals(s)[p] <= 1
  {
    RunKeepsInv(b, schedule);
    hide Refs, Disposals;
    var s := b[|schedule|];
    assert BlockInv(s.blocks[p], Refs(s)[p], Disposals(s)[p]);
  }

  // ----- a call that has returned did its work -----

  /** The references other threads hand over to a thread in a stretch of a run. */
  function Handed(a: Act, t: nat): multiset<Ptr> {
    if a.HandOver? && a.to == t then multiset{a.p} else multiset{}
  }

  function Received(schedule: seq<(nat, Act)>, t: nat): multiset<Ptr> {
    if schedule == [] then multiset{}
    else Received(schedule[..|schedule| - 1], t) + Handed(schedule[|schedule| - 1].1, t)
  }

  /** The one call of a thread retains the block. */
  predicate Retains(x: Thread, p: Ptr) {
    |x.stack| == 1 && IsRetain(x.stack[0]) && x.stack[0].p == p
  }

  predicate RetainsNothing(x: Thread) {
    forall i :: 0 <= i < |x.stack| ==> !IsRetain(x.stack[i])
  }

  lemma RetainGoesOn(s: World, t: nat, p: Ptr)
    requires CanDo(s, t, GoOn) && Retains(s.threads[t], p)
    ensures var x := Do(s, t, GoOn).threads[t];
            x.owned == s.threads[t].owned + (if x.stack == [] then multiset{p} else multiset{}) &&
            (x.stack != [] ==> Retains(x, p))
  {
    hide Target, Latched;
    assert s.threads[t].stack[..0] == [];
  }

  lemma ReleaseGoesOn(s: World, t: nat)
    requires CanDo(s, t, GoOn) && RetainsNothing(s.threads[t])
    ensures var x := Do(s, t, GoOn).threads[t]; x.owned == s.threads[t].owned && RetainsNothing(x)
  {
    hide Target, Latched;
  }

  lemma OthersMove(s: World, u: nat, a: Act, t: nat)
    requires CanDo(s, u, a) && t < |s.threads| && t != u
    ensures t < |Do(s, u, a).threads|
    ensures Do(s, u, a).threads[t] == s.threads[t].(owned := s.threads[t].owned + Handed(a, t))
  {
    hide Target, Latched, NextCalls;
    assert s.threads[t].owned + multiset{} == s.threads[t].owned;
  }

  /** From the start of a call until the thread is out of the runtime again. */
  predicate DuringCall(b: seq<World>, schedule: seq<(nat, Act)>, i: nat, j: nat, t: nat) {
    SharedRun(b, schedule) && i < j <= |schedule| && schedule[i].0 == t &&
    (forall k :: i <= k <= j ==> t < |b[k].threads|) &&
    forall k :: i < k < j ==> b[k].threads[t].stack != []
  }

  lemma OneMoreReceived(schedule: seq<(nat, Act)>, i: nat, j: nat, t: nat)
    requires i <= j < |schedule|
    ensures Received(schedule[i..j + 1], t) == Received(schedule[i..j], t) + Handed(schedule[j].1, t)
  {
    assert schedule[i..j + 1][..j - i] == schedule[i..j];
  }

  lemma BagsSwap(a: multiset<Ptr>, b: multiset<Ptr>, c: multiset<Ptr>)
    ensures a + b + c == a + c + b && a + (b + c) == a + b + c
  {
  }

  /** When a retain has returned, its thread owns one more reference to the block than
      when it called, besides those it was handed meanwhile; until then, it owns no more. */
  lemma {:induction false} RetainDelivers(b: seq<World>, schedule: seq<(nat, Act)>, i: nat, j: nat, t: nat, p: Ptr)
    requires DuringCall(b, schedule, i, j, t) && schedule[i].1 == Retain(p)
    ensures var before, now := b[i].threads[t], b[j].threads[t];
            now.owned == before.owned + Received(schedule[i..j], t) +
                         if now.stack == [] then multiset{p} else multiset{}
    ensures b[j].threads[t].stack != [] ==> Retains(b[j].threads[t], p)
    decreases j
  {
    var n := j - 1;
    OneMoreReceived(schedule, i, n, t);
    assert CanDo(b[n], schedule[n].0, schedule[n].1) && b[j] == Do(b[n], schedule[n].0, schedule[n].1);
    if n == i {
      assert schedule[i..i] == [];
      assert b[i].threads[t].owned + multiset{} == b[i].threads[t].owned;
    } else {
      RetainDelivers(b, schedule, i, n, t, p);
      hide Received, Retains, SharedRun;
      var before := b[i].threads[t].owned;
      assert before + Received(schedule[i..n], t) + multiset{} == before + Received(schedule[i..n], t);
      BagsSwap(before, Received(schedule[i..n], t), Handed(schedule[n].1, t));
      if schedule[n].0 == t {
        assert schedule[n].1 == GoOn;
        RetainGoesOn(b[n], t, p);
      } else {
        hide Do, CanDo;
        OthersMove(b[n], schedule[n].0, schedule[n].1, t);
        StillRetains(b[n].threads[t], b[j].threads[t], p);
      }
    }
  }

  lemma StillRetains(x: Thread, y: Thread, p: Ptr)
    requires y.stack == x.stack
    ensures Retains(y, p) <==> Retains(x, p)
    ensures RetainsNothing(y) <==> RetainsNothing(x)
  {
  }

  /** A release takes its reference at once, and neither it nor anything it disposes of
      takes or brings another. */
  lemma {:induction false} ReleaseTakes(b: seq<World>, schedule: seq<(nat, Act)>, i: nat, j: nat, t: nat, p: Ptr)
    requires DuringCall(b, schedule, i, j, t) && schedule[i].1 == Release(p)
    ensures p in b[i].threads[t].owned
    ensures b[j].threads[t].owned == b[i].threads[t].owned - multiset{p} + Received(schedule[i..j], t)
    ensures RetainsNothing(b[j].threads[t])
    decreases j
  {
    var n := j - 1;
    OneMoreReceived(schedule, i, n, t);
    assert CanDo(b[n], schedule[n].0, schedule[n].1) && b[j] == Do(b[n], schedule[n].0, schedule[n].1);
    if n == i {
      assert schedule[i..i] == [];
    } else {
      ReleaseTakes(b, schedule, i, n, t, p);
      hide Received, RetainsNothing, SharedRun;
      BagsSwap(b[i].threads[t].owned - multiset{p}, Received(schedule[i..n], t), Handed(schedule[n].1, t));
      if schedule[n].0 == t {
        assert schedule[n].1 == GoOn;
        ReleaseGoesOn(b[n], t);
      } else {
        hide Do, CanDo;
        OthersMove(b[n], schedule[n].0, schedule[n].1, t);
        StillRetains(b[n].threads[t], b[j].threads[t], p);
      }
    }
  }

  // ----- when everybody is done -----

  predicate AllDone(s: World) {
    forall t :: 0 <= t < |s.threads| ==> s.threads[t] == Thread(multiset{}, [])
  }

  predicate Captured(s: World, p: Ptr) {
    exists q :: 0 <= q < |s.blocks| && s.blocks[q].zeros == 0 && p in s.blocks[q].fields
  }

  lemma FieldListed(bs: seq<SharedBlock>, q: nat, p: Ptr)
    requires q < |bs|
    ensures p in Fields(bs)[q] <==> bs[q].zeros == 0 && p in bs[q].fields
  {
  }

  lemma CapturedIs(s: World, p: Ptr)
    ensures p in Sum(Fields(s.blocks)) <==> Captured(s, p)
  {
    SumMember(Fields(s.blocks), p);
    assert |Fields(s.blocks)| == |s.blocks|;
    hide Fields, Sum;
    forall q | 0 <= q < |s.blocks|
      ensures p in Fields(s.blocks)[q] <==> s.blocks[q].zeros == 0 && p in s.blocks[q].fields
    {
      FieldListed(s.blocks, q, p);
    }
  }

  lemma DoneRefs(s: World, p: Ptr)
    requires AllDone(s)
    ensures p in Refs(s) <==> Captured(s, p)
    ensures Disposals(s) == multiset{}
  {
    NothingHeld(OfReferences, s.threads);
    NothingHeld(OfDisposals, s.threads);
    CapturedIs(s, p);
    hide Sum, Fields, Captured, Tallies;
  }

  /** Once every reference is given up and every thread is out of the runtime, a block
      was seen at zero, disposed of and freed exactly once, unless it latched or a block
      that is still there captured it; and then it never was. */
  lemma {:induction false} ReclaimedExactlyOnce(b: seq<World>, schedule: seq<(nat, Act)>, p: Ptr)
    requires SharedRun(b, schedule) && AllDone(b[|schedule|]) && p < |b[|schedule|].blocks|
    ensures var s := b[|schedule|];
            s.blocks[p].zeros == s.blocks[p].freed == if Latched(s.blocks[p].word) || Captured(s, p) then 0 else 1
  {
    RunKeepsInv(b, schedule);
    DoneIsReclaimed(b[|schedule|], p);
  }

  lemma DoneIsReclaimed(s: World, p: Ptr)
    requires WorldInv(s) && AllDone(s) && p < |s.blocks|
    ensures s.blocks[p].zeros == s.blocks[p].freed == if Latched(s.blocks[p].word) || Captured(s, p) then 0 else 1
  {
    hide Refs, Disposals, Captured;
    DoneRefs(s, p);
    assert BlockInv(s.blocks[p], Refs(s)[p], Disposals(s)[p]);
  }

  /** Then everything ever built has been freed, exactly once, if and only if no count
      latched: nested releases that interleave in any way leak nothing. */
  lemma {:induction false} NothingLeaks(b: seq<World>, schedule: seq<(nat, Act)>)
    requires SharedRun(b, schedule) && AllDone(b[|schedule|])
    ensures var s := b[|schedule|];
            (forall p :: 0 <= p < |s.blocks| ==> s.blocks[p].zeros == s.blocks[p].freed == 1) <==>
            (forall p :: 0 <= p < |s.blocks| ==> !Latched(s.blocks[p].word))
  {
    RunKeepsInv(b, schedule);
    var s := b[|schedule|];
    hide Refs, Disposals, Captured, SharedRun, Latched, WorldInv;
    forall p | 0 <= p < |s.blocks|
      ensures s.blocks[p].zeros == s.blocks[p].freed == if Latched(s.blocks[p].word) || Captured(s, p) then 0 else 1
    {
      DoneIsReclaimed(s, p);
    }
    if forall p :: 0 <= p < |s.blocks| ==> !Latched(s.blocks[p].word) {
      AllFreed(s, |s.blocks|);
    }
  }

  /** From the youngest block down, nothing is left that could capture the next. */
  lemma {:induction false} AllFreed(s: World, n: nat)
    requires WorldInv(s) && AllDone(s) && n <= |s.blocks|
    requires forall p :: 0 <= p < |s.blocks| ==> !Latched(s.blocks[p].word)
    ensures forall p :: |s.blocks| - n <= p < |s.blocks| ==> s.blocks[p].zeros == s.blocks[p].freed == 1
  {
    if n > 0 {
      AllFreed(s, n - 1);
      var p := |s.blocks| - n;
      assert Older(s.blocks);
      hide WorldInv, Latched, AllDone;
      NotCaptured(s, p);
      hide Captured, Older;
      DoneIsReclaimed(s, p);
    }
  }

  lemma NotCaptured(s: World, p: nat)
    requires Older(s.blocks) && forall q :: p < q < |s.blocks| ==> s.blocks[q].zeros == 1
    ensures !Captured(s, p)
  {
    forall q | 0 <= q < |s.blocks| && p in s.blocks[q].fields ensures q > p {
      var i :| 0 <= i < |s.blocks[q].fields| && s.blocks[q].fields[i] == p;
    }
  }
}

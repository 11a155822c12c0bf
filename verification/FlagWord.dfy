/** The 32-bit flags word of a block: a sixteen-bit count in the low half, flag
    bits above it. A word stands for its unsigned value, so `w & 0xffff` is
    `w % 0x1_0000`, and a bit is read by division. */
module FlagWord {
  import opened BlockHeap
  import BlockLedger

  type Word = w: nat | w < 0x1_0000_0000

  const REFCOUNT_MASK: Word := 0xffff
  const NEEDS_FREE: Word := 0x0100_0000
  const HAS_COPY_DISPOSE: Word := 0x0200_0000
  const IS_GLOBAL: Word := 0x1000_0000

  function Count(w: Word): nat {
    w % 0x1_0000
  }

  /** Everything above the count. */
  function High(w: Word): nat {
    w / 0x1_0000
  }

  /** `w & bit` for a single bit. */
  predicate Has(w: Word, bit: Word)
    requires bit > 0
  {
    (w / bit) % 2 == 1
  }

  /** `w & ~REFCOUNT_MASK`. */
  function ClearCount(w: Word): Word {
    High(w) * 0x1_0000
  }

  /** `w | bit` for a single bit. */
  function With(w: Word, bit: Word): Word
    requires bit == NEEDS_FREE || bit == 1 || bit == 2
  {
    if Has(w, bit) then w else w + bit
  }

  function Decode(w: Word): Flags {
    Flags(Count(w), Has(w, NEEDS_FREE), Has(w, HAS_COPY_DISPOSE), Has(w, IS_GLOBAL))
  }

  /** Adding one below the latch touches the count and nothing else. */
  lemma IncrementWord(w: Word)
    requires Count(w) != REFCOUNT_MASK
    ensures w + 1 < 0x1_0000_0000
    ensures Count(w + 1) == Count(w) + 1 && High(w + 1) == High(w)
    ensures Decode(w + 1) == BlockLedger.Incremented(Decode(w))
  {
    SameHigh(w, w + 1);
  }

  lemma DecrementWord(w: Word)
    requires Count(w) != 0 && Count(w) != REFCOUNT_MASK
    ensures w >= 1 && Count(w - 1) == Count(w) - 1 && High(w - 1) == High(w)
    ensures Decode(w - 1) == BlockLedger.Decremented(Decode(w))
  {
    SameHigh(w, w - 1);
  }

  /** Words that agree above the count carry the same flags. */
  lemma SameHigh(v: Word, w: Word)
    requires High(v) == High(w)
    ensures Has(v, NEEDS_FREE) == Has(w, NEEDS_FREE)
    ensures Has(v, HAS_COPY_DISPOSE) == Has(w, HAS_COPY_DISPOSE)
    ensures Has(v, IS_GLOBAL) == Has(w, IS_GLOBAL)
  {
    HighBit(v, 0x100);
    HighBit(w, 0x100);
    HighBit(v, 0x200);
    HighBit(w, 0x200);
    HighBit(v, 0x1000);
    HighBit(w, 0x1000);
  }

  lemma HighBit(w: Word, k: nat)
    requires k == 0x100 || k == 0x200 || k == 0x1000
    ensures w / (k * 0x1_0000) == High(w) / k
  {
  }

  lemma ClearedWord(w: Word)
    ensures Count(ClearCount(w)) == 0 && Decode(ClearCount(w)) == Decode(w).(count := 0)
  {
    assert High(ClearCount(w)) == High(w);
    SameHigh(w, ClearCount(w));
  }

  lemma FirstReference(w: Word)
    requires Count(w) == 0
    ensures Decode(With(w, 1)) == Decode(w).(count := 1)
  {
    SameHigh(w, w + 1);
  }

  /** The new flags of a block that has just been copied: count cleared, then
      the malloc bit and a count of one set. */
  lemma CopiedWord(w: Word)
    requires !Has(w, NEEDS_FREE)
    ensures Decode(With(With(ClearCount(w), NEEDS_FREE), 1)) == Decode(w).(count := 1, needsFree := true)
  {
    hide ClearCount, High, Has;
    ClearedWord(w);
    SetNeedsFree(ClearCount(w));
    FirstReference(With(ClearCount(w), NEEDS_FREE));
  }

  lemma SetNeedsFree(w: Word)
    requires !Has(w, NEEDS_FREE)
    ensures w + NEEDS_FREE < 0x1_0000_0000 && With(w, NEEDS_FREE) == w + NEEDS_FREE
    ensures Count(w + NEEDS_FREE) == Count(w) && Has(w + NEEDS_FREE, NEEDS_FREE)
    ensures Has(w + NEEDS_FREE, HAS_COPY_DISPOSE) == Has(w, HAS_COPY_DISPOSE)
    ensures Has(w + NEEDS_FREE, IS_GLOBAL) == Has(w, IS_GLOBAL)
  {
  }

  /** The flags of a variable moved to the heap start with two references. */
  lemma MovedWord(w: Word)
    requires !Has(w, NEEDS_FREE) && Count(w) == 0
    ensures Decode(With(With(w, NEEDS_FREE), 2)) == Decode(w).(count := 2, needsFree := true)
  {
    SetNeedsFree(w);
    SameHigh(w + NEEDS_FREE, w + NEEDS_FREE + 2);
  }
}

/** The memory the Blocks runtime works on: blocks and `__block` variables
    ("byrefs") at addresses, on a stack frame or in malloc memory, and the
    ownership accounting the reference counts stand for. */
module BlockHeap {

  type Ptr = nat

  const NULL: Ptr := 0

  /** A count with all sixteen bits set never moves again. */
  const LATCHED: nat := 0xffff

  // The field kinds the compiler passes to the assign and dispose entry points.
  const FIELD_IS_OBJECT: bv8 := 3
  const FIELD_IS_BLOCK: bv8 := 7
  const FIELD_IS_BYREF: bv8 := 8
  const FIELD_IS_WEAK: bv8 := 16
  const BYREF_CALLER: bv8 := 128

  /** The decoded flags word; module FlagWord relates it to the bits. */
  datatype Flags = Flags(count: nat, needsFree: bool, hasCopyDispose: bool, isGlobal: bool)

  datatype Isa = StackBlock | MallocBlock | GlobalBlock

  /** One captured variable that the copy and dispose helpers look after. */
  datatype Capture = Capture(flags: bv8, ptr: Ptr)

  datatype Cell =
    | Block(isa: Isa, flags: Flags, invoke: nat, captures: seq<Capture>)
    | Byref(weakIsa: bool, flags: Flags, forwarding: Ptr, keepFlags: bv8, value: Ptr)

  /** Something that can be owned: a cell of memory, or an Objective-C object
      that lives outside it and is retained and released. */
  datatype Ref = Mem(p: Ptr) | Object(o: Ptr)

  /** Memory together with its ledger.
      - `rank` orders blocks by the creation of the literal they stem from;
      - `claims` are the references held outside memory: by the clients of
        Block_copy, or by a helper that is part way through a block;
      - `limbo` holds the cells being built or torn down, whose references are
        in `claims` and not yet (or no longer) in their fields;
      - `retains` counts the retains of each object not yet matched by a release. */
  datatype Heap = Heap(mem: map<Ptr, Cell>, rank: map<Ptr, nat>, claims: multiset<Ref>,
                       limbo: set<Ptr>, retains: multiset<Ptr>)

  predicate ValidField(flags: bv8) {
    flags == FIELD_IS_OBJECT || flags == FIELD_IS_BLOCK || IsByrefField(flags)
  }

  predicate IsByrefField(flags: bv8) {
    flags == FIELD_IS_BYREF || flags == FIELD_IS_BYREF | FIELD_IS_WEAK
  }

  /** The flags a byref's own helpers pass for an object or block variable. */
  predicate ValidKeep(flags: bv8) {
    || flags == BYREF_CALLER | FIELD_IS_OBJECT
    || flags == BYREF_CALLER | FIELD_IS_OBJECT | FIELD_IS_WEAK
    || flags == BYREF_CALLER | FIELD_IS_BLOCK
    || flags == BYREF_CALLER | FIELD_IS_BLOCK | FIELD_IS_WEAK
  }

  function RefOf(c: Capture): Ref {
    if c.flags == FIELD_IS_OBJECT then Object(c.ptr) else Mem(c.ptr)
  }

  function CaptureRefs(cs: seq<Capture>): multiset<Ref> {
    if cs == [] then multiset{} else multiset{RefOf(cs[0])} + CaptureRefs(cs[1..])
  }

  /** The references a cell holds: the fields of a block in malloc memory, and
      a frame's share in a variable that has moved. Fields of a block literal
      on the stack are plain copies. */
  function OwnedRefs(p: Ptr, c: Cell): multiset<Ref> {
    match c
    case Block(_, flags, _, captures) => if flags.needsFree then CaptureRefs(captures) else multiset{}
    case Byref(_, _, forwarding, _, _) => if forwarding == p then multiset{} else multiset{Mem(forwarding)}
  }

  /** All references held by the cells at the addresses in `s`. */
  ghost function Refs(mem: map<Ptr, Cell>, s: set<Ptr>): multiset<Ref>
    requires s <= mem.Keys
    decreases |s|
  {
    if s == {} then multiset{}
    else
      var q :| q in s;
      OwnedRefs(q, mem[q]) + Refs(mem, s - {q})
  }

  /** Every reference there is, with multiplicity: claimed or held by a settled cell. */
  ghost function Owned(h: Heap): multiset<Ref> {
    h.claims + Refs(h.mem, h.mem.Keys - h.limbo)
  }

  predicate OnHeap(mem: map<Ptr, Cell>, p: Ptr) {
    p in mem && mem[p].flags.needsFree
  }

  /** Addresses that stay valid for as long as they are owned. */
  predicate Durable(mem: map<Ptr, Cell>, p: Ptr) {
    p == NULL || OnHeap(mem, p) || (p in mem && mem[p].Block? && mem[p].flags.isGlobal)
  }

  ghost predicate CaptureOk(mem: map<Ptr, Cell>, rank: map<Ptr, nat>, p: Ptr, c: Capture)
    requires mem.Keys <= rank.Keys && p in mem
  {
    && (c.flags == FIELD_IS_BLOCK ==>
      && Durable(mem, c.ptr)
      && (c.ptr != NULL ==> mem[c.ptr].Block?)
      && (c.ptr != NULL && mem[c.ptr].flags.needsFree ==> rank[c.ptr] < rank[p]))
    && (IsByrefField(c.flags) ==> OnHeap(mem, c.ptr) && mem[c.ptr].Byref?)
  }

  /** What the compiler and the runtime keep of one cell at any time. */
  predicate CellShape(p: Ptr, c: Cell) {
    && c.flags.count <= LATCHED
    && (!c.flags.needsFree ==> c.flags.count == 0)
    && (c.flags.isGlobal ==> !c.flags.needsFree)
    && match c
       case Block(isa, flags, _, captures) =>
         && isa == (if flags.needsFree then MallocBlock else if flags.isGlobal then GlobalBlock else StackBlock)
         && (flags.isGlobal ==> captures == [])
         && (captures != [] ==> flags.hasCopyDispose)
         && (forall i :: 0 <= i < |captures| ==> ValidField(captures[i].flags))
       case Byref(_, flags, forwarding, keepFlags, _) =>
         && !flags.isGlobal
         && (flags.hasCopyDispose ==> ValidKeep(keepFlags))
         && (flags.needsFree ==> forwarding == p)
  }

  /** Pointers kept in a cell that is not in limbo. */
  ghost predicate CellLinks(mem: map<Ptr, Cell>, rank: map<Ptr, nat>, p: Ptr)
    requires mem.Keys <= rank.Keys && p in mem
  {
    match mem[p]
    case Block(_, flags, _, captures) =>
      flags.needsFree ==> forall i :: 0 <= i < |captures| ==> CaptureOk(mem, rank, p, captures[i])
    case Byref(_, _, forwarding, _, _) =>
      forwarding != p ==> OnHeap(mem, forwarding) && mem[forwarding].Byref?
  }

  ghost predicate Shaped(h: Heap) {
    && NULL !in h.mem && NULL !in h.rank
    && h.limbo <= h.mem.Keys <= h.rank.Keys
    && (forall p :: p in h.mem ==> CellShape(p, h.mem[p]))
    && (forall p :: p in h.mem && p !in h.limbo ==> CellLinks(h.mem, h.rank, p))
    && (forall p :: Mem(p) in h.claims ==> Durable(h.mem, p))
  }

  /** A settled count is latched, or it is the number of owners. */
  predicate CountOk(count: nat, owners: nat) {
    count == LATCHED || count == owners >= 1
  }

  ghost predicate Balanced(mem: map<Ptr, Cell>, limbo: set<Ptr>, retains: multiset<Ptr>, owned: multiset<Ref>)
  {
    && (forall p :: OnHeap(mem, p) && p !in limbo ==> CountOk(mem[p].flags.count, owned[Mem(p)]))
    && (forall p :: p in limbo ==> Mem(p) !in owned)
    && (forall o :: retains[o] == owned[Object(o)])
  }

  /** The whole-heap invariant. */
  ghost predicate Inv(h: Heap) {
    Shaped(h) && Balanced(h.mem, h.limbo, h.retains, Owned(h))
  }

  // ----- sums of references -----

  lemma {:induction false} RefsRemove(mem: map<Ptr, Cell>, s: set<Ptr>, q: Ptr)
    requires s <= mem.Keys && q in s
    ensures Refs(mem, s) == OwnedRefs(q, mem[q]) + Refs(mem, s - {q})
    decreases |s|
  {
    var x :| x in s && Refs(mem, s) == OwnedRefs(x, mem[x]) + Refs(mem, s - {x});
    if x != q {
      RefsRemove(mem, s - {x}, q);
      RefsRemove(mem, s - {q}, x);
      assert s - {x} - {q} == s - {q} - {x};
    }
  }

  lemma {:induction false} RefsSame(mem: map<Ptr, Cell>, mem': map<Ptr, Cell>, s: set<Ptr>)
    requires s <= mem.Keys && s <= mem'.Keys
    requires forall q :: q in s ==> OwnedRefs(q, mem[q]) == OwnedRefs(q, mem'[q])
    ensures Refs(mem, s) == Refs(mem', s)
    decreases |s|
  {
    if s != {} {
      var q :| q in s;
      RefsRemove(mem, s, q);
      RefsRemove(mem', s, q);
      RefsSame(mem, mem', s - {q});
    }
  }

  lemma {:induction false} RefsMember(mem: map<Ptr, Cell>, s: set<Ptr>, r: Ref) returns (q: Ptr)
    requires s <= mem.Keys && r in Refs(mem, s)
    ensures q in s && r in OwnedRefs(q, mem[q])
    decreases |s|
  {
    q :| q in s && Refs(mem, s) == OwnedRefs(q, mem[q]) + Refs(mem, s - {q});
    if r !in OwnedRefs(q, mem[q]) {
      q := RefsMember(mem, s - {q}, r);
    }
  }

  lemma {:induction false} CaptureRefsMember(cs: seq<Capture>, r: Ref)
    ensures r in CaptureRefs(cs) <==> exists i :: 0 <= i < |cs| && RefOf(cs[i]) == r
  {
    if cs != [] {
      CaptureRefsMember(cs[1..], r);
      assert forall i :: 1 <= i < |cs| ==> cs[i] == cs[1..][i - 1];
      if i :| 0 <= i < |cs[1..]| && RefOf(cs[1..][i]) == r {
        assert RefOf(cs[i + 1]) == r;
      }
    }
  }

  lemma {:induction false} CaptureRefsAppend(cs: seq<Capture>, c: Capture)
    ensures CaptureRefs(cs + [c]) == CaptureRefs(cs) + multiset{RefOf(c)}
  {
    if cs == [] {
      assert [] + [c] == [c];
    } else {
      CaptureRefsAppend(cs[1..], c);
      assert (cs + [c])[1..] == cs[1..] + [c];
    }
  }

  lemma CaptureRefsNone(cs: seq<Capture>)
    ensures CaptureRefs(cs[..0]) == multiset{}
  {
  }

  lemma CaptureRefsPrefix(cs: seq<Capture>, ds: seq<Capture>, i: nat)
    requires i < |ds| && i <= |cs| && ds[..i] == cs[..i]
    ensures CaptureRefs(ds[..i + 1]) == CaptureRefs(cs[..i]) + multiset{RefOf(ds[i])}
  {
    assert ds[..i + 1] == ds[..i] + [ds[i]];
    CaptureRefsAppend(ds[..i], ds[i]);
  }

  // ----- addresses -----

  lemma FreshAddress(s: set<Ptr>) returns (r: Ptr)
    ensures r !in s
  {
    r := AboveAll(s);
  }

  lemma {:induction false} AboveAll(s: set<Ptr>) returns (bound: Ptr)
    ensures forall p :: p in s ==> p < bound
    decreases |s|
  {
    bound := 0;
    if s != {} {
      var x :| x in s;
      bound := AboveAll(s - {x});
      assert forall p :: p in s ==> p == x || p in s - {x};
      bound := if bound <= x then x + 1 else bound;
    }
  }
}

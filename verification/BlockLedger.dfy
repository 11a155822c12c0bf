/** The single steps the runtime takes on memory, each shown to keep the
    whole-heap invariant when the ledger moves along with it. */
module BlockLedger {
  import opened BlockHeap

  function Incremented(f: Flags): Flags {
    if f.count == LATCHED then f else f.(count := f.count + 1)
  }

  function Decremented(f: Flags): Flags {
    if f.count == LATCHED || f.count == 0 then f else f.(count := f.count - 1)
  }

  function WithFlags(mem: map<Ptr, Cell>, p: Ptr, f: Flags): map<Ptr, Cell>
    requires p in mem
  {
    mem[p := mem[p].(flags := f)]
  }

  // ----- counts -----

  /** One more reference somewhere, one more count there. */
  lemma BalancedUp(mem: map<Ptr, Cell>, limbo: set<Ptr>, retains: multiset<Ptr>, owned: multiset<Ref>, p: Ptr)
    requires Balanced(mem, limbo, retains, owned) && OnHeap(mem, p) && p !in limbo
    ensures Balanced(WithFlags(mem, p, Incremented(mem[p].flags)), limbo, retains, owned + multiset{Mem(p)})
  {
  }

  lemma BalancedDown(mem: map<Ptr, Cell>, limbo: set<Ptr>, retains: multiset<Ptr>, owned: multiset<Ref>, p: Ptr)
    requires Balanced(mem, limbo, retains, owned) && OnHeap(mem, p) && p !in limbo
    requires Mem(p) in owned && mem[p].flags.count > 1
    ensures Balanced(WithFlags(mem, p, Decremented(mem[p].flags)), limbo, retains, owned - multiset{Mem(p)})
  {
    assert CountOk(mem[p].flags.count, owned[Mem(p)]);
  }

  /** Changing the count of `p` leaves the shape of memory alone. */
  lemma RecountedShape(h: Heap, p: Ptr, f: Flags, claims: multiset<Ref>)
    requires Shaped(h) && OnHeap(h.mem, p)
    requires f == h.mem[p].flags.(count := f.count) && f.count <= LATCHED
    requires forall q :: Mem(q) in claims ==> Mem(q) in h.claims || q == p
    ensures Shaped(h.(mem := WithFlags(h.mem, p, f), claims := claims))
  {
    var mem := WithFlags(h.mem, p, f);
    forall q | q in mem ensures CellShape(q, mem[q]) {
      assert CellShape(q, h.mem[q]);
    }
    forall q | q in mem && q !in h.limbo ensures CellLinks(mem, h.rank, q) {
      RecountedLinks(h, p, f, q);
    }
  }

  lemma RecountedLinks(h: Heap, p: Ptr, f: Flags, q: Ptr)
    requires h.mem.Keys <= h.rank.Keys && OnHeap(h.mem, p) && f == h.mem[p].flags.(count := f.count)
    requires q in h.mem && CellLinks(h.mem, h.rank, q)
    ensures CellLinks(WithFlags(h.mem, p, f), h.rank, q)
  {
  }

  lemma RecountedRefs(mem: map<Ptr, Cell>, p: Ptr, f: Flags, s: set<Ptr>)
    requires s <= mem.Keys && p in mem && f.needsFree == mem[p].flags.needsFree
    ensures Refs(WithFlags(mem, p, f), s) == Refs(mem, s)
  {
    RefsSame(mem, WithFlags(mem, p, f), s);
  }

  /** Taking one more reference to a settled cell. */
  ghost function Retained(h: Heap, p: Ptr): Heap
    requires p in h.mem
  {
    h.(mem := WithFlags(h.mem, p, Incremented(h.mem[p].flags)), claims := h.claims + multiset{Mem(p)})
  }

  lemma RetainedKeepsInv(h: Heap, p: Ptr)
    requires Inv(h) && OnHeap(h.mem, p) && p !in h.limbo
    ensures Inv(Retained(h, p))
  {
    var h' := Retained(h, p);
    assert CellShape(p, h.mem[p]);
    RecountedShape(h, p, h'.mem[p].flags, h'.claims);
    OwnedAfterRecount(h, p, h'.mem[p].flags, h'.claims);
    assert Owned(h') == Owned(h) + multiset{Mem(p)};
    BalancedUp(h.mem, h.limbo, h.retains, Owned(h), p);
  }

  lemma OwnedAfterRecount(h: Heap, p: Ptr, f: Flags, claims: multiset<Ref>)
    requires p in h.mem && f.needsFree == h.mem[p].flags.needsFree
    ensures Owned(h.(mem := WithFlags(h.mem, p, f), claims := claims)) == claims + Refs(h.mem, h.mem.Keys - h.limbo)
  {
    var h' := h.(mem := WithFlags(h.mem, p, f), claims := claims);
    assert h'.mem.Keys == h.mem.Keys;
    RecountedRefs(h.mem, p, f, h.mem.Keys - h.limbo);
  }

  /** Giving up one reference that was not the last. */
  ghost function Released(h: Heap, p: Ptr): Heap
    requires p in h.mem
  {
    h.(mem := WithFlags(h.mem, p, Decremented(h.mem[p].flags)), claims := h.claims - multiset{Mem(p)})
  }

  lemma ReleasedKeepsInv(h: Heap, p: Ptr)
    requires Inv(h) && OnHeap(h.mem, p) && p !in h.limbo && Mem(p) in h.claims
    requires h.mem[p].flags.count > 1
    ensures Inv(Released(h, p))
  {
    var h' := Released(h, p);
    assert CellShape(p, h.mem[p]);
    RecountedShape(h, p, h'.mem[p].flags, h'.claims);
    OwnedAfterRecount(h, p, h'.mem[p].flags, h'.claims);
    assert Owned(h') == Owned(h) - multiset{Mem(p)};
    BalancedDown(h.mem, h.limbo, h.retains, Owned(h), p);
  }

  // ----- claims that weigh nothing, and objects outside memory -----

  /** A claim on null or on a global block changes no count. */
  lemma WeightlessClaim(h: Heap, p: Ptr, claims: multiset<Ref>)
    requires Inv(h) && !OnHeap(h.mem, p) && Durable(h.mem, p) && p !in h.limbo
    requires claims == h.claims + multiset{Mem(p)} || claims == h.claims - multiset{Mem(p)}
    ensures Inv(h.(claims := claims))
  {
    var owned := Owned(h.(claims := claims));
    assert forall r :: r != Mem(p) ==> owned[r] == Owned(h)[r];
    assert Balanced(h.mem, h.limbo, h.retains, owned);
  }

  lemma BalancedObjectUp(mem: map<Ptr, Cell>, limbo: set<Ptr>, retains: multiset<Ptr>, owned: multiset<Ref>, o: Ptr)
    requires Balanced(mem, limbo, retains, owned)
    ensures Balanced(mem, limbo, retains + multiset{o}, owned + multiset{Object(o)})
  {
  }

  lemma BalancedObjectDown(mem: map<Ptr, Cell>, limbo: set<Ptr>, retains: multiset<Ptr>, owned: multiset<Ref>, o: Ptr)
    requires Balanced(mem, limbo, retains, owned) && Object(o) in owned
    ensures o in retains
    ensures Balanced(mem, limbo, retains - multiset{o}, owned - multiset{Object(o)})
  {
    assert retains[o] == owned[Object(o)];
  }

  lemma ObjectRetainedKeepsInv(h: Heap, o: Ptr)
    requires Inv(h)
    ensures Inv(h.(claims := h.claims + multiset{Object(o)}, retains := h.retains + multiset{o}))
  {
    var h' := h.(claims := h.claims + multiset{Object(o)}, retains := h.retains + multiset{o});
    assert Owned(h') == Owned(h) + multiset{Object(o)};
    BalancedObjectUp(h.mem, h.limbo, h.retains, Owned(h), o);
  }

  lemma ObjectReleasedKeepsInv(h: Heap, o: Ptr)
    requires Inv(h) && Object(o) in h.claims
    ensures o in h.retains
    ensures Inv(h.(claims := h.claims - multiset{Object(o)}, retains := h.retains - multiset{o}))
  {
    var h' := h.(claims := h.claims - multiset{Object(o)}, retains := h.retains - multiset{o});
    assert Owned(h') == Owned(h) - multiset{Object(o)};
    BalancedObjectDown(h.mem, h.limbo, h.retains, Owned(h), o);
  }

  // ----- what is owned is there -----

  /** A reference held by a settled cell leads to a durable address. */
  lemma HeldIsDurable(h: Heap, q: Ptr, x: Ptr)
    requires Shaped(h) && q in h.mem && q !in h.limbo
    requires Mem(x) in OwnedRefs(q, h.mem[q])
    ensures Durable(h.mem, x)
  {
    assert CellLinks(h.mem, h.rank, q) && CellShape(q, h.mem[q]);
    if h.mem[q].Block? {
      var cs := h.mem[q].captures;
      CaptureRefsMember(cs, Mem(x));
      var i :| 0 <= i < |cs| && RefOf(cs[i]) == Mem(x);
      assert CaptureOk(h.mem, h.rank, q, cs[i]);
    }
  }

  /** Nothing that is owned has been freed. */
  lemma OwnedIsDurable(h: Heap, x: Ptr)
    requires Shaped(h) && Mem(x) in Owned(h)
    ensures Durable(h.mem, x)
  {
    if Mem(x) !in h.claims {
      var q := RefsMember(h.mem, h.mem.Keys - h.limbo, Mem(x));
      HeldIsDurable(h, q, x);
    }
  }

  /** The links of a cell survive when what it holds does. */
  lemma LinksFrame(mem: map<Ptr, Cell>, rank: map<Ptr, nat>, mem': map<Ptr, Cell>, rank': map<Ptr, nat>, p: Ptr)
    requires mem.Keys <= rank.Keys && mem'.Keys <= rank'.Keys
    requires p in mem && CellShape(p, mem[p]) && CellLinks(mem, rank, p)
    requires p in mem' && mem'[p] == mem[p] && rank'[p] == rank[p]
    requires forall q :: q in mem && Mem(q) in OwnedRefs(p, mem[p]) ==>
                q in mem' && mem'[q] == mem[q] && rank'[q] == rank[q]
    ensures CellLinks(mem', rank', p)
  {
    if mem[p].Block? && mem[p].flags.needsFree {
      var cs := mem[p].captures;
      forall i | 0 <= i < |cs| ensures CaptureOk(mem', rank', p, cs[i]) {
        assert CaptureOk(mem, rank, p, cs[i]);
        CaptureRefsMember(cs, RefOf(cs[i]));
      }
    }
  }

  // ----- building a block -----

  /** A fresh cell that nobody refers to yet. */
  ghost function Allocated(h: Heap, r: Ptr, c: Cell, k: nat): Heap {
    h.(mem := h.mem[r := c], rank := h.rank[r := k], limbo := h.limbo + {r})
  }

  lemma AllocatedShape(h: Heap, r: Ptr, c: Cell, k: nat)
    requires Shaped(h) && r !in h.mem && r != NULL && CellShape(r, c)
    ensures Shaped(Allocated(h, r, c, k))
  {
    hide CellShape, CellLinks;
    var h' := Allocated(h, r, c, k);
    forall p | p in h'.mem ensures CellShape(p, h'.mem[p]) {
      if p != r { assert CellShape(p, h.mem[p]); }
    }
    forall p | p in h'.mem && p !in h'.limbo ensures CellLinks(h'.mem, h'.rank, p) {
      assert CellShape(p, h.mem[p]) && CellLinks(h.mem, h.rank, p);
      LinksFrame(h.mem, h.rank, h'.mem, h'.rank, p);
    }
  }

  lemma AllocatedKeepsInv(h: Heap, r: Ptr, c: Cell, k: nat)
    requires Inv(h) && r !in h.mem && r != NULL && CellShape(r, c)
    ensures Inv(Allocated(h, r, c, k))
  {
    var h' := Allocated(h, r, c, k);
    AllocatedShape(h, r, c, k);
    assert h'.mem.Keys - h'.limbo == h.mem.Keys - h.limbo;
    RefsSame(h.mem, h'.mem, h.mem.Keys - h.limbo);
    assert Owned(h') == Owned(h);
    if Mem(r) in Owned(h) { OwnedIsDurable(h, r); }
    assert Balanced(h'.mem, h'.limbo, h'.retains, Owned(h));
  }

  /** Filling in a cell that is being built. */
  lemma LimboWriteKeepsInv(h: Heap, r: Ptr, c: Cell)
    requires Inv(h) && r in h.limbo && CellShape(r, c)
    requires c.Block? == h.mem[r].Block? && c.flags.needsFree == h.mem[r].flags.needsFree &&
             c.flags.isGlobal == h.mem[r].flags.isGlobal
    ensures Inv(h.(mem := h.mem[r := c]))
  {
    var h' := h.(mem := h.mem[r := c]);
    LimboWriteShape(h, r, c);
    assert h'.mem.Keys == h.mem.Keys;
    RefsSame(h.mem, h'.mem, h.mem.Keys - h.limbo);
    assert Owned(h') == Owned(h);
    assert Balanced(h'.mem, h'.limbo, h'.retains, Owned(h));
  }

  lemma LimboWriteShape(h: Heap, r: Ptr, c: Cell)
    requires Shaped(h) && r in h.limbo && CellShape(r, c)
    requires c.Block? == h.mem[r].Block? && c.flags.needsFree == h.mem[r].flags.needsFree &&
             c.flags.isGlobal == h.mem[r].flags.isGlobal
    ensures Shaped(h.(mem := h.mem[r := c]))
  {
    var h' := h.(mem := h.mem[r := c]);
    forall p | p in h'.mem ensures CellShape(p, h'.mem[p]) {
      if p != r { assert CellShape(p, h.mem[p]); }
    }
    forall p | p in h'.mem && p !in h'.limbo ensures CellLinks(h'.mem, h'.rank, p) {
      assert CellLinks(h.mem, h.rank, p);
      LimboWriteLinks(h.mem, h.rank, r, c, p);
    }
  }

  lemma LimboWriteLinks(mem: map<Ptr, Cell>, rank: map<Ptr, nat>, r: Ptr, c: Cell, p: Ptr)
    requires mem.Keys <= rank.Keys && p in mem && r in mem && p != r && CellLinks(mem, rank, p)
    requires c.Block? == mem[r].Block? && c.flags.needsFree == mem[r].flags.needsFree &&
             c.flags.isGlobal == mem[r].flags.isGlobal
    ensures CellLinks(mem[r := c], rank, p)
  {
  }

  /** A finished cell joins the settled ones: the references gathered for its
      fields pass from the claims to the fields, and a block in malloc memory
      is handed to its first owner. */
  ghost function Settled(h: Heap, r: Ptr): Heap
    requires r in h.mem
  {
    h.(limbo := h.limbo - {r},
       claims := h.claims - OwnedRefs(r, h.mem[r]) + if h.mem[r].flags.needsFree then multiset{Mem(r)} else multiset{})
  }

  lemma SettledKeepsInv(h: Heap, r: Ptr)
    requires Inv(h) && r in h.limbo && r in h.mem && CellLinks(h.mem, h.rank, r)
    requires OwnedRefs(r, h.mem[r]) <= h.claims
    requires h.mem[r].flags.needsFree ==> h.mem[r].flags.count == 1
    ensures Inv(Settled(h, r))
  {
    hide Shaped, Balanced, CellLinks;
    SettledOwned(h, r);
    SettledBalance(h.mem, h.limbo, h.retains, Owned(h), r);
    SettledShape(h, r, Settled(h, r).claims);
  }

  lemma SettledShape(h: Heap, r: Ptr, claims: multiset<Ref>)
    requires Shaped(h) && r in h.limbo && CellLinks(h.mem, h.rank, r)
    requires forall q :: Mem(q) in claims ==> Mem(q) in h.claims || (q == r && OnHeap(h.mem, q))
    ensures Shaped(h.(limbo := h.limbo - {r}, claims := claims))
  {
    hide CellShape, CellLinks;
  }

  lemma SettledOwned(h: Heap, r: Ptr)
    requires r in h.limbo && r in h.mem && OwnedRefs(r, h.mem[r]) <= h.claims
    ensures Owned(Settled(h, r)) == Owned(h) + if h.mem[r].flags.needsFree then multiset{Mem(r)} else multiset{}
  {
    var h' := Settled(h, r);
    var s := h.mem.Keys - h.limbo;
    assert h'.mem.Keys - h'.limbo == s + {r};
    RefsRemove(h.mem, s + {r}, r);
    assert s + {r} - {r} == s;
  }

  lemma SettledBalance(mem: map<Ptr, Cell>, limbo: set<Ptr>, retains: multiset<Ptr>, owned: multiset<Ref>, r: Ptr)
    requires Balanced(mem, limbo, retains, owned) && r in limbo && r in mem
    requires mem[r].flags.needsFree ==> mem[r].flags.count == 1
    ensures Balanced(mem, limbo - {r}, retains, owned + if mem[r].flags.needsFree then multiset{Mem(r)} else multiset{})
  {
  }

  // ----- tearing a cell down -----

  /** The last reference to `p` is gone: what its fields held is claimed by
      whoever disposes of it. */
  ghost function Retired(h: Heap, p: Ptr): Heap
    requires p in h.mem
  {
    h.(mem := WithFlags(h.mem, p, Decremented(h.mem[p].flags)), limbo := h.limbo + {p},
       claims := h.claims - multiset{Mem(p)} + OwnedRefs(p, h.mem[p]))
  }

  lemma RetiredKeepsInv(h: Heap, p: Ptr)
    requires Inv(h) && OnHeap(h.mem, p) && p !in h.limbo && Mem(p) in h.claims
    requires h.mem[p].flags.count == 1
    ensures Inv(Retired(h, p))
  {
    hide Shaped, Balanced;
    var h' := Retired(h, p);
    RetiredOwned(h, p);
    RetiredBalance(h.mem, h.limbo, h.retains, Owned(h), p);
    assert forall q :: Mem(q) in h'.claims ==> Mem(q) in h.claims || Mem(q) in OwnedRefs(p, h.mem[p]);
    RetiredShape(h, p, Decremented(h.mem[p].flags), h'.claims);
  }

  lemma RetiredOwned(h: Heap, p: Ptr)
    requires OnHeap(h.mem, p) && p !in h.limbo && Mem(p) in h.claims
    ensures Owned(Retired(h, p)) == Owned(h) - multiset{Mem(p)}
  {
    var h' := Retired(h, p);
    var s := h.mem.Keys - h.limbo;
    assert h'.mem.Keys - h'.limbo == s - {p};
    RefsRemove(h.mem, s, p);
    RefsSame(h.mem, h'.mem, s - {p});
  }

  lemma RetiredBalance(mem: map<Ptr, Cell>, limbo: set<Ptr>, retains: multiset<Ptr>, owned: multiset<Ref>, p: Ptr)
    requires Balanced(mem, limbo, retains, owned) && OnHeap(mem, p) && p !in limbo
    requires mem[p].flags.count == 1
    ensures Balanced(WithFlags(mem, p, Decremented(mem[p].flags)), limbo + {p}, retains, owned - multiset{Mem(p)})
  {
    assert CountOk(mem[p].flags.count, owned[Mem(p)]);
  }

  /** Entering limbo only drops obligations. */
  lemma RetiredShape(h: Heap, p: Ptr, f: Flags, claims: multiset<Ref>)
    requires Shaped(h) && OnHeap(h.mem, p) && p !in h.limbo
    requires f == h.mem[p].flags.(count := f.count) && f.count <= LATCHED
    requires forall q :: Mem(q) in claims ==> Mem(q) in h.claims || Mem(q) in OwnedRefs(p, h.mem[p])
    ensures Shaped(h.(mem := WithFlags(h.mem, p, f), limbo := h.limbo + {p}, claims := claims))
  {
    forall q | Mem(q) in claims ensures Durable(h.mem, q) {
      if Mem(q) !in h.claims { HeldIsDurable(h, p, q); }
    }
    RecountedShape(h.(claims := claims), p, f, claims);
  }

  /** Deallocating a cell nobody owns any more. */
  ghost function Freed(h: Heap, p: Ptr): Heap {
    h.(mem := h.mem - {p}, limbo := h.limbo - {p})
  }

  lemma FreedKeepsInv(h: Heap, p: Ptr)
    requires Inv(h) && p in h.limbo
    ensures Inv(Freed(h, p))
  {
    var h' := Freed(h, p);
    assert h'.mem.Keys - h'.limbo == h.mem.Keys - h.limbo;
    RefsSame(h.mem, h'.mem, h.mem.Keys - h.limbo);
    assert Owned(h') == Owned(h);
    assert Balanced(h'.mem, h'.limbo, h'.retains, Owned(h));
    FreedShape(h, p);
  }

  lemma FreedLinks(h: Heap, p: Ptr, q: Ptr)
    requires Shaped(h) && p in h.limbo && Mem(p) !in Owned(h) && q in h.mem && q !in h.limbo
    ensures CellLinks(Freed(h, p).mem, h.rank, q)
  {
    var h' := Freed(h, p);
    assert CellShape(q, h.mem[q]) && CellLinks(h.mem, h.rank, q);
    RefsRemove(h.mem, h.mem.Keys - h.limbo, q);
    hide CellShape, CellLinks, Shaped;
    LinksFrame(h.mem, h.rank, h'.mem, h'.rank, q);
  }

  lemma FreedClaim(h: Heap, p: Ptr, x: Ptr)
    requires Shaped(h) && p in h.limbo && Mem(p) !in Owned(h) && Mem(x) in h.claims
    ensures Durable(Freed(h, p).mem, x)
  {
    assert Mem(x) in Owned(h) && Durable(h.mem, x);
  }

  lemma FreedShape(h: Heap, p: Ptr)
    requires Shaped(h) && p in h.limbo && Mem(p) !in Owned(h)
    ensures Shaped(Freed(h, p))
  {
    hide CellShape, CellLinks, Owned, Durable;
    var h' := Freed(h, p);
    forall q | q in h'.mem ensures CellShape(q, h'.mem[q]) {
      assert CellShape(q, h.mem[q]);
    }
    forall q | q in h'.mem && q !in h'.limbo ensures CellLinks(h'.mem, h'.rank, q) {
      FreedLinks(h, p, q);
    }
    forall x | Mem(x) in h'.claims ensures Durable(h'.mem, x) {
      FreedClaim(h, p, x);
    }
  }

  /** A frame cell is about to be popped: its share in a moved variable becomes
      a claim that the exit code gives up. */
  ghost function Leaving(h: Heap, p: Ptr): Heap
    requires p in h.mem
  {
    h.(limbo := h.limbo + {p}, claims := h.claims + OwnedRefs(p, h.mem[p]))
  }

  lemma LeavingKeepsInv(h: Heap, p: Ptr)
    requires Inv(h) && p in h.mem && p !in h.limbo && !Durable(h.mem, p)
    ensures Inv(Leaving(h, p))
  {
    hide CellShape, CellLinks;
    var h' := Leaving(h, p);
    LeavingOwned(h, p);
    if Mem(p) in Owned(h) { OwnedIsDurable(h, p); }
    assert Balanced(h'.mem, h'.limbo, h'.retains, Owned(h));
    forall q | Mem(q) in h'.claims ensures Durable(h.mem, q) {
      if Mem(q) !in h.claims { HeldIsDurable(h, p, q); }
    }
  }

  lemma LeavingOwned(h: Heap, p: Ptr)
    requires p in h.mem && p !in h.limbo
    ensures Owned(Leaving(h, p)) == Owned(h)
  {
    var h' := Leaving(h, p);
    var s := h.mem.Keys - h.limbo;
    assert h'.mem.Keys - h'.limbo == s - {p};
    RefsRemove(h.mem, s, p);
  }

  // ----- moving a variable to the heap -----

  /** The frame's variable `s` now forwards to the copy at `r`: one reference
      for the frame, one for the block being built. */
  ghost function Moved(h: Heap, s: Ptr, r: Ptr): Heap
    requires s in h.mem && h.mem[s].Byref?
  {
    h.(mem := h.mem[s := h.mem[s].(forwarding := r)], limbo := h.limbo - {r}, claims := h.claims + multiset{Mem(r)})
  }

  lemma MovedKeepsInv(h: Heap, s: Ptr, r: Ptr)
    requires Inv(h) && s in h.mem && s !in h.limbo && h.mem[s].Byref? && h.mem[s].forwarding == s &&
             !h.mem[s].flags.needsFree
    requires r in h.limbo && h.mem[r].Byref? && h.mem[r].flags.needsFree && h.mem[r].flags.count == 2
    ensures Inv(Moved(h, s, r))
  {
    var h' := Moved(h, s, r);
    MovedOwned(h, s, r);
    MovedBalance(h, s, r, Owned(h));
    MovedShape(h, s, r);
  }

  lemma MovedOwned(h: Heap, s: Ptr, r: Ptr)
    requires Shaped(h) && s in h.mem && s !in h.limbo && h.mem[s].Byref? && h.mem[s].forwarding == s
    requires r in h.limbo && h.mem[r].Byref? && h.mem[r].flags.needsFree
    ensures Owned(Moved(h, s, r)) == Owned(h) + multiset{Mem(r)} + multiset{Mem(r)}
  {
    var h' := Moved(h, s, r);
    var d := h.mem.Keys - h.limbo;
    assert CellShape(r, h.mem[r]);
    assert h'.mem.Keys - h'.limbo == d + {r};
    RefsRemove(h'.mem, d + {r}, r);
    assert d + {r} - {r} == d;
    RefsRemove(h'.mem, d, s);
    RefsRemove(h.mem, d, s);
    RefsSame(h.mem, h'.mem, d - {s});
  }

  lemma MovedBalance(h: Heap, s: Ptr, r: Ptr, owned: multiset<Ref>)
    requires Balanced(h.mem, h.limbo, h.retains, owned) && s in h.mem && h.mem[s].Byref? && s !in h.limbo &&
             !h.mem[s].flags.needsFree
    requires r in h.limbo && OnHeap(h.mem, r) && h.mem[r].flags.count == 2
    ensures Balanced(Moved(h, s, r).mem, Moved(h, s, r).limbo, h.retains, owned + multiset{Mem(r)} + multiset{Mem(r)})
  {
  }

  lemma MovedShape(h: Heap, s: Ptr, r: Ptr)
    requires Shaped(h) && s in h.mem && s !in h.limbo && h.mem[s].Byref? && !h.mem[s].flags.needsFree
    requires r in h.limbo && h.mem[r].Byref? && h.mem[r].flags.needsFree
    ensures Shaped(Moved(h, s, r))
  {
    var h' := Moved(h, s, r);
    forall p | p in h'.mem ensures CellShape(p, h'.mem[p]) {
      assert CellShape(p, h.mem[p]);
    }
    forall p | p in h'.mem && p !in h'.limbo ensures CellLinks(h'.mem, h'.rank, p) {
      assert CellShape(p, h.mem[p]);
      if p != s && p != r {
        assert CellLinks(h.mem, h.rank, p);
        LimboWriteLinks(h.mem, h.rank, s, h'.mem[s], p);
      }
    }
  }
}

/** The stubs of what the archive tool puts out: whether the order of the inputs
    shows in them. */
module ArchiveStubs {
  import opened InterfaceAlgebra
  import opened InterfaceTheorems
  import opened SortedVectors
  import opened InterfaceFiles
  import opened SymbolSets
  import opened InterfaceOperations
  import opened InterfaceCanonical
  import opened TextStubV4
  import opened TextContent
  import opened TextRoundTrip
  import opened TextStubV3
  import opened TextRoundTripV3

  /** What the archive tool can put out for these inputs. */
  ghost predicate MergedFrom(inputs: seq<Interface>, r: Result<Interface>) {
    inputs != [] && Outcome(r) == MergeAll(Contents(inputs)) &&
    (r.Ok? ==> Valid(r.value) && InArrivalOrder(inputs, r.value))
  }

  /** For agreeing inputs in any order, the stub of what the archive tool puts out is
      the same exactly when each symbol meets its targets in the same order; the
      vectors are the same in any case. */
  lemma StubsAgreeIff(fs: seq<Interface>, gs: seq<Interface>, r: Result<Interface>, r': Result<Interface>, t: TBDv4,
                     u: TBDv4)
    requires MergedFrom(fs, r) && MergedFrom(gs, r') && multiset(fs) == multiset(gs) && PairwiseAgree(Contents(fs))
    requires r.Ok? && r'.Ok? ==> WrittenAs(r.value, t) && WrittenAs(r'.value, u)
    ensures r.Ok? <==> r'.Ok?
    ensures r.Ok? ==> (t == u <==>
              forall k :: k in r.value.symbols && Available(r.value.symbols[k]) ==>
                ArrivalOrder(fs, k) == ArrivalOrder(gs, k))
  {
    hide PairwiseAgree, SansPath, Content, Flat, MergeAll, WrittenAs, Available, Members, SameVectors;
    ArchiveVectors(fs, gs, r, r');
    if r.Ok? {
      WrittenAlike(r.value, r'.value, t, u);
      hide OrderOf, ArrivalOrder;
      assert forall k :: OrderOf(r.value.symbols, k) == ArrivalOrder(fs, k);
      assert forall k :: OrderOf(r'.value.symbols, k) == ArrivalOrder(gs, k);
    }
  }

  /** In the older versions the order of agreeing inputs never shows: with targets, what
      comes out in either order is written as the same stub, or as none. */
  lemma OldStubsAgree(fs: seq<Interface>, gs: seq<Interface>, r: Result<Interface>, r': Result<Interface>, version: nat,
                      s: Option<Stub>, s': Option<Stub>)
    requires MergedFrom(fs, r) && MergedFrom(gs, r') && multiset(fs) == multiset(gs) && PairwiseAgree(Contents(fs))
    requires r.Ok? && r.value.targets != []
    ensures r'.Ok? && r'.value.targets != []
    ensures StubWritten(r.value, version, s) && StubWritten(r'.value, version, s') ==> s == s'
  {
    hide PairwiseAgree, SansPath, Content, Flat, MergeAll, StubWritten, SameVectors;
    ArchiveVectors(fs, gs, r, r');
    StubsAlike(r.value, r'.value, s, s', version);
  }

  /** Two inputs with one symbol, each on a target of its own: merged in either
      order they have the same content and different stubs. */
  lemma InputOrderShows(name: string, a: Target, b: Target, r: Result<Interface>, r': Result<Interface>, t: TBDv4,
                          u: TBDv4)
    requires a != b
    requires var one := OneSymbol(SymbolKey(GlobalSymbol, name), OnTargets([a]));
             var two := OneSymbol(SymbolKey(GlobalSymbol, name), OnTargets([b]));
             MergedFrom([one, two], r) && MergedFrom([two, one], r')
    requires r.Ok? && r'.Ok? ==> WrittenAs(r.value, t) && WrittenAs(r'.value, u)
    ensures r.Ok? && r'.Ok? && SansPath(Content(r.value)) == SansPath(Content(r'.value)) && t != u
  {
    hide WrittenAs, SpotsOf;
    var k := SymbolKey(GlobalSymbol, name);
    var one, two := OneSymbol(k, OnTargets([a])), OneSymbol(k, OnTargets([b]));
    var fs, gs := [one, two], [two, one];
    SingletonsAgree(k, a, b);
    SingletonsMerge(k, a, b, r);
    hide PairwiseAgree, SansPath, Content, Flat, MergeAll, WrittenAs, Available, MergedFrom, Agree;
    assert multiset(fs) == multiset(gs);
    SingletonOrders(k, a, b);
    SingletonOrders(k, b, a);
    StubsAgreeIff(fs, gs, r, r', t, u);
    assert MergedFrom(fs, r) && MergedFrom(gs, r');
    ContentAgrees(fs, gs, r, r');
  }

  lemma ContentAgrees(fs: seq<Interface>, gs: seq<Interface>, r: Result<Interface>, r': Result<Interface>)
    requires MergedFrom(fs, r) && MergedFrom(gs, r') && multiset(fs) == multiset(gs) && PairwiseAgree(Contents(fs))
    ensures r.Ok? <==> r'.Ok?
    ensures r.Ok? ==> SansPath(Content(r.value)) == SansPath(Content(r'.value))
  {
    hide PairwiseAgree, SansPath, Content, Flat, MergeAll;
    ArchiveVectors(fs, gs, r, r');
  }

  lemma SingletonOrders(k: SymbolKey, a: Target, b: Target)
    requires a != b
    ensures ArrivalOrder([OneSymbol(k, OnTargets([a])), OneSymbol(k, OnTargets([b]))], k) == [a, b]
  {
    var one, two := OneSymbol(k, OnTargets([a])), OneSymbol(k, OnTargets([b]));
    assert [one, two][..1] == [one] && [one][..0] == [] && [b][..0] == [];
    assert OrderOf(one.symbols, k) == [a] && OrderOf(two.symbols, k) == [b];
    AppendedToNothing([a]);
    assert ArrivalOrder([one], k) == Appended(ArrivalOrder([], k), [a]) == [a];
    assert ArrivalOrder([one, two], k) == Appended([a], [b]);
    assert Appended([a], [b]) == [a] + [b];
  }

  lemma SingletonsAgree(k: SymbolKey, a: Target, b: Target)
    ensures PairwiseAgree(Contents([OneSymbol(k, OnTargets([a])), OneSymbol(k, OnTargets([b]))]))
  {
    var one, two := OneSymbol(k, OnTargets([a])), OneSymbol(k, OnTargets([b]));
    assert [one, two][1..] == [two] && [two][1..] == [];
    assert Contents([one, two]) == [Content(one), Content(two)];
    assert Agree(Content(one), Content(two));
  }

  lemma SingletonsMerge(k: SymbolKey, a: Target, b: Target, r: Result<Interface>)
    requires MergedFrom([OneSymbol(k, OnTargets([a])), OneSymbol(k, OnTargets([b]))], r)
    ensures r.Ok? && k in r.value.symbols && Available(r.value.symbols[k])
  {
    var one, two := OneSymbol(k, OnTargets([a])), OneSymbol(k, OnTargets([b]));
    assert [one, two][1..] == [two] && [two][1..] == [];
    assert Contents([one, two]) == [Content(one), Content(two)];
    assert Compatible(Content(one), Content(two));
    var u := Union(Content(one), Content(two));
    MergeTwo(Content(one), Content(two));
    assert Content(r.value) == u;
    SymbolsAt(r.value.symbols, k);
    assert k in u.symbols && a in u.symbols[k].avail && u.symbols[k].avail[a] == DEFAULT;
    AvailableIs(r.value.symbols[k]);
  }
}

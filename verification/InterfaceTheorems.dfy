/** How extract, remove and merge fit together. */
module InterfaceTheorems {
  import opened InterfaceAlgebra

  // ----- split, then join -----

  /** What is left of a symbol that was split at `a` and joined again. */
  function Rejoined(k: SymbolKey, s: Symbol, a: Arch): Symbol {
    FreshSymbol(k, s).(avail := map t | t in s.avail && (t.arch == a || t.arch in UsableArchs(s)) :: DEFAULT)
  }

  lemma SplitJoinSymbol(symbols: map<SymbolKey, Symbol>, a: Arch, k: SymbolKey)
    requires k in symbols && a != AK_UNKNOWN
    ensures k in MergeSymbols(ExtractSymbols(symbols, a), RemoveSymbols(symbols, a))
    ensures MergeSymbols(ExtractSymbols(symbols, a), RemoveSymbols(symbols, a))[k] == Rejoined(k, symbols[k], a)
  {
    hide UsableArchs;
    var s := symbols[k];
    var others := UsableArchs(s) - {a};
    var kept := Renewed(k, RestrictSymbol(s, Single(a)));
    assert kept == ExtractSymbols(symbols, a)[k];
    assert forall x :: x in UsableArchs(s) ==> x == a || x in others;
    if others == {} {
      assert Renewed(k, kept).avail == Rejoined(k, s, a).avail;
    } else {
      var rest := Renewed(k, RestrictSymbol(s, others));
      assert rest == RemoveSymbols(symbols, a)[k];
      assert Joined(k, kept, rest).avail == Rejoined(k, s, a).avail;
    }
  }

  /** Extracting an architecture, removing it, and merging the two halves gives
      back the file without its documents, with each symbol renewed. */
  lemma SplitJoin(f: File, a: Arch)
    requires Extract(f, a).Ok? && Remove(f, a).Ok?
    ensures a != AK_UNKNOWN
    ensures Merge(Extract(f, a).value, Remove(f, a).value)
         == Ok(f.(documents := [], symbols := map k | k in f.symbols :: Rejoined(k, f.symbols[k], a)))
  {
    hide MergeSymbols, ExtractSymbols, RemoveSymbols, Rejoined, ExtractAll, RemoveAll;
    var e, r := Extract(f, a).value, Remove(f, a).value;
    var u := Union(e, r);
    assert u.targets == f.targets;
    assert u.clients == f.clients;
    assert u.reexports == f.reexports;
    assert u.uuids == f.uuids;
    assert u.umbrellas == f.umbrellas;
    SplitJoinSymbols(f.symbols, a);
  }

  lemma SplitJoinSymbols(symbols: map<SymbolKey, Symbol>, a: Arch)
    requires a != AK_UNKNOWN
    ensures MergeSymbols(ExtractSymbols(symbols, a), RemoveSymbols(symbols, a))
         == map k | k in symbols :: Rejoined(k, symbols[k], a)
  {
    var joined := MergeSymbols(ExtractSymbols(symbols, a), RemoveSymbols(symbols, a));
    assert joined.Keys == symbols.Keys;
    forall k | k in symbols ensures k in joined && joined[k] == Rejoined(k, symbols[k], a) {
      hide MergeSymbols, ExtractSymbols, RemoveSymbols, Rejoined;
      SplitJoinSymbol(symbols, a, k);
    }
  }

  /** The symbols come back as they were exactly when every availability was the
      default and, apart from `a`, every target has a known architecture. */
  lemma SplitJoinIsIdentity(f: File, a: Arch)
    requires Extract(f, a).Ok? && Remove(f, a).Ok? && SymbolsOk(f.symbols)
    ensures Merge(Extract(f, a).value, Remove(f, a).value) == Ok(f.(documents := []))
       <==> forall k, t :: k in f.symbols && t in f.symbols[k].avail ==> Plain(f.symbols[k], t)
  {
    hide Extract, Remove, Merge, Rejoined, Plain;
    SplitJoin(f, a);
    var rejoined := map k | k in f.symbols :: Rejoined(k, f.symbols[k], a);
    if forall k, t :: k in f.symbols && t in f.symbols[k].avail ==> Plain(f.symbols[k], t) {
      forall k | k in f.symbols ensures rejoined[k] == f.symbols[k] {
        RejoinedAll(k, f.symbols[k], a);
      }
      assert rejoined == f.symbols;
    }
    if rejoined == f.symbols {
      forall k, t | k in f.symbols && t in f.symbols[k].avail ensures Plain(f.symbols[k], t) {
        assert Rejoined(k, f.symbols[k], a) == f.symbols[k];
        RejoinedPlain(k, f.symbols[k], a, t);
      }
    }
  }

  predicate Plain(s: Symbol, t: Target)
    requires t in s.avail
  {
    s.avail[t] == DEFAULT && t.arch != AK_UNKNOWN
  }

  lemma RejoinedPlain(k: SymbolKey, s: Symbol, a: Arch, t: Target)
    requires Rejoined(k, s, a) == s && t in s.avail && a != AK_UNKNOWN
    ensures Plain(s, t)
  {
    assert Rejoined(k, s, a).avail[t] == DEFAULT;
  }

  lemma RejoinedAll(k: SymbolKey, s: Symbol, a: Arch)
    requires k.kind != GlobalSymbol ==> s.flags == NO_FLAGS
    requires forall t :: t in s.avail ==> Plain(s, t)
    ensures Rejoined(k, s, a) == s
  {
    forall t | t in s.avail ensures t.arch in UsableArchs(s) && s.avail[t] == DEFAULT {
      assert Plain(s, t);
      var usable := set u | u in s.avail && Usable(s.avail[u]);
      assert t in usable;
    }
    assert Rejoined(k, s, a).avail == s.avail;
  }

  // ----- merge as a partial operation -----

  function NormalForm(f: File): File {
    f.(documents := [], symbols := map k | k in f.symbols :: Renewed(k, f.symbols[k]))
  }

  lemma MergeWithItself(f: File)
    ensures Merge(f, f) == Ok(NormalForm(f))
  {
    var u := Union(f, f);
    assert u.targets == f.targets && u.umbrellas == f.umbrellas && u.uuids == f.uuids;
    assert u.clients == f.clients && u.reexports == f.reexports;
    forall k | k in f.symbols ensures u.symbols[k] == Renewed(k, f.symbols[k]) {
      assert u.symbols[k].avail == Renewed(k, f.symbols[k]).avail;
    }
    assert u.symbols == NormalForm(f).symbols;
  }

  /** Merge is idempotent exactly on files without documents whose symbols are
      all available by default. */
  lemma MergeIdempotent(f: File)
    requires SymbolsOk(f.symbols)
    ensures Merge(f, f) == Ok(f) <==>
      f.documents == [] && forall k, t :: k in f.symbols && t in f.symbols[k].avail ==> f.symbols[k].avail[t] == DEFAULT
  {
    MergeWithItself(f);
    var normal := NormalForm(f).symbols;
    if forall k, t :: k in f.symbols && t in f.symbols[k].avail ==> f.symbols[k].avail[t] == DEFAULT {
      forall k | k in f.symbols ensures normal[k] == f.symbols[k] {
        assert normal[k].avail == f.symbols[k].avail;
      }
      assert normal == f.symbols;
    }
    if normal == f.symbols {
      forall k, t | k in f.symbols && t in f.symbols[k].avail ensures f.symbols[k].avail[t] == DEFAULT {
        assert normal[k].avail == f.symbols[k].avail;
      }
    }
  }

  // ----- associativity -----

  /** Updating access is associative except on one triple. */
  lemma AccessAssociative(x: Access, y: Access, z: Access)
    ensures UpdateAccess(UpdateAccess(x, y), z) == UpdateAccess(x, UpdateAccess(y, z))
       <==> !(x == Private && y == Project && z == Public)
  {
  }

  /** Both groupings of three merges. */
  function LeftFirst(f: File, g: File, h: File): Result<File> {
    match Merge(f, g)
    case Err(e) => Err(e)
    case Ok(fg) => Merge(fg, h)
  }

  function RightFirst(f: File, g: File, h: File): Result<File> {
    match Merge(g, h)
    case Err(e) => Err(e)
    case Ok(gh) => Merge(f, gh)
  }

  /** Some symbol of all three is declared private, project and public, in this
      order. */
  predicate AccessClash(f: File, g: File, h: File) {
    exists k :: k in f.symbols && k in g.symbols && k in h.symbols &&
      f.symbols[k].access == Private && g.symbols[k].access == Project && h.symbols[k].access == Public
  }

  lemma JoinedRenewed(k: SymbolKey, s: Symbol, t: Symbol)
    ensures Renewed(k, Renewed(k, s)) == Renewed(k, s)
    ensures Joined(k, Renewed(k, s), t) == Joined(k, s, t) == Joined(k, s, Renewed(k, t)) == Renewed(k, Joined(k, s, t))
  {
    assert Renewed(k, Renewed(k, s)).avail == Renewed(k, s).avail;
    var avail := Joined(k, s, t).avail;
    assert Joined(k, Renewed(k, s), t).avail == avail;
    assert Joined(k, s, Renewed(k, t)).avail == avail;
    assert Renewed(k, Joined(k, s, t)).avail == avail;
  }

  lemma JoinedAssociative(k: SymbolKey, s: Symbol, t: Symbol, u: Symbol)
    ensures Joined(k, Joined(k, s, t), u) == Joined(k, s, Joined(k, t, u))
       <==> !(s.access == Private && t.access == Project && u.access == Public)
  {
    assert Joined(k, Joined(k, s, t), u).avail == Joined(k, s, Joined(k, t, u)).avail;
  }

  lemma AssociativeSymbol(f: map<SymbolKey, Symbol>, g: map<SymbolKey, Symbol>, h: map<SymbolKey, Symbol>, k: SymbolKey)
    requires k in f || k in g || k in h
    ensures k in MergeSymbols(MergeSymbols(f, g), h) && k in MergeSymbols(f, MergeSymbols(g, h))
    ensures MergeSymbols(MergeSymbols(f, g), h)[k] == MergeSymbols(f, MergeSymbols(g, h))[k]
       <==> !(k in f && k in g && k in h && f[k].access == Private && g[k].access == Project && h[k].access == Public)
  {
    hide Renewed, Joined;
    if k in f && k in g { JoinedRenewed(k, f[k], g[k]); }
    if k in f && k in h { JoinedRenewed(k, f[k], h[k]); }
    if k in g && k in h { JoinedRenewed(k, g[k], h[k]); }
    if k in f { JoinedRenewed(k, f[k], f[k]); }
    if k in h { JoinedRenewed(k, h[k], h[k]); }
    if k in g { JoinedRenewed(k, g[k], g[k]); }
    if k in f && k in g && k in h { JoinedAssociative(k, f[k], g[k], h[k]); }
  }

  /** Merge is associative, failure included, exactly when no symbol's access
      clashes. */
  lemma MergeAssociative(f: File, g: File, h: File)
    ensures LeftFirst(f, g, h).Ok? <==> RightFirst(f, g, h).Ok?
    ensures LeftFirst(f, g, h).Ok? ==> (LeftFirst(f, g, h) == RightFirst(f, g, h) <==> !AccessClash(f, g, h))
  {
    hide Union;
    UnionHeader(f, g);
    UnionHeader(g, h);
    if LeftFirst(f, g, h).Ok? {
      UnionAssociative(f, g, h);
    }
  }

  lemma UnionHeader(f: File, g: File)
    ensures Union(f, g).header == f.header
    ensures Union(f, g).swiftVersion == if f.swiftVersion == 0 then g.swiftVersion else f.swiftVersion
  {
  }

  lemma UnionAssociative(f: File, g: File, h: File)
    requires f.header == g.header == h.header
    ensures Union(Union(f, g), h) == Union(f, Union(g, h)) <==> !AccessClash(f, g, h)
  {
    hide MergeSymbols, Later, AccessClash;
    SetsAssociate(f.targets, g.targets, h.targets);
    SetsAssociate(f.clients, g.clients, h.clients);
    SetsAssociate(f.reexports, g.reexports, h.reexports);
    MapsAssociate(f.umbrellas, g.umbrellas, h.umbrellas);
    MapsAssociate(f.uuids, g.uuids, h.uuids);
    LaterAssociates(f.fileType, g.fileType, h.fileType);
    AssociativeSymbols(f.symbols, g.symbols, h.symbols);
    assert AccessClash(f, g, h) <==> !NoClash(f.symbols, g.symbols, h.symbols) by { ClashIff(f, g, h); }
  }

  lemma SetsAssociate<T>(a: set<T>, b: set<T>, c: set<T>)
    ensures a + b + c == a + (b + c)
  {
  }

  lemma MapsAssociate<K, V>(a: map<K, V>, b: map<K, V>, c: map<K, V>)
    ensures a + b + c == a + (b + c)
  {
  }

  lemma LaterAssociates(u: Version, v: Version, w: Version)
    ensures Later(Later(u, v), w) == Later(u, Later(v, w))
  {
  }

  predicate NoClash(f: map<SymbolKey, Symbol>, g: map<SymbolKey, Symbol>, h: map<SymbolKey, Symbol>) {
    forall k :: k in f && k in g && k in h ==>
      !(f[k].access == Private && g[k].access == Project && h[k].access == Public)
  }

  lemma ClashIff(f: File, g: File, h: File)
    ensures AccessClash(f, g, h) <==> !NoClash(f.symbols, g.symbols, h.symbols)
  {
  }

  lemma AssociativeSymbols(f: map<SymbolKey, Symbol>, g: map<SymbolKey, Symbol>, h: map<SymbolKey, Symbol>)
    ensures MergeSymbols(MergeSymbols(f, g), h) == MergeSymbols(f, MergeSymbols(g, h))
       <==> NoClash(f, g, h)
  {
    hide Renewed, Joined;
    var left, right := MergeSymbols(MergeSymbols(f, g), h), MergeSymbols(f, MergeSymbols(g, h));
    assert left.Keys == right.Keys;
    forall k | k in f || k in g || k in h
      ensures k in left && k in right
      ensures left[k] == right[k]
           <==>
              !(k in f && k in g && k in h && f[k].access == Private && g[k].access == Project && h[k].access == Public)
    {
      hide MergeSymbols;
      AssociativeSymbol(f, g, h, k);
    }
  }

  // ----- commutativity -----

  predicate MapsAgree<K, V(==)>(m: map<K, V>, n: map<K, V>) {
    forall x :: x in m && x in n ==> m[x] == n[x]
  }

  lemma MapsCommute<K, V>(m: map<K, V>, n: map<K, V>)
    ensures m + n == n + m <==> MapsAgree(m, n)
  {
    if m + n == n + m {
      forall x | x in m && x in n ensures m[x] == n[x] {
        assert (m + n)[x] == (n + m)[x];
      }
    }
  }

  /** Project declarations do not mix with private or public ones. */
  predicate AccessAgrees(x: Access, y: Access) {
    x == NoAccess || y == NoAccess || (x == Project <==> y == Project)
  }

  predicate SymbolAgrees(k: SymbolKey, s: Symbol, t: Symbol) {
    s.linkage == t.linkage && (k.kind == GlobalSymbol ==> s.flags == t.flags) && AccessAgrees(s.access, t.access)
  }

  predicate SymbolsAgree(m: map<SymbolKey, Symbol>, n: map<SymbolKey, Symbol>) {
    forall k :: k in m && k in n ==> SymbolAgrees(k, m[k], n[k])
  }

  /** The two files say the same wherever they speak of the same thing. */
  predicate Agree(f: File, g: File) {
    MapsAgree(f.umbrellas, g.umbrellas) && MapsAgree(f.uuids, g.uuids) && SymbolsAgree(f.symbols, g.symbols)
  }

  lemma JoinedCommutes(k: SymbolKey, s: Symbol, t: Symbol)
    ensures Joined(k, s, t) == Joined(k, t, s) <==> SymbolAgrees(k, s, t)
  {
    assert Joined(k, s, t).avail == Joined(k, t, s).avail;
  }

  lemma SymbolsCommute(m: map<SymbolKey, Symbol>, n: map<SymbolKey, Symbol>)
    ensures MergeSymbols(m, n) == MergeSymbols(n, m) <==> SymbolsAgree(m, n)
  {
    hide Joined, Renewed, SymbolAgrees;
    var mn, nm := MergeSymbols(m, n), MergeSymbols(n, m);
    assert mn.Keys == nm.Keys;
    forall k | k in m && k in n ensures mn[k] == nm[k] <==> SymbolAgrees(k, m[k], n[k]) {
      JoinedCommutes(k, m[k], n[k]);
    }
    if SymbolsAgree(m, n) {
      forall k | k in mn ensures mn[k] == nm[k] {
      }
    }
  }

  function SansPath(f: File): File {
    f.(path := "")
  }

  /** Merging the other way round gives the same file, up to its path, exactly
      when the two agree. */
  lemma MergeCommutes(f: File, g: File)
    ensures Merge(f, g).Ok? <==> Merge(g, f).Ok?
    ensures Merge(f, g).Ok? ==> (SansPath(Merge(f, g).value) == SansPath(Merge(g, f).value) <==> Agree(f, g))
  {
    hide MergeSymbols, Later, SymbolsAgree;
    if Merge(f, g).Ok? {
      assert f.targets + g.targets == g.targets + f.targets;
      assert f.clients + g.clients == g.clients + f.clients;
      assert f.reexports + g.reexports == g.reexports + f.reexports;
      MapsCommute(f.umbrellas, g.umbrellas);
      MapsCommute(f.uuids, g.uuids);
      LaterCommutes(f.fileType, g.fileType);
      SymbolsCommute(f.symbols, g.symbols);
    }
  }

  lemma LaterCommutes(u: Version, v: Version)
    ensures Later(u, v) == Later(v, u)
  {
  }

  // ----- the archive fold -----

  ghost predicate PairwiseAgree(fs: seq<File>) {
    forall i, j :: 0 <= i < j < |fs| ==> Agree(fs[i], fs[j])
  }

  lemma AgreeSymmetric(f: File, g: File)
    ensures Agree(f, g) <==> Agree(g, f)
  {
  }

  /** A union agrees with whatever both parts agree with. */
  lemma AgreeUnion(f: File, g: File, h: File)
    requires Agree(f, g) && Agree(f, h) && Agree(g, h)
    ensures Agree(Union(f, g), h) && !AccessClash(f, g, h)
  {
    hide Later;
    var u := Union(f, g);
    assert MapsAgree(u.umbrellas, h.umbrellas) && MapsAgree(u.uuids, h.uuids);
    forall k | k in u.symbols && k in h.symbols ensures SymbolAgrees(k, u.symbols[k], h.symbols[k]) {
      AgreeSymbol(f.symbols, g.symbols, h.symbols, k);
    }
    forall k | k in f.symbols && k in g.symbols
      ensures SymbolAgrees(k, f.symbols[k], g.symbols[k])
    {
    }
  }

  lemma AgreeSymbol(f: map<SymbolKey, Symbol>, g: map<SymbolKey, Symbol>, h: map<SymbolKey, Symbol>, k: SymbolKey)
    requires SymbolsAgree(f, g) && SymbolsAgree(f, h) && SymbolsAgree(g, h)
    requires (k in f || k in g) && k in h
    ensures k in MergeSymbols(f, g) && SymbolAgrees(k, MergeSymbols(f, g)[k], h[k])
  {
    if k in f { assert SymbolAgrees(k, f[k], h[k]); }
    if k in g { assert SymbolAgrees(k, g[k], h[k]); }
  }

  /** Two neighbouring inputs can change places. */
  lemma SwapInputs(f: File, g: File, h: File)
    requires Agree(f, g) && Agree(f, h) && Agree(g, h)
    ensures LeftFirst(f, g, h).Ok? <==> LeftFirst(f, h, g).Ok?
    ensures LeftFirst(f, g, h).Ok? ==> LeftFirst(f, g, h) == LeftFirst(f, h, g)
  {
    hide Union, Agree, AccessClash, SansPath;
    AgreeSymmetric(g, h);
    MergeAssociative(f, g, h);
    MergeAssociative(f, h, g);
    AgreeUnion(f, g, h);
    AgreeUnion(f, h, g);
    MergeCommutes(g, h);
    if Merge(g, h).Ok? {
      UnionIgnoresPath(f, Union(g, h), Union(h, g));
    }
  }

  lemma UnionIgnoresPath(f: File, g: File, g': File)
    requires SansPath(g) == SansPath(g')
    ensures Merge(f, g) == Merge(f, g')
  {
    assert g'.targets == SansPath(g').targets && g.targets == SansPath(g).targets;
  }

  /** The result of merging inputs into an output, with two neighbours swapped. */
  lemma {:induction false} FrontSwap(output: File, f: File, g: File, rest: seq<File>)
    requires Agree(output, f) && Agree(output, g) && Agree(f, g)
    ensures SameOutcome(MergeInto(output, [f, g] + rest), MergeInto(output, [g, f] + rest))
  {
    hide Merge, Agree;
    SwapInputs(output, f, g);
    TwoInputs(output, f, g, rest);
    TwoInputs(output, g, f, rest);
  }

  lemma TwoInputs(output: File, f: File, g: File, rest: seq<File>)
    ensures var r := LeftFirst(output, f, g);
            && (r.Ok? ==> MergeInto(output, [f, g] + rest) == MergeInto(r.value, rest))
            && (!r.Ok? ==> MergeInto(output, [f, g] + rest).Err?)
  {
    hide Merge;
    assert ([f, g] + rest)[1..] == [g] + rest;
    assert ([g] + rest)[1..] == rest;
  }

  predicate SameOutcome(r: Result<File>, r': Result<File>) {
    if r.Ok? then r' == r else r'.Err?
  }

  /** All inputs and the output so far agree with each other. */
  ghost predicate AllAgree(output: File, inputs: seq<File>) {
    PairwiseAgree([output] + inputs)
  }

  lemma AllAgreeParts(output: File, inputs: seq<File>, i: nat, j: nat)
    requires AllAgree(output, inputs) && i < |inputs| && j < |inputs| && i != j
    ensures Agree(output, inputs[i]) && Agree(inputs[i], inputs[j])
  {
    var all := [output] + inputs;
    assert all[0] == output && all[i + 1] == inputs[i] && all[j + 1] == inputs[j];
    assert Agree(all[0], all[i + 1]);
    if i < j {
      assert Agree(all[i + 1], all[j + 1]);
    } else {
      assert Agree(all[j + 1], all[i + 1]);
      AgreeSymmetric(all[j + 1], all[i + 1]);
    }
  }

  /** After merging the first input in, agreement goes on. */
  lemma AllAgreeNext(output: File, inputs: seq<File>)
    requires AllAgree(output, inputs) && inputs != []
    ensures AllAgree(Union(output, inputs[0]), inputs[1..])
  {
    hide Agree, Union;
    var u := Union(output, inputs[0]);
    var all, next := [output] + inputs, [u] + inputs[1..];
    forall i, j | 0 <= i < j < |next| ensures Agree(next[i], next[j]) {
      assert all[1] == inputs[0] && next[j] == all[j + 1];
      assert Agree(all[0], all[1]) && Agree(all[0], all[j + 1]) && Agree(all[1], all[j + 1]);
      if i == 0 {
        AgreeUnion(output, inputs[0], all[j + 1]);
      } else {
        assert next[i] == all[i + 1];
      }
    }
  }

  lemma MergedIsUnion(f: File, g: File)
    ensures Merge(f, g).Ok? ==> Merge(f, g) == Ok(Union(f, g))
  {
  }

  /** Any one input may come first. */
  lemma {:induction false} BringToFront(output: File, inputs: seq<File>, i: nat)
    requires AllAgree(output, inputs) && i < |inputs|
    ensures SameOutcome(MergeInto(output, inputs), MergeInto(output, [inputs[i]] + (inputs[..i] + inputs[i + 1..])))
    decreases |inputs|
  {
    MergedIsUnion(output, inputs[0]);
    hide Agree, Union, Merge;
    if i == 0 {
      assert inputs == [inputs[0]] + (inputs[..0] + inputs[1..]);
    } else {
      var f, x, tail := inputs[0], inputs[i], inputs[1..];
      var rest := tail[..i - 1] + tail[i..];
      if Merge(output, f).Ok? {
        AllAgreeNext(output, inputs);
        BringToFront(Union(output, f), tail, i - 1);
        assert tail[i - 1] == x;
      }
      AllAgreeParts(output, inputs, 0, i);
      AllAgreeParts(output, inputs, i, 0);
      FrontSwap(output, f, x, rest);
      assert inputs == [f] + tail;
      assert ([f, x] + rest)[1..] == [x] + rest;
      assert [x] + (inputs[..i] + inputs[i + 1..]) == [x, f] + rest;
    }
  }

  /** The archive merge gives the same file for every order of the further
      inputs, as long as they agree. */
  lemma {:induction false} OrderOfInputs(output: File, inputs: seq<File>, inputs': seq<File>)
    requires multiset(inputs) == multiset(inputs') && AllAgree(output, inputs)
    ensures SameOutcome(MergeInto(output, inputs), MergeInto(output, inputs'))
    decreases |inputs|
  {
    hide Agree, Union;
    assert |inputs| == |multiset(inputs)| == |multiset(inputs')| == |inputs'|;
    if inputs' != [] {
      var x := inputs'[0];
      assert x in multiset(inputs');
      var i :| 0 <= i < |inputs| && inputs[i] == x;
      BringToFront(output, inputs, i);
      var rest := inputs[..i] + inputs[i + 1..];
      FrontAgrees(output, inputs, i);
      SameRest(inputs, inputs', i);
      if Merge(output, x).Ok? {
        AllAgreeNext(output, [x] + rest);
        OrderOfInputs(Union(output, x), rest, inputs'[1..]);
      }
    }
  }

  lemma WithoutOne(s: seq<File>, i: nat)
    requires i < |s|
    ensures multiset(s) == multiset(s[..i] + s[i + 1..]) + multiset{s[i]}
  {
    assert s == s[..i] + [s[i]] + s[i + 1..];
  }

  lemma Cancel<T>(m: multiset<T>, n: multiset<T>, x: T)
    requires m + multiset{x} == n + multiset{x}
    ensures m == n
  {
    assert m == (m + multiset{x}) - multiset{x};
    assert n == (n + multiset{x}) - multiset{x};
  }

  lemma SameRest(s: seq<File>, s': seq<File>, i: nat)
    requires i < |s| && s' != [] && multiset(s) == multiset(s') && s[i] == s'[0]
    ensures multiset(s[..i] + s[i + 1..]) == multiset(s'[1..])
  {
    WithoutOne(s, i);
    WithoutOne(s', 0);
    assert s'[..0] + s'[1..] == s'[1..];
    Cancel(multiset(s[..i] + s[i + 1..]), multiset(s'[1..]), s[i]);
  }

  lemma FrontAgrees(output: File, inputs: seq<File>, i: nat)
    requires AllAgree(output, inputs) && i < |inputs|
    ensures AllAgree(output, [inputs[i]] + (inputs[..i] + inputs[i + 1..]))
  {
    hide Agree;
    var moved := [inputs[i]] + (inputs[..i] + inputs[i + 1..]);
    var all, next := [output] + inputs, [output] + moved;
    forall a, b | 0 <= a < b < |next| ensures Agree(next[a], next[b]) {
      var p := if a == 0 then 0 else if a == 1 then i + 1 else if a - 1 <= i then a - 1 else a;
      var q := if b == 1 then i + 1 else if b - 1 <= i then b - 1 else b;
      assert next[a] == all[p] && next[b] == all[q] && p != q;
      if p < q { assert Agree(all[p], all[q]); } else { assert Agree(all[q], all[p]); AgreeSymmetric(all[q], all[p]); }
    }
  }

  /** What the archive tool writes for these inputs. */
  function MergeAll(inputs: seq<File>): Result<File>
    requires inputs != []
  {
    MergeInto(inputs[0], inputs[1..])
  }

  lemma MergeTwo(f: File, g: File)
    ensures MergeAll([f, g]) == Merge(f, g)
  {
    assert [f, g][1..] == [g] && [g][1..] == [];
    MergedIsUnion(f, g);
    hide Merge, Union;
    if Merge(f, g).Ok? {
      assert MergeInto(Merge(f, g).value, []) == Merge(f, g);
    }
  }

  predicate SameContent(r: Result<File>, r': Result<File>) {
    if r.Ok? then r'.Ok? && SansPath(r'.value) == SansPath(r.value) else r'.Err?
  }

  lemma {:induction false} PathPassesThrough(output: File, output': File, inputs: seq<File>)
    requires SansPath(output) == SansPath(output')
    ensures SameContent(MergeInto(output, inputs), MergeInto(output', inputs))
    decreases |inputs|
  {
    if inputs != [] {
      UnionPath(output, output', inputs[0]);
      if Merge(output, inputs[0]).Ok? {
        PathPassesThrough(Union(output, inputs[0]), Union(output', inputs[0]), inputs[1..]);
      }
    }
  }

  lemma UnionPath(f: File, f': File, g: File)
    requires SansPath(f) == SansPath(f')
    ensures Merge(f, g).Ok? <==> Merge(f', g).Ok?
    ensures SansPath(Union(f, g)) == SansPath(Union(f', g))
  {
    assert f'.targets == SansPath(f').targets && f.targets == SansPath(f).targets;
  }

  lemma {:induction false} FirstTwo(f: File, g: File, rest: seq<File>)
    requires Agree(f, g)
    ensures SameContent(MergeInto(f, [g] + rest), MergeInto(g, [f] + rest))
  {
    hide Agree, Union, SansPath;
    assert ([g] + rest)[1..] == rest && ([f] + rest)[1..] == rest;
    MergeCommutes(f, g);
    if Merge(f, g).Ok? {
      PathPassesThrough(Union(f, g), Union(g, f), rest);
    }
  }

  /** Whatever order its agreeing inputs come in, the archive tool succeeds or
      fails alike and writes the same content; only the recorded path can differ. */
  lemma {:induction false} ArchiveOrder(fs: seq<File>, gs: seq<File>)
    requires fs != [] && multiset(fs) == multiset(gs) && PairwiseAgree(fs)
    ensures gs != [] && SameContent(MergeAll(fs), MergeAll(gs))
  {
    hide Agree, Union, SansPath;
    assert |fs| == |multiset(fs)| == |multiset(gs)| == |gs|;
    var a, b := fs[0], gs[0];
    if a == b {
      SameRest(fs, gs, 0);
      assert fs[..0] + fs[1..] == fs[1..];
      assert [a] + fs[1..] == fs;
      OrderOfInputs(a, fs[1..], gs[1..]);
    } else {
      assert b in multiset(gs);
      var i :| 0 <= i < |fs| && fs[i] == b;
      FirstDiffers(fs, gs, i);
    }
  }

  lemma FirstDiffers(fs: seq<File>, gs: seq<File>, i: nat)
    requires 0 < i < |fs| && gs != [] && multiset(fs) == multiset(gs) && PairwiseAgree(fs) && fs[i] == gs[0]
    ensures SameContent(MergeAll(fs), MergeAll(gs))
  {
    hide Agree, Union, SansPath, PairwiseAgree, MergeInto;
    var a, b, rest := fs[0], gs[0], fs[1..i] + fs[i + 1..];
    MoveFirst(fs, gs, i);
    assert [a] + fs[1..] == fs;
    OrderOfInputs(a, fs[1..], [b] + rest);
    FirstAgrees(fs, i);
    FirstTwo(a, b, rest);
    SecondAgrees(fs, i);
    OrderOfInputs(b, [a] + rest, gs[1..]);
  }

  lemma MoveFirst(fs: seq<File>, gs: seq<File>, i: nat)
    requires 0 < i < |fs| && gs != [] && multiset(fs) == multiset(gs) && fs[i] == gs[0]
    ensures var rest := fs[1..i] + fs[i + 1..];
            multiset(fs[1..]) == multiset([gs[0]] + rest) && multiset([fs[0]] + rest) == multiset(gs[1..])
  {
    SplitAt(fs, i);
    SameRest(fs, gs, i);
    assert fs[..i] + fs[i + 1..] == [fs[0]] + (fs[1..i] + fs[i + 1..]);
  }

  lemma FirstAgrees(fs: seq<File>, i: nat)
    requires 0 < i < |fs| && PairwiseAgree(fs)
    ensures Agree(fs[0], fs[i])
  {
  }

  lemma SplitAt(fs: seq<File>, i: nat)
    requires 0 < i < |fs|
    ensures multiset(fs[1..]) == multiset(fs[1..i] + fs[i + 1..]) + multiset{fs[i]}
    ensures multiset(fs) == multiset(fs[1..]) + multiset{fs[0]}
  {
    assert fs[1..] == fs[1..i] + [fs[i]] + fs[i + 1..];
    assert fs == [fs[0]] + fs[1..];
  }

  lemma SecondAgrees(fs: seq<File>, i: nat)
    requires 0 < i < |fs| && PairwiseAgree(fs)
    ensures AllAgree(fs[i], [fs[0]] + (fs[1..i] + fs[i + 1..]))
  {
    hide Agree;
    var next := [fs[i]] + ([fs[0]] + (fs[1..i] + fs[i + 1..]));
    forall a, b | 0 <= a < b < |next| ensures Agree(next[a], next[b]) {
      var p := if a == 0 then i else if a - 1 < i then a - 1 else a;
      var q := if b - 1 < i then b - 1 else b;
      assert next[a] == fs[p] && next[b] == fs[q] && p != q;
      if p < q { assert Agree(fs[p], fs[q]); } else { assert Agree(fs[q], fs[p]); AgreeSymmetric(fs[q], fs[p]); }
    }
  }

  // ----- files on which the laws fail -----

  const SAMPLE := SymbolKey(GlobalSymbol, "_sample")

  /** A file with one exported symbol. */
  function Sample(ts: set<Target>, access: Access, avail: map<Target, Availability>): File {
    File(Header("", 0, 0, true, true, false), Version(0, 0), "", 0, ts, map[], {}, {}, map[],
         map[SAMPLE := Symbol(Exported, NO_FLAGS, access, avail)], [])
  }

  /** Split and join lose the target on which a symbol is unavailable. */
  lemma SplitJoinLoses()
    ensures var near, far := Target(1, 1), Target(3, 1);
            var f := Sample({near, far}, Public, map[near := DEFAULT, far := Availability(0, 0, true)]);
            && Extract(f, 1).Ok? && Remove(f, 1).Ok?
            && var joined := Merge(Extract(f, 1).value, Remove(f, 1).value);
               joined.Ok? && far in f.symbols[SAMPLE].avail && far !in joined.value.symbols[SAMPLE].avail
  {
    var near, far := Target(1, 1), Target(3, 1);
    var avail := map[near := DEFAULT, far := Availability(0, 0, true)];
    var f := Sample({near, far}, Public, avail);
    TwoArchs(near, far, avail);
    hide ArchsOf, MergeSymbols, ExtractSymbols, RemoveSymbols, Rejoined, Merge;
    assert Extract(f, 1).Ok? && Remove(f, 1).Ok?;
    SplitJoin(f, 1);
  }

  lemma TwoArchs(near: Target, far: Target, avail: map<Target, Availability>)
    requires near.arch == 1 && far.arch == 3 && avail == map[near := DEFAULT, far := Availability(0, 0, true)]
    ensures ArchsOf({near, far}) == {1, 3}
    ensures far !in Rejoined(SAMPLE, Symbol(Exported, NO_FLAGS, Public, avail), 1).avail
  {
    assert near in {near, far} && far in {near, far};
  }

  /** Merged with itself, a file forgets that a symbol is unavailable. */
  lemma MergeForgets(t: Target)
    ensures var f := Sample({t}, Public, map[t := Availability(0, 0, true)]);
            Merge(f, f) != Ok(f) && Merge(f, f).value.symbols[SAMPLE].avail == map[t := DEFAULT]
  {
    var f := Sample({t}, Public, map[t := Availability(0, 0, true)]);
    MergeWithItself(f);
    assert NormalForm(f).symbols[SAMPLE].avail == map[t := DEFAULT];
    assert f.symbols[SAMPLE].avail[t] != DEFAULT;
  }

  /** A symbol declared private, project and public: grouped one way it ends up public,
      the other way private. */
  lemma GroupingShows()
    ensures var f, g, h := Sample({}, Private, map[]), Sample({}, Project, map[]), Sample({}, Public, map[]);
            var left, right := LeftFirst(f, g, h), RightFirst(f, g, h);
            left.Ok? && left.value.symbols[SAMPLE].access == Public &&
            right.Ok? && right.value.symbols[SAMPLE].access == Private
  {
  }

  /** A symbol declared project and public: whichever comes first decides. */
  lemma MergeOrderShows()
    ensures var f, g := Sample({}, Project, map[]), Sample({}, Public, map[]);
            && Merge(f, g).Ok? && Merge(f, g).value.symbols[SAMPLE].access == Project
            && Merge(g, f).Ok? && Merge(g, f).value.symbols[SAMPLE].access == Public
  {
  }
}

/** What the stub writers see of a file's content. */
module TextContent {
  import opened InterfaceAlgebra
  import opened InterfaceTheorems
  import opened SortedVectors
  import opened InterfaceFiles
  import opened SymbolSets
  import opened InterfaceCanonical
  import opened TextStubV4

  // ----- files with the same content -----

  predicate UsableSomewhere(avail: map<Target, Availability>) {
    exists t :: t in avail && Usable(avail[t])
  }

  lemma AvailableIs(x: XPI)
    requires DistinctKeys(x.avail)
    ensures Available(x) <==> UsableSomewhere(AsMap(x.avail))
  {
    if Available(x) {
      var i :| 0 <= i < |x.avail| && Usable(x.avail[i].1);
      AsMapAt(x.avail, i);
    }
    if t :| t in AsMap(x.avail) && Usable(AsMap(x.avail)[t]) {
      AsMapKeys(x.avail, t);
      var i :| 0 <= i < |x.avail| && x.avail[i].0 == t;
      AsMapAt(x.avail, i);
    }
  }

  lemma SameSymbol(m: map<SymbolKey, XPI>, n: map<SymbolKey, XPI>, k: SymbolKey)
    requires ListedOnce(m) && ListedOnce(n) && SymbolsOf(m) == SymbolsOf(n)
    ensures k in m <==> k in n
    ensures k in m ==> SymbolOf(m[k]) == SymbolOf(n[k]) && (Available(m[k]) <==> Available(n[k]))
  {
    hide SymbolOf, Available, DistinctKeys;
    assert k in m <==> k in SymbolsOf(m);
    assert k in n <==> k in SymbolsOf(n);
    if k in m {
      assert SymbolOf(m[k]) == SymbolsOf(m)[k] == SymbolsOf(n)[k] == SymbolOf(n[k]);
      SameAvailable(m[k], n[k]);
    }
  }

  lemma SameAvailable(x: XPI, y: XPI)
    requires DistinctKeys(x.avail) && DistinctKeys(y.avail) && SymbolOf(x) == SymbolOf(y)
    ensures Available(x) <==> Available(y)
  {
    assert AsMap(x.avail) == AsMap(y.avail);
    hide Available, UsableSomewhere;
    AvailableIs(x);
    AvailableIs(y);
  }

  lemma SameFields(f: Interface, g: Interface)
    requires Flat(f) && Flat(g) && SansPath(Content(f)) == SansPath(Content(g))
    ensures SameVectors(f, g) && SymbolsOf(f.symbols) == SymbolsOf(g.symbols) && ListedOnce(f.symbols) &&
            ListedOnce(g.symbols)
    ensures f.header == g.header && f.swiftVersion == g.swiftVersion
  {
    ContentFixesVectors(f, g);
    var c, d := SansPath(Content(f)), SansPath(Content(g));
    assert c.symbols == SymbolsOf(f.symbols) && d.symbols == SymbolsOf(g.symbols);
    assert c.header == f.header && d.header == g.header && c.swiftVersion == f.swiftVersion &&
           d.swiftVersion == g.swiftVersion;
  }

  // ----- small files -----

  /** A file with one symbol. */
  function OneSymbol(k: SymbolKey, x: XPI): Interface {
    Interface(Header("", 0, 0, true, true, false), Version(0, 0), "", 0, [], [], [], [], [], map[k := x], [])
  }

  lemma OneSymbolIsFlat(k: SymbolKey, x: XPI)
    requires DistinctKeys(x.avail)
    ensures Flat(OneSymbol(k, x)) && Content(OneSymbol(k, x)).symbols == map[k := SymbolOf(x)]
  {
  }

  /** A file with targets and nothing else. */
  function OnlyTargets(ts: seq<Target>): Interface {
    Interface(Header("", 0, 0, true, true, false), Version(0, 0), "", 0, ts, [], [], [], [], map[], [])
  }

  function OnTargets(ts: seq<Target>): XPI {
    XPI(Exported, NO_FLAGS, NoAccess, seq(|ts|, i requires 0 <= i < |ts| => (ts[i], DEFAULT)))
  }
}

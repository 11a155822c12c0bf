/** Interface files as the program stores them: sorted vectors filled entry by
    entry, and symbols behind a hash map. */
module InterfaceFiles {
  import opened InterfaceAlgebra
  import opened SortedVectors

  /** A library and the targets it counts for. */
  datatype Ref = Ref(installName: string, targets: seq<Target>)

  /** A symbol lists its availability in the order the targets were added. */
  datatype XPI = XPI(linkage: Linkage, flags: SymbolFlags, access: Access, avail: seq<(Target, Availability)>)

  /** A finished file; documents are finished files too. */
  datatype Interface = Interface(
    header: Header, fileType: Version, path: string, swiftVersion: nat,
    targets: seq<Target>, umbrellas: seq<(Target, string)>,
    clients: seq<Ref>, reexports: seq<Ref>,
    uuids: seq<(Target, string)>, symbols: map<SymbolKey, XPI>, documents: seq<Interface>)

  // ----- what the vectors hold -----

  function Links(v: seq<Ref>): set<(string, Target)> {
    set i, t | 0 <= i < |v| && t in v[i].targets :: (v[i].installName, t)
  }

  function Names(v: seq<Ref>): seq<string> {
    seq(|v|, i requires 0 <= i < |v| => v[i].installName)
  }

  predicate SortedRefs(v: seq<Ref>) {
    SortedNames(Names(v)) && forall i :: 0 <= i < |v| ==> v[i].targets != [] && SortedTargets(v[i].targets)
  }

  predicate SortedUmbrellas(v: seq<(Target, string)>) {
    SortedPairs(v) && forall i :: 0 <= i < |v| ==> v[i].1 != ""
  }

  function SymbolOf(x: XPI): Symbol {
    Symbol(x.linkage, x.flags, x.access, AsMap(x.avail))
  }

  function SymbolsOf(symbols: map<SymbolKey, XPI>): map<SymbolKey, Symbol> {
    map k | k in symbols :: SymbolOf(symbols[k])
  }

  predicate ListedOnce(symbols: map<SymbolKey, XPI>) {
    forall k :: k in symbols ==> DistinctKeys(symbols[k].avail)
  }

  predicate Flat(f: Interface) {
    SortedTargets(f.targets) && SortedUmbrellas(f.umbrellas) && SortedRefs(f.clients) && SortedRefs(f.reexports) &&
    SortedPairs(f.uuids) && ListedOnce(f.symbols)
  }

  predicate Valid(f: Interface)
    decreases f
  {
    Flat(f) && forall i :: 0 <= i < |f.documents| ==> Valid(f.documents[i])
  }

  /** The file's content. */
  function Content(f: Interface): File
    decreases f
  {
    File(f.header, f.fileType, f.path, f.swiftVersion, Members(f.targets), AsMap(f.umbrellas),
         Links(f.clients), Links(f.reexports), AsMap(f.uuids), SymbolsOf(f.symbols), Contents(f.documents))
  }

  function Contents(fs: seq<Interface>): (cs: seq<File>)
    ensures |cs| == |fs|
    decreases fs
  {
    if fs == [] then [] else [Content(fs[0])] + Contents(fs[1..])
  }

  lemma {:induction false} ContentsAppend(fs: seq<Interface>, f: Interface)
    ensures Contents(fs + [f]) == Contents(fs) + [Content(f)]
    decreases |fs|
  {
    if fs == [] {
      assert fs + [f] == [f];
      assert Contents([f]) == [Content(f)] + Contents([f][1..]);
    } else {
      assert (fs + [f])[0] == fs[0] && (fs + [f])[1..] == fs[1..] + [f];
      ContentsAppend(fs[1..], f);
    }
  }

  lemma {:induction false} ContentsAt(fs: seq<Interface>, i: nat)
    requires i < |fs|
    ensures Contents(fs)[i] == Content(fs[i])
  {
    if i > 0 {
      ContentsAt(fs[1..], i - 1);
    }
  }

  // ----- adding one entry -----

  method AddTargetEntry(v: seq<Target>, target: Target) returns (w: seq<Target>)
    requires SortedTargets(v)
    ensures SortedTargets(w) && Members(w) == Members(v) + {target}
  {
    var at := LowerBound(v, t => TargetLess(t, target));
    if at < |v| && !TargetLess(target, v[at]) {
      assert v[at] == target;
      return v;
    }
    InsertTarget(v, at, target);
    return Inserted(v, at, target);
  }

  method SetEntry(v: seq<(Target, string)>, target: Target, text: string) returns (w: seq<(Target, string)>)
    requires SortedPairs(v)
    ensures SortedPairs(w) && AsMap(w) == AsMap(v)[target := text]
    ensures (forall i :: 0 <= i < |v| ==> v[i].1 != "") && text != "" ==> forall i :: 0 <= i < |w| ==> w[i].1 != ""
  {
    var at := LowerBound(v, (p: (Target, string)) => TargetLess(p.0, target));
    if at < |v| && !TargetLess(target, v[at].0) {
      assert v[at].0 == target;
      UpdatedMap(v, at, text);
      return v[at := (target, text)];
    }
    InsertPair(v, at, (target, text));
    return Inserted(v, at, (target, text));
  }

  /** Finds the library, or makes room for it with no targets yet. */
  method AddRefEntry(v: seq<Ref>, installName: string) returns (w: seq<Ref>, at: nat)
    requires SortedNames(Names(v))
    ensures at < |w| && w[at].installName == installName && SortedNames(Names(w))
    ensures w == v || (at <= |v| && w == Inserted(v, at, Ref(installName, [])))
  {
    var names := Names(v);
    forall j, k | 0 <= j < k < |v| && TextLess(v[k].installName, installName)
      ensures TextLess(v[j].installName, installName)
    {
      assert names[j] == v[j].installName && names[k] == v[k].installName;
      TextTransitive(names[j], names[k], installName);
    }
    at := LowerBound(v, (r: Ref) => TextLess(r.installName, installName));
    if at < |v| && !TextLess(installName, v[at].installName) {
      if v[at].installName != installName {
        TextTotal(installName, v[at].installName);
      }
      return v, at;
    }
    InsertName(names, at, installName);
    w := Inserted(v, at, Ref(installName, []));
    assert Names(w) == Inserted(names, at, installName);
  }

  lemma LinksInserted(v: seq<Ref>, i: nat, installName: string)
    requires i <= |v|
    ensures Links(Inserted(v, i, Ref(installName, []))) == Links(v)
  {
    var w := Inserted(v, i, Ref(installName, []));
    assert forall j :: 0 <= j < |v| ==> v[j] == w[if j < i then j else j + 1];
  }

  lemma LinksUpdated(v: seq<Ref>, i: nat, ts: seq<Target>, t: Target)
    requires i < |v| && Members(ts) == Members(v[i].targets) + {t}
    ensures Links(v[i := v[i].(targets := ts)]) == Links(v) + {(v[i].installName, t)}
  {
    var w := v[i := v[i].(targets := ts)];
    assert w[i].targets == ts && forall u :: u in ts <==> u in Members(ts);
    assert forall u :: u in v[i].targets <==> u in Members(v[i].targets);
    forall p ensures p in Links(w) <==> p in Links(v) + {(v[i].installName, t)} {
      if p in Links(w) {
        var j, u :| 0 <= j < |w| && u in w[j].targets && p == (w[j].installName, u);
        assert j == i || u in v[j].targets;
      }
      if p in Links(v) {
        var j, u :| 0 <= j < |v| && u in v[j].targets && p == (v[j].installName, u);
        assert u in w[j].targets;
      }
      assert t in w[i].targets;
    }
  }

  method AddLink(v: seq<Ref>, installName: string, target: Target) returns (w: seq<Ref>)
    requires SortedRefs(v)
    ensures SortedRefs(w) && Links(w) == Links(v) + {(installName, target)}
  {
    var found, at := AddRefEntry(v, installName);
    if found != v {
      LinksInserted(v, at, installName);
    }
    assert Links(found) == Links(v);
    assert forall j :: 0 <= j < |found| ==> found[j] == Ref(installName, []) || found[j] in v;
    var ts := AddTargetEntry(found[at].targets, target);
    w := found[at := found[at].(targets := ts)];
    LinksUpdated(found, at, ts, target);
    assert target in Members(ts);
    assert Names(w) == Names(found);
  }

  // ----- adding whole ranges -----

  function KeptTargets(ts: set<Target>, keep: Arch -> bool): set<Target> {
    set t | t in ts && keep(t.arch)
  }

  function KeptLinks(links: set<(string, Target)>, keep: Arch -> bool): set<(string, Target)> {
    set p | p in links && keep(p.1.arch)
  }

  function KeptPairs(m: map<Target, string>, keep: Arch -> bool): map<Target, string> {
    map t | t in m && keep(t.arch) :: m[t]
  }

  method AddTargetRange(v: seq<Target>, ts: seq<Target>, keep: Arch -> bool) returns (w: seq<Target>)
    requires SortedTargets(v)
    ensures SortedTargets(w) && Members(w) == Members(v) + KeptTargets(Members(ts), keep)
  {
    w := v;
    for i := 0 to |ts|
      invariant SortedTargets(w) && Members(w) == Members(v) + KeptTargets(Members(ts[..i]), keep)
    {
      assert Members(ts[..i + 1]) == Members(ts[..i]) + {ts[i]};
      if keep(ts[i].arch) {
        w := AddTargetEntry(w, ts[i]);
      }
    }
    assert ts[..|ts|] == ts;
  }

  lemma KeptNext(base: map<Target, string>, m: map<Target, string>, t: Target, text: string, keep: Arch -> bool)
    ensures base + KeptPairs(m[t := text], keep)
         == if keep(t.arch) then (base + KeptPairs(m, keep))[t := text] else base + KeptPairs(m, keep)
  {
    if keep(t.arch) {
      assert KeptPairs(m[t := text], keep) == KeptPairs(m, keep)[t := text];
    } else {
      assert KeptPairs(m[t := text], keep) == KeptPairs(m, keep);
    }
  }

  method SetRange(v: seq<(Target, string)>, ps: seq<(Target, string)>, keep: Arch -> bool)
    returns (w: seq<(Target, string)>)
    requires SortedPairs(v)
    ensures SortedPairs(w) && AsMap(w) == AsMap(v) + KeptPairs(AsMap(ps), keep)
  {
    w := v;
    for i := 0 to |ps|
      invariant SortedPairs(w) && AsMap(w) == AsMap(v) + KeptPairs(AsMap(ps[..i]), keep)
    {
      hide AsMap, KeptPairs, SortedPairs;
      AsMapNext(ps, i);
      KeptNext(AsMap(v), AsMap(ps[..i]), ps[i].0, ps[i].1, keep);
      if keep(ps[i].0.arch) {
        w := SetEntry(w, ps[i].0, ps[i].1);
      }
    }
    assert ps[..|ps|] == ps;
  }

  /** An empty umbrella name is not recorded. */
  method SetUmbrella(v: seq<(Target, string)>, target: Target, umbrella: string) returns (w: seq<(Target, string)>)
    requires SortedUmbrellas(v)
    ensures SortedUmbrellas(w)
    ensures AsMap(w) == if umbrella == "" then AsMap(v) else AsMap(v)[target := umbrella]
  {
    if umbrella == "" {
      return v;
    }
    w := SetEntry(v, target, umbrella);
  }

  lemma SetAfter(base: map<Target, string>, m: map<Target, string>, t: Target, text: string)
    ensures base + m[t := text] == (base + m)[t := text]
  {
  }

  method SetUmbrellaRange(v: seq<(Target, string)>, ps: seq<(Target, string)>) returns (w: seq<(Target, string)>)
    requires SortedUmbrellas(v) && SortedUmbrellas(ps)
    ensures SortedUmbrellas(w) && AsMap(w) == AsMap(v) + AsMap(ps)
  {
    w := v;
    for i := 0 to |ps|
      invariant SortedUmbrellas(w) && AsMap(w) == AsMap(v) + AsMap(ps[..i])
    {
      assert ps[i].1 != "";
      hide AsMap, SortedUmbrellas;
      AsMapNext(ps, i);
      SetAfter(AsMap(v), AsMap(ps[..i]), ps[i].0, ps[i].1);
      w := SetUmbrella(w, ps[i].0, ps[i].1);
    }
    assert ps[..|ps|] == ps;
  }

  lemma LinksNext(libs: seq<Ref>, i: nat)
    requires i < |libs|
    ensures Links(libs[..i + 1]) == Links(libs[..i]) + LinksTo(libs[i].installName, libs[i].targets)
  {
    var v, w := libs[..i], libs[..i + 1];
    assert w[i] == libs[i];
    forall p | p in Links(w) ensures p in Links(v) || p in LinksTo(libs[i].installName, libs[i].targets) {
      var j, t :| 0 <= j < |w| && t in w[j].targets && p == (w[j].installName, t);
      assert j < i ==> t in v[j].targets;
    }
    forall p | p in Links(v) ensures p in Links(w) {
      var j, t :| 0 <= j < |v| && t in v[j].targets && p == (v[j].installName, t);
      assert t in w[j].targets;
    }
    forall t | t in libs[i].targets ensures (libs[i].installName, t) in Links(w) {
      assert t in w[i].targets;
    }
  }

  lemma KeptLinksNext(base: set<(string, Target)>, links: set<(string, Target)>, p: (string, Target),
                      keep: Arch -> bool)
    ensures base + KeptLinks(links + {p}, keep)
         == if keep(p.1.arch) then base + KeptLinks(links, keep) + {p} else base + KeptLinks(links, keep)
  {
  }

  function LinksTo(installName: string, ts: seq<Target>): set<(string, Target)> {
    set t | t in ts :: (installName, t)
  }

  lemma LinksToNext(installName: string, ts: seq<Target>, j: nat)
    requires j < |ts|
    ensures LinksTo(installName, ts[..j + 1]) == LinksTo(installName, ts[..j]) + {(installName, ts[j])}
  {
    assert ts[..j + 1] == ts[..j] + [ts[j]];
  }

  /** The targets of one library. */
  method AddLinksOf(v: seq<Ref>, lib: Ref, keep: Arch -> bool) returns (w: seq<Ref>)
    requires SortedRefs(v)
    ensures SortedRefs(w) && Links(w) == Links(v) + KeptLinks(LinksTo(lib.installName, lib.targets), keep)
  {
    w := v;
    for j := 0 to |lib.targets|
      invariant SortedRefs(w) && Links(w) == Links(v) + KeptLinks(LinksTo(lib.installName, lib.targets[..j]), keep)
    {
      hide SortedRefs, Links, KeptLinks, LinksTo;
      LinksToNext(lib.installName, lib.targets, j);
      KeptLinksNext(Links(v), LinksTo(lib.installName, lib.targets[..j]), (lib.installName, lib.targets[j]), keep);
      if keep(lib.targets[j].arch) {
        w := AddLink(w, lib.installName, lib.targets[j]);
      }
    }
    assert lib.targets[..|lib.targets|] == lib.targets;
  }

  method AddLinkRange(v: seq<Ref>, libs: seq<Ref>, keep: Arch -> bool) returns (w: seq<Ref>)
    requires SortedRefs(v)
    ensures SortedRefs(w) && Links(w) == Links(v) + KeptLinks(Links(libs), keep)
  {
    w := v;
    for i := 0 to |libs|
      invariant SortedRefs(w) && Links(w) == Links(v) + KeptLinks(Links(libs[..i]), keep)
    {
      hide SortedRefs;
      LinksNext(libs, i);
      w := AddLinksOf(w, libs[i], keep);
    }
    assert libs[..|libs|] == libs;
  }

  // ----- inlined documents by install name -----

  function DocumentNames(ds: seq<Interface>): seq<string> {
    seq(|ds|, i requires 0 <= i < |ds| => ds[i].header.installName)
  }

  function ByName(ds: seq<Interface>): seq<(string, Interface)> {
    seq(|ds|, i requires 0 <= i < |ds| => (ds[i].header.installName, ds[i]))
  }

  /** The first document of a name stays. */
  function FirstWins(m: map<string, Interface>, d: Interface): map<string, Interface> {
    if d.header.installName in m then m else m[d.header.installName := d]
  }

  function AllFirstWins(m: map<string, Interface>, ds: seq<Interface>): map<string, Interface> {
    if ds == [] then m else FirstWins(AllFirstWins(m, ds[..|ds| - 1]), ds[|ds| - 1])
  }

  /** An inlined document is under its name unless one was there before it. */
  lemma {:induction false} FirstWriterWins(m: map<string, Interface>, ds: seq<Interface>, n: string)
    ensures n in m ==> n in AllFirstWins(m, ds) && AllFirstWins(m, ds)[n] == m[n]
    ensures forall i :: 0 <= i < |ds| && n !in m && ds[i].header.installName == n && n !in DocumentNames(ds[..i]) ==>
              n in AllFirstWins(m, ds) && AllFirstWins(m, ds)[n] == ds[i]
    ensures n in AllFirstWins(m, ds) ==> n in m || n in DocumentNames(ds)
  {
    if ds != [] {
      var front, last := ds[..|ds| - 1], ds[|ds| - 1];
      FirstWriterWins(m, front, n);
      forall i | 0 <= i < |ds| && n !in m && ds[i].header.installName == n && n !in DocumentNames(ds[..i])
        ensures n in AllFirstWins(m, ds) && AllFirstWins(m, ds)[n] == ds[i]
      {
        assert i < |front| ==> front[i] == ds[i] && front[..i] == ds[..i];
        assert i == |front| ==> ds[..i] == front;
      }
      assert forall k :: 0 <= k < |front| ==> DocumentNames(front)[k] == DocumentNames(ds)[k];
      assert DocumentNames(ds)[|front|] == last.header.installName;
    }
  }

  /** Puts a document at its place by name, unless the name is taken. */
  method AddFramework(ds: seq<Interface>, d: Interface) returns (es: seq<Interface>)
    requires SortedNames(DocumentNames(ds))
    ensures SortedNames(DocumentNames(es)) && AsMap(ByName(es)) == FirstWins(AsMap(ByName(ds)), d)
  {
    hide AsMap;
    var names, n := DocumentNames(ds), d.header.installName;
    forall j, k | 0 <= j < k < |ds| && TextLess(ds[k].header.installName, n)
      ensures TextLess(ds[j].header.installName, n)
    {
      assert names[j] == ds[j].header.installName && names[k] == ds[k].header.installName;
      TextTransitive(names[j], names[k], n);
    }
    var at := LowerBound(ds, (e: Interface) => TextLess(e.header.installName, n));
    NameListed(ds, n, at);
    if at < |ds| && !TextLess(n, ds[at].header.installName) {
      return ds;
    }
    InsertName(names, at, n);
    es := Inserted(ds, at, d);
    assert DocumentNames(es) == Inserted(names, at, n);
    assert ByName(es) == Inserted(ByName(ds), at, (n, d));
    InsertedMap(ByName(ds), at, (n, d));
  }

  /** The lower bound of a name says whether a document of that name is there. */
  lemma NameListed(ds: seq<Interface>, n: string, at: nat)
    requires SortedNames(DocumentNames(ds)) && at <= |ds|
    requires forall j :: 0 <= j < at ==> TextLess(ds[j].header.installName, n)
    requires forall j :: at <= j < |ds| ==> !TextLess(ds[j].header.installName, n)
    ensures at < |ds| && !TextLess(n, ds[at].header.installName) <==> n in AsMap(ByName(ds))
    ensures n !in AsMap(ByName(ds)) ==> forall j :: 0 <= j < |ds| ==> ByName(ds)[j].0 != n
  {
    AsMapKeys(ByName(ds), n);
    TextIrreflexive(n);
    if at < |ds| && !TextLess(n, ds[at].header.installName) {
      if ds[at].header.installName != n {
        TextTotal(n, ds[at].header.installName);
      }
      assert ByName(ds)[at].0 == n;
    }
    if n in AsMap(ByName(ds)) {
      var j :| 0 <= j < |ds| && ByName(ds)[j].0 == n;
      assert at <= j;
      if at < j {
        assert TextLess(DocumentNames(ds)[at], DocumentNames(ds)[j]);
      }
    }
  }
}

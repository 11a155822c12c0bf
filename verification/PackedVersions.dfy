/** Version numbers packed into 32 bits: sixteen bits of major version, eight of
    minor and eight of subminor version. */
module PackedVersions {

  // ----- numbers and fragments -----

  predicate Digits(s: string) {
    forall i :: 0 <= i < |s| ==> '0' <= s[i] <= '9'
  }

  function Value(s: string): nat
    requires Digits(s)
  {
    if s == "" then 0 else Value(s[..|s| - 1]) * 10 + (s[|s| - 1] as int - '0' as int)
  }

  const UINT64_LIMIT: nat := 0x1_0000_0000_0000_0000

  /** A fragment that the 64-bit number parser takes. */
  predicate Numeric(s: string) {
    s != "" && Digits(s) && Value(s) < UINT64_LIMIT
  }

  function Decimal(n: nat): string {
    var digit := ('0' as int + n % 10) as char;
    if n < 10 then [digit] else Decimal(n / 10) + [digit]
  }

  lemma {:induction false} DecimalValue(n: nat)
    ensures Digits(Decimal(n)) && Decimal(n) != "" && Value(Decimal(n)) == n
  {
    var digit := ('0' as int + n % 10) as char;
    if n < 10 {
      assert Decimal(n)[..0] == "";
    } else {
      DecimalValue(n / 10);
      assert Decimal(n)[..|Decimal(n)| - 1] == Decimal(n / 10);
    }
  }

  function RunLength(s: string): (n: nat)
    ensures n <= |s|
    ensures forall i :: 0 <= i < n ==> s[i] != '.'
    ensures n < |s| ==> s[n] == '.'
  {
    if s == "" || s[0] == '.' then 0 else 1 + RunLength(s[1..])
  }

  /** The fragments between dots, empty ones left out. */
  function Split(s: string): seq<string>
    decreases |s|
  {
    if s == "" then []
    else if s[0] == '.' then Split(s[1..])
    else [s[..RunLength(s)]] + Split(s[RunLength(s)..])
  }

  lemma SplitOne(s: string)
    requires Digits(s) && s != ""
    ensures Split(s) == [s]
  {
    assert RunLength(s) == |s| && s[..|s|] == s && s[|s|..] == "";
  }

  lemma {:induction false} RunFront(s: string, rest: string)
    requires Digits(s)
    ensures RunLength(s + "." + rest) == |s|
  {
    var whole := s + "." + rest;
    if s == "" {
      assert whole[0] == '.';
    } else {
      assert whole[0] == s[0] && whole[1..] == s[1..] + "." + rest;
      RunFront(s[1..], rest);
    }
  }

  lemma SplitFront(s: string, rest: string)
    requires Digits(s) && s != ""
    ensures Split(s + "." + rest) == [s] + Split(rest)
  {
    var whole := s + "." + rest;
    RunFront(s, rest);
    assert whole[0] == s[0] && whole[..|s|] == s && whole[|s|..] == "." + rest && ("." + rest)[1..] == rest;
  }

  // ----- what the parsers compute -----

  function Pack(major: nat, minor: nat, subminor: nat): (v: nat)
    ensures major < 0x1_0000 && minor < 0x100 && subminor < 0x100 ==> v < 0x1_0000_0000
  {
    major * 0x1_0000 + minor * 0x100 + subminor
  }

  function Part(parts: seq<string>, i: nat): nat {
    if i < |parts| && Digits(parts[i]) then Value(parts[i]) else 0
  }

  function Least(m: nat, n: nat): nat {
    if m < n then m else n
  }

  /** A fragment clamped to its field, if it is among the first `n`. */
  function Component(parts: seq<string>, n: nat, i: nat): nat {
    if i < n then Least(Part(parts, i), if i == 0 then 0xFFFF else 0xFF) else 0
  }

  /** The first `n` fragments, each clamped to its field. */
  function Clamped(parts: seq<string>, n: nat): nat {
    Pack(Component(parts, n, 0), Component(parts, n, 1), Component(parts, n, 2))
  }

  lemma PackFields(major: nat, minor: nat, subminor: nat)
    requires minor < 0x100 && subminor < 0x100
    ensures Pack(major, minor, subminor) / 0x1_0000 == major
    ensures Pack(major, minor, subminor) / 0x100 % 0x100 == minor && Pack(major, minor, subminor) % 0x100 == subminor
  {
    assert Pack(major, minor, subminor) / 0x100 == major * 0x100 + minor;
  }

  /** Fragment `i` is a number within the limits for its position. */
  predicate Fits(parts: seq<string>, i: nat, major: nat, minor: nat) {
    i < |parts| && Numeric(parts[i]) && Value(parts[i]) <= (if i == 0 then major else minor)
  }

  /** The strings that parse32 accepts. */
  predicate Accepted32(str: string) {
    var parts := Split(str);
    1 <= |parts| <= 3 && forall i :: 0 <= i < |parts| ==> Fits(parts, i, 0xFFFF, 0xFF)
  }

  /** The strings that parse64 accepts. A fourth and fifth fragment may be anything. */
  predicate Accepted64(str: string) {
    var parts := Split(str);
    1 <= |parts| <= 5 && forall i :: 0 <= i < |parts| && i < 3 ==> Fits(parts, i, 0xFF_FFFF, 0x3FF)
  }

  /** Some fragment among the first `n` is larger than its field. */
  predicate Clipped(parts: seq<string>, n: nat) {
    exists i :: 0 <= i < n && i < |parts| && i < 3 && Part(parts, i) > (if i == 0 then 0xFFFF else 0xFF)
  }

  /** How many leading fragments are taken before one does not fit. */
  function Taken(parts: seq<string>, i: nat, major: nat, minor: nat): nat
    decreases 3 - i
  {
    if i < 3 && Fits(parts, i, major, minor) then Taken(parts, i + 1, major, minor) else i
  }

  /** What a parser that takes at most `most` fragments leaves in the version. */
  function Recorded(parts: seq<string>, most: nat, major: nat, minor: nat): nat {
    if |parts| > most then 0 else Clamped(parts, Taken(parts, 0, major, minor))
  }

  lemma {:induction false} TakenUpTo(parts: seq<string>, i: nat, n: nat, major: nat, minor: nat)
    requires i <= n <= 3 && (forall j :: i <= j < n ==> Fits(parts, j, major, minor)) &&
             (n < 3 ==> !Fits(parts, n, major, minor))
    ensures Taken(parts, i, major, minor) == n
    decreases n - i
  {
    if i < n {
      TakenUpTo(parts, i + 1, n, major, minor);
    }
  }

  lemma ClampedNext(parts: seq<string>, n: nat, num: nat, shift: nat)
    requires n < 3 && num == Least(Part(parts, n), if n == 0 then 0xFFFF else 0xFF) && shift == Unit(n)
    ensures Clamped(parts, n + 1) == Clamped(parts, n) + num * shift
  {
    hide Part, Pack, Least;
    var c0, c1, c2 := Component(parts, n, 0), Component(parts, n, 1), Component(parts, n, 2);
    if n == 0 {
      assert Clamped(parts, 1) == Pack(num, 0, 0) && c0 == c1 == c2 == 0 && shift == 0x1_0000;
      PackNext(0, 0, 0, 0, num);
    } else if n == 1 {
      assert Clamped(parts, 2) == Pack(c0, num, 0) && c1 == c2 == 0 && shift == 0x100;
      PackNext(c0, 0, 0, 1, num);
    } else {
      assert Clamped(parts, 3) == Pack(c0, c1, num) && c2 == 0 && shift == 1;
      PackNext(c0, c1, 0, 2, num);
    }
  }

  lemma PackNext(major: nat, minor: nat, subminor: nat, n: nat, num: nat)
    ensures n == 0 ==> Pack(major + num, minor, subminor) == Pack(major, minor, subminor) + num * 0x1_0000
    ensures n == 1 ==> Pack(major, minor + num, subminor) == Pack(major, minor, subminor) + num * 0x100
    ensures n == 2 ==> Pack(major, minor, subminor + num) == Pack(major, minor, subminor) + num
  {
  }

  lemma FirstClamped(parts: seq<string>, num: nat)
    requires num == Least(Part(parts, 0), 0xFFFF)
    ensures Clamped(parts, 1) == num * 0x1_0000
  {
    hide Part;
  }

  lemma NothingClamped(parts: seq<string>)
    ensures Clamped(parts, 0) == 0
  {
    hide Part;
  }

  lemma ClampedInRange(parts: seq<string>, n: nat)
    ensures Clamped(parts, n) < 0x1_0000_0000
  {
    hide Part, Pack;
  }

  /** What one step of component `i` is worth. */
  function Unit(i: nat): nat {
    if i == 0 then 0x1_0000 else if i == 1 then 0x100 else 1
  }

  lemma PartFacts(parts: seq<string>, i: nat, major: nat, minor: nat)
    requires i < |parts|
    ensures Fits(parts, i, major, minor) <==> Numeric(parts[i]) && Value(parts[i]) <= if i == 0 then major else minor
    ensures Numeric(parts[i]) ==> Part(parts, i) == Value(parts[i])
  {
  }

  /** A parser for at most `most` fragments that stops after `n` of them, all
      fitting, because none is left, three are taken, or the next does not fit. */
  predicate StopsAfter(parts: seq<string>, n: nat, most: nat, major: nat, minor: nat) {
    1 <= |parts| <= most && n <= 3 && n <= |parts| && (forall j :: 0 <= j < n ==> Fits(parts, j, major, minor)) &&
    (n < 3 && n < |parts| ==> !Fits(parts, n, major, minor))
  }

  lemma Stops(str: string, n: nat, most: nat, major: nat, minor: nat)
    requires StopsAfter(Split(str), n, most, major, minor)
    ensures Taken(Split(str), 0, major, minor) == n
    ensures Recorded(Split(str), most, major, minor) == Clamped(Split(str), n) < 0x1_0000_0000
    ensures most == 3 && major == 0xFFFF && minor == 0xFF ==> (Accepted32(str) <==> n == |Split(str)|)
    ensures most == 5 && major == 0xFF_FFFF && minor == 0x3FF ==> (Accepted64(str) <==> n == Least(3, |Split(str)|))
  {
    TakenUpTo(Split(str), 0, n, major, minor);
    ClampedInRange(Split(str), n);
    hide Clamped, Split, Fits, Taken;
  }

  lemma WrongCount(str: string, parts: seq<string>, most: nat, major: nat, minor: nat)
    requires parts == Split(str) && (parts == [] || |parts| > most)
    ensures Recorded(parts, most, major, minor) == 0
    ensures most == 3 ==> !Accepted32(str)
    ensures most == 5 ==> !Accepted64(str)
  {
    hide Split, Taken, Clamped, Fits;
    NothingClamped(parts);
    if parts == [] {
      NoFragments(parts, major, minor);
    }
  }

  lemma NoFragments(parts: seq<string>, major: nat, minor: nat)
    requires parts == []
    ensures Taken(parts, 0, major, minor) == 0 && !Clipped(parts, Taken(parts, 0, major, minor))
  {
  }

  lemma ClippedNext(parts: seq<string>, n: nat)
    requires n < |parts| && n < 3
    ensures !Clipped(parts, 0)
    ensures Clipped(parts, n + 1) <==> Clipped(parts, n) || Part(parts, n) > (if n == 0 then 0xFFFF else 0xFF)
  {
    assert Part(parts, n) > (if n == 0 then 0xFFFF else 0xFF) ==> Clipped(parts, n + 1);
    assert Clipped(parts, n) ==> Clipped(parts, n + 1) by {
      if Clipped(parts, n) {
        var i :| 0 <= i < n && i < |parts| && i < 3 && Part(parts, i) > (if i == 0 then 0xFFFF else 0xFF);
        assert i < n + 1;
      }
    }
  }

  lemma ClippedAll(parts: seq<string>)
    requires |parts| <= 3
    ensures Clipped(parts, |parts|) <==> Clipped(parts, 3)
  {
  }

  class PackedVersion {
    var version: nat

    ghost predicate Valid() reads this {
      version < 0x1_0000_0000
    }

    constructor (v: nat)
      ensures version == v
    {
      version := v;
    }

    function Major(): nat reads this {
      version / 0x1_0000
    }

    function Minor(): nat reads this {
      version / 0x100 % 0x100
    }

    function Subminor(): nat reads this {
      version % 0x100
    }

    /** The fields are disjoint, so setting the bits of one is adding it. After a
        failure the fragments before the bad one stay recorded. */
    method Parse32(str: string) returns (ok: bool)
      modifies this
      ensures Valid() && version == Recorded(Split(str), 3, 0xFFFF, 0xFF)
      ensures ok <==> Accepted32(str)
    {
      hide Clamped, Split, Digits, Value, Taken, Fits, Recorded, Accepted32, Component;
      version := 0;
      var parts := Split(str);
      if |parts| > 3 || |parts| == 0 {
        WrongCount(str, parts, 3, 0xFFFF, 0xFF);
        return false;
      }
      PartFacts(parts, 0, 0xFFFF, 0xFF);
      if !Numeric(parts[0]) || Value(parts[0]) > 0xFFFF {
        NothingClamped(parts);
        Stops(str, 0, 3, 0xFFFF, 0xFF);
        return false;
      }
      FirstClamped(parts, Value(parts[0]));
      version := Value(parts[0]) * 0x1_0000;
      var i, shift := 1, 0x100;
      while i < |parts|
        invariant 1 <= i <= |parts| && (i < 3 ==> shift == Unit(i))
        invariant forall j :: 0 <= j < i ==> Fits(parts, j, 0xFFFF, 0xFF)
        invariant version == Clamped(parts, i)
      {
        PartFacts(parts, i, 0xFFFF, 0xFF);
        if !Numeric(parts[i]) || Value(parts[i]) > 0xFF {
          Stops(str, i, 3, 0xFFFF, 0xFF);
          return false;
        }
        ClampedNext(parts, i, Value(parts[i]), shift);
        version := version + Value(parts[i]) * shift;
        i, shift := i + 1, shift / 0x100;
      }
      Stops(str, i, 3, 0xFFFF, 0xFF);
      return true;
    }

    method Parse64(str: string) returns (ok: bool, truncated: bool)
      modifies this
      ensures Valid() && version == Recorded(Split(str), 5, 0xFF_FFFF, 0x3FF)
      ensures ok <==> Accepted64(str)
      ensures ok ==> (truncated <==> Clipped(Split(str), 3) || |Split(str)| > 3)
      ensures !ok ==> (truncated <==> |Split(str)| <= 5 && Clipped(Split(str), Taken(Split(str), 0, 0xFF_FFFF, 0x3FF)))
    {
      hide Clamped, Split, Digits, Value, Taken, Fits, Recorded, Accepted64, Component, Clipped;
      version, truncated := 0, false;
      var parts := Split(str);
      if |parts| > 5 || |parts| == 0 {
        WrongCount(str, parts, 5, 0xFF_FFFF, 0x3FF);
        if parts == [] {
          NoFragments(parts, 0xFF_FFFF, 0x3FF);
        }
        return false, truncated;
      }
      ClippedNext(parts, 0);
      PartFacts(parts, 0, 0xFF_FFFF, 0x3FF);
      if !Numeric(parts[0]) || Value(parts[0]) > 0xFF_FFFF {
        NothingClamped(parts);
        Stops(str, 0, 5, 0xFF_FFFF, 0x3FF);
        return false, truncated;
      }
      var num := Value(parts[0]);
      if num > 0xFFFF {
        num, truncated := 0xFFFF, true;
      }
      FirstClamped(parts, num);
      version := num * 0x1_0000;
      var i, shift := 1, 0x100;
      while i < |parts| && i < 3
        invariant 1 <= i <= |parts| && i <= 3 && (i < 3 ==> shift == Unit(i))
        invariant forall j :: 0 <= j < i ==> Fits(parts, j, 0xFF_FFFF, 0x3FF)
        invariant version == Clamped(parts, i) && (truncated <==> Clipped(parts, i))
      {
        ClippedNext(parts, i);
        PartFacts(parts, i, 0xFF_FFFF, 0x3FF);
        if !Numeric(parts[i]) || Value(parts[i]) > 0x3FF {
          Stops(str, i, 5, 0xFF_FFFF, 0x3FF);
          return false, truncated;
        }
        num := Value(parts[i]);
        if num > 0xFF {
          num, truncated := 0xFF, true;
        }
        ClampedNext(parts, i, num, shift);
        version := version + num * shift;
        i, shift := i + 1, shift / 0x100;
      }
      Stops(str, i, 5, 0xFF_FFFF, 0x3FF);
      if |parts| <= 3 {
        ClippedAll(parts);
      } else {
        truncated := true;
      }
      return true, truncated;
    }

    method Print() returns (text: string)
      ensures text == Printed(version)
    {
      JoinedShort(Major(), Minor(), Subminor());
      text := Decimal(Major());
      if Minor() != 0 || Subminor() != 0 {
        text := text + "." + Decimal(Minor());
      }
      if Subminor() != 0 {
        text := text + "." + Decimal(Subminor());
      }
    }
  }

  // ----- printing -----

  /** The components of a version, trailing zeros left out. */
  function Shown(v: nat): (ns: seq<nat>)
    ensures 1 <= |ns| <= 3
  {
    var major, minor, subminor := v / 0x1_0000, v / 0x100 % 0x100, v % 0x100;
    if subminor != 0 then [major, minor, subminor] else if minor != 0 then [major, minor] else [major]
  }

  function Joined(ns: seq<nat>): string {
    if ns == [] then "" else if |ns| == 1 then Decimal(ns[0]) else Decimal(ns[0]) + "." + Joined(ns[1..])
  }

  function Printed(v: nat): string {
    Joined(Shown(v))
  }

  lemma JoinedShort(a: nat, b: nat, c: nat)
    ensures Joined([a]) == Decimal(a) && Joined([a, b]) == Decimal(a) + "." + Decimal(b)
    ensures Joined([a, b, c]) == Decimal(a) + "." + Decimal(b) + "." + Decimal(c)
  {
    hide Decimal;
    assert [a, b][1..] == [b] && [a, b, c][1..] == [b, c] && [b, c][1..] == [c];
    assert Joined([b, c]) == Decimal(b) + "." + Decimal(c);
    assert Decimal(a) + "." + (Decimal(b) + "." + Decimal(c)) == Decimal(a) + "." + Decimal(b) + "." + Decimal(c);
  }

  lemma {:induction false} SplitJoined(ns: seq<nat>)
    ensures Split(Joined(ns)) == seq(|ns|, i requires 0 <= i < |ns| => Decimal(ns[i]))
  {
    if ns != [] {
      DecimalValue(ns[0]);
      if |ns| == 1 {
        SplitOne(Decimal(ns[0]));
      } else {
        SplitFront(Decimal(ns[0]), Joined(ns[1..]));
        SplitJoined(ns[1..]);
      }
    }
  }

  lemma PrintedParts(v: nat, i: nat)
    requires v < 0x1_0000_0000 && i < |Shown(v)|
    ensures |Split(Printed(v))| == |Shown(v)| && Part(Split(Printed(v)), i) == Shown(v)[i]
    ensures Fits(Split(Printed(v)), i, 0xFFFF, 0xFF)
  {
    SplitJoined(Shown(v));
    DecimalValue(Shown(v)[i]);
  }

  /** Every version is read back as it was printed. */
  lemma PrintThenParse(v: nat)
    requires v < 0x1_0000_0000
    ensures Accepted32(Printed(v)) && Recorded(Split(Printed(v)), 3, 0xFFFF, 0xFF) == v
  {
    var parts, n := Split(Printed(v)), |Shown(v)|;
    forall i | 0 <= i < n ensures Fits(parts, i, 0xFFFF, 0xFF) && Part(parts, i) == Shown(v)[i] && |parts| == n {
      PrintedParts(v, i);
    }
    assert |parts| == n by {
      PrintedParts(v, 0);
    }
    TakenUpTo(parts, 0, n, 0xFFFF, 0xFF);
    hide Split, Fits, Taken, Part, Printed;
    ShownAgain(v, parts);
  }

  lemma ShownAgain(v: nat, parts: seq<string>)
    requires v < 0x1_0000_0000 && forall i :: 0 <= i < |Shown(v)| ==> Part(parts, i) == Shown(v)[i]
    ensures Clamped(parts, |Shown(v)|) == v
  {
    hide Part;
    var n := |Shown(v)|;
    assert Component(parts, n, 0) == v / 0x1_0000;
    assert Component(parts, n, 1) == v / 0x100 % 0x100;
    assert Component(parts, n, 2) == v % 0x100;
  }

  /** Different versions print differently. */
  lemma PrintIsInjective(v: nat, w: nat)
    requires v < 0x1_0000_0000 && w < 0x1_0000_0000 && Printed(v) == Printed(w)
    ensures v == w
  {
    PrintThenParse(v);
    PrintThenParse(w);
  }

  // ----- the printed text is the shortest -----

  /** How many fragments are printed: trailing zeros are left out. */
  lemma PrintedFragments(v: nat)
    requires v < 0x1_0000_0000
    ensures 1 <= |Split(Printed(v))| <= 3
    ensures |Split(Printed(v))| == 1 <==> v % 0x1_0000 == 0
    ensures |Split(Printed(v))| <= 2 <==> v % 0x100 == 0
  {
    PrintedParts(v, 0);
    hide Split, Printed, Part, Fits;
    assert v % 0x1_0000 == v / 0x100 % 0x100 * 0x100 + v % 0x100;
  }

  lemma RecordedFields(str: string)
    requires Accepted32(str)
    ensures var parts, v := Split(str), Recorded(Split(str), 3, 0xFFFF, 0xFF);
            v / 0x1_0000 == Part(parts, 0) && v / 0x100 % 0x100 == Part(parts, 1) && v % 0x100 == Part(parts, 2)
  {
    WideAgreesWithNarrow(str);
    hide Accepted32, Accepted64, Clipped, Recorded, Part, Split, Taken;
    TruncatedMeansLoss(str);
  }

  /** No string that is accepted for a version has fewer fragments than its print. */
  lemma FewestFragments(str: string)
    requires Accepted32(str)
    ensures var v := Recorded(Split(str), 3, 0xFFFF, 0xFF);
            v < 0x1_0000_0000 && |Split(Printed(v))| <= |Split(str)|
  {
    var parts := Split(str);
    var v := Recorded(parts, 3, 0xFFFF, 0xFF);
    ClampedInRange(parts, Taken(parts, 0, 0xFFFF, 0xFF));
    RecordedFields(str);
    hide Recorded, Split, Printed, Fits;
    assert |parts| < 3 ==> v % 0x100 == 0;
    assert |parts| < 2 ==> v / 0x100 % 0x100 == 0;
    hide Part;
    PrintedFragments(v);
    assert v % 0x1_0000 == v / 0x100 % 0x100 * 0x100 + v % 0x100;
  }

  /** The characters of the fragments, with a dot after each. */
  function Size(parts: seq<string>): nat {
    if parts == [] then 0 else |parts[0]| + 1 + Size(parts[1..])
  }

  lemma {:induction false} SplitSize(s: string)
    ensures Size(Split(s)) <= |s| + 1
    ensures Split(s) == [] || Size(Split(s)) >= 1
    decreases |s|
  {
    if s != "" {
      if s[0] == '.' {
        SplitSize(s[1..]);
      } else {
        var n := RunLength(s);
        var rest := s[n..];
        if rest != "" {
          assert rest[0] == '.' && Split(rest) == Split(rest[1..]);
          SplitSize(rest[1..]);
        }
        assert Split(s)[1..] == Split(rest);
      }
    }
  }

  lemma {:induction false} JoinedSize(ns: seq<nat>)
    requires ns != []
    ensures |Joined(ns)| + 1 == Size(Split(Joined(ns)))
  {
    SplitJoined(ns);
    DecimalValue(ns[0]);
    if |ns| > 1 {
      SplitFront(Decimal(ns[0]), Joined(ns[1..]));
      JoinedSize(ns[1..]);
    } else {
      SplitOne(Decimal(ns[0]));
    }
  }

  /** A decimal number has no superfluous zeros. */
  lemma {:induction false} DecimalIsShortest(s: string)
    requires Digits(s) && s != ""
    ensures |Decimal(Value(s))| <= |s|
  {
    var n, front := Value(s), s[..|s| - 1];
    if n >= 10 {
      assert Value(front) == n / 10;
      assert front != "";
      DecimalIsShortest(front);
    }
  }

  lemma {:induction false} SmallerParts(few: seq<string>, many: seq<string>)
    requires |few| <= |many| && forall i :: 0 <= i < |few| ==> |few[i]| <= |many[i]|
    ensures Size(few) <= Size(many)
  {
    if few != [] {
      SmallerParts(few[1..], many[1..]);
    }
  }

  /** Of all strings that are accepted for a version, none is shorter than its print. */
  lemma PrintedIsShortest(str: string)
    requires Accepted32(str)
    ensures |Printed(Recorded(Split(str), 3, 0xFFFF, 0xFF))| <= |str|
  {
    var v := Recorded(Split(str), 3, 0xFFFF, 0xFF);
    FewestFragments(str);
    var few, many := Split(Printed(v)), Split(str);
    forall i | 0 <= i < |few| ensures |few[i]| <= |many[i]| {
      ShorterPart(str, i);
    }
    SmallerParts(few, many);
    SplitSize(str);
    JoinedSize(Shown(v));
  }

  lemma ShorterPart(str: string, i: nat)
    requires Accepted32(str)
    requires var v := Recorded(Split(str), 3, 0xFFFF, 0xFF);
             v < 0x1_0000_0000 && i < |Split(Printed(v))| <= |Split(str)|
    ensures |Split(Printed(Recorded(Split(str), 3, 0xFFFF, 0xFF)))[i]| <= |Split(str)[i]|
  {
    var v := Recorded(Split(str), 3, 0xFFFF, 0xFF);
    RecordedFields(str);
    SplitJoined(Shown(v));
    assert Fits(Split(str), i, 0xFFFF, 0xFF);
    PartFacts(Split(str), i, 0xFFFF, 0xFF);
    hide Recorded, Split, Part, Fits, Decimal;
    DecimalIsShortest(Split(str)[i]);
  }

  lemma TwoDigits()
    ensures Decimal(0) == "0" && Decimal(1) == "1" && Decimal(10) == "10" && Decimal(14) == "14"
  {
    assert Decimal(10) == Decimal(1) + "0" && Decimal(14) == Decimal(1) + "4";
  }

  lemma PrintedSamples()
    ensures Printed(0x1_0000) == "1" && Printed(0xA_0E00) == "10.14" && Printed(0xA_0001) == "10.0.1"
  {
    TwoDigits();
    JoinedShort(1, 0, 0);
    JoinedShort(10, 14, 0);
    JoinedShort(10, 0, 1);
    hide Decimal, Joined;
    assert Shown(0x1_0000) == [1] && Shown(0xA_0E00) == [10, 14] && Shown(0xA_0001) == [10, 0, 1];
  }

  // ----- the wide parser against the narrow one -----

  /** Without truncation, parse64 takes the strings parse32 takes, and no others,
      and records the same version. */
  lemma WideAgreesWithNarrow(str: string)
    ensures Accepted64(str) && !(Clipped(Split(str), 3) || |Split(str)| > 3) <==> Accepted32(str)
    ensures Accepted32(str) ==> Recorded(Split(str), 5, 0xFF_FFFF, 0x3FF) == Recorded(Split(str), 3, 0xFFFF, 0xFF)
  {
    var parts := Split(str);
    if Accepted32(str) {
      TakenUpTo(parts, 0, |parts|, 0xFFFF, 0xFF);
      TakenUpTo(parts, 0, |parts|, 0xFF_FFFF, 0x3FF);
    }
    if Accepted64(str) && !Clipped(parts, 3) && |parts| <= 3 {
      forall i | 0 <= i < |parts| ensures Fits(parts, i, 0xFFFF, 0xFF) {
        assert Fits(parts, i, 0xFF_FFFF, 0x3FF);
        PartFacts(parts, i, 0xFFFF, 0xFF);
        assert !(Part(parts, i) > (if i == 0 then 0xFFFF else 0xFF));
      }
    }
  }

  /** What parse64 accepts is recorded component by component, each clamped. */
  lemma WideClamps(str: string)
    requires Accepted64(str)
    ensures var parts, v := Split(str), Recorded(Split(str), 5, 0xFF_FFFF, 0x3FF);
            v / 0x1_0000 == Least(Part(parts, 0), 0xFFFF) && v / 0x100 % 0x100 == Least(Part(parts, 1), 0xFF) &&
            v % 0x100 == Least(Part(parts, 2), 0xFF)
  {
    var parts := Split(str);
    var n := Least(3, |parts|);
    TakenUpTo(parts, 0, n, 0xFF_FFFF, 0x3FF);
    hide Taken, Fits, Pack;
    PackFields(Component(parts, n, 0), Component(parts, n, 1), Component(parts, n, 2));
  }

  /** The truncated flag says exactly that reading the printed result back gives
      other components than the string had. */
  lemma TruncatedMeansLoss(str: string)
    requires Accepted64(str)
    ensures var parts, v := Split(str), Recorded(Split(str), 5, 0xFF_FFFF, 0x3FF);
            !(Clipped(parts, 3) || |parts| > 3) <==>
            |parts| <= 3 && v / 0x1_0000 == Part(parts, 0) && v / 0x100 % 0x100 == Part(parts, 1) &&
              v % 0x100 == Part(parts, 2)
  {
    WideClamps(str);
    ClippedParts(Split(str));
    hide Recorded, Clipped, Part, Split;
  }

  lemma ClippedParts(parts: seq<string>)
    ensures Clipped(parts, 3) <==> Part(parts, 0) > 0xFFFF || Part(parts, 1) > 0xFF || Part(parts, 2) > 0xFF
  {
    hide Value, Digits;
    assert Part(parts, 0) > 0xFFFF ==> Clipped(parts, 3);
    assert Part(parts, 1) > 0xFF ==> Clipped(parts, 3);
    assert Part(parts, 2) > 0xFF ==> Clipped(parts, 3);
  }
}

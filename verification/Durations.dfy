/**
 The duration texts of the program: one printer (internal/utils/durations.go) and three parsers that differ in how
 they read a group of digits, in the direction of their loop and in the width of their arithmetic
 (internal/downloader/youtube_search.go, internal/downloader/arcmusic.go).
 */
module Durations {
  import opened Wrappers

  // ----- machine integers -----

  const B32 := 0x1_0000_0000
  const B64 := 0x1_0000_0000_0000_0000

  function Wrap32(x: int): (r: int)
    ensures -B32 / 2 <= r < B32 / 2
    decreases if x < 0 then -2 * x - 1 else 2 * x
  {
    if x >= B32 / 2 then Wrap32(x - B32) else if x < -B32 / 2 then Wrap32(x + B32) else x
  }

  function Wrap64(x: int): (r: int)
    ensures -B64 / 2 <= r < B64 / 2
    decreases if x < 0 then -2 * x - 1 else 2 * x
  {
    if x >= B64 / 2 then Wrap64(x - B64) else if x < -B64 / 2 then Wrap64(x + B64) else x
  }

  lemma {:induction false} WrapShift(x: int, k: int)
    ensures Wrap32(x + k * B32) == Wrap32(x)
    decreases if k < 0 then -k else k
  {
    if k > 0 {
      WrapShift(x, k - 1);
      assert x + k * B32 == x + (k - 1) * B32 + B32;
    } else if k < 0 {
      WrapShift(x, k + 1);
      assert x + k * B32 == x + (k + 1) * B32 - B32;
    }
  }

  /** Wrapping is a multiple of the modulus away. */
  lemma {:induction false} WrapDiff(x: int) returns (k: int)
    ensures Wrap32(x) == x + k * B32
    decreases if x < 0 then -2 * x - 1 else 2 * x
  {
    if x >= B32 / 2 {
      k := WrapDiff(x - B32);
      k := k - 1;
    } else if x < -B32 / 2 {
      k := WrapDiff(x + B32);
      k := k + 1;
    } else {
      k := 0;
    }
  }

  lemma WrapLeft(a: int, b: int)
    ensures Wrap32(Wrap32(a) + b) == Wrap32(a + b)
  {
    var k := WrapDiff(a);
    WrapShift(a + b, k);
  }

  lemma WrapSum(a: int, b: int)
    ensures Wrap32(Wrap32(a) + Wrap32(b)) == Wrap32(a + b)
  {
    WrapLeft(b, Wrap32(a));
    WrapLeft(a, b);
  }

  lemma Expand(a: int, b: int, k: int, l: int, m: int)
    ensures (a + k * m) * (b + l * m) == a * b + (a * l + k * b + k * l * m) * m
  {
    assert (a + k * m) * (b + l * m) == a * (b + l * m) + k * m * (b + l * m);
    assert a * (b + l * m) == a * b + a * l * m;
    assert k * m * (b + l * m) == k * b * m + k * l * m * m;
    assert (a * l + k * b + k * l * m) * m == a * l * m + k * b * m + k * l * m * m;
  }

  lemma WrapProduct(a: int, b: int)
    ensures Wrap32(Wrap32(a) * Wrap32(b)) == Wrap32(a * b)
  {
    var k := WrapDiff(a);
    var l := WrapDiff(b);
    Expand(a, b, k, l, B32);
    WrapShift(a * b, a * l + k * b + k * l * B32);
  }

  lemma FoldLeft(s: int, v: int)
    ensures Wrap32(Wrap32(Wrap32(s) * 60) + Wrap32(v)) == Wrap32(s * 60 + v)
  {
    var k := WrapDiff(s);
    WrapShift(s * 60, 60 * k);
    WrapSum(s * 60, v);
  }

  lemma FoldRight(t: int, v: int, p: int)
    ensures Wrap32(Wrap32(t) + Wrap32(Wrap32(v) * Wrap32(p))) == Wrap32(v * p + t)
    ensures Wrap32(Wrap32(p) * 60) == Wrap32(p * 60)
  {
    WrapProduct(v, p);
    WrapSum(t, v * p);
    var k := WrapDiff(p);
    WrapShift(p * 60, 60 * k);
  }

  lemma {:induction false} Wrap64Then32(x: int)
    ensures Wrap32(Wrap64(x)) == Wrap32(x)
    decreases if x < 0 then -2 * x - 1 else 2 * x
  {
    if x >= B64 / 2 {
      Wrap64Then32(x - B64);
      WrapShift(x, -B32);
    } else if x < -B64 / 2 {
      Wrap64Then32(x + B64);
      WrapShift(x, B32);
    }
  }

  lemma SameWrap(a: int, b: int, v: int)
    requires Wrap32(a) == Wrap32(b)
    ensures Wrap32(a * 60 + v) == Wrap32(b * 60 + v)
    ensures Wrap32(a * 10 + v) == Wrap32(b * 10 + v)
  {
    var k := WrapDiff(a);
    var l := WrapDiff(b);
    WrapShift(b * 60 + v, 60 * (l - k));
    WrapShift(b * 10 + v, 10 * (l - k));
  }

  lemma FoldWide(h: int, s: int, v: int)
    requires Wrap32(h) == Wrap32(s)
    ensures Wrap32(Wrap64(h * 60 + v)) == Wrap32(s * 60 + v)
  {
    Wrap64Then32(h * 60 + v);
    SameWrap(h, s, v);
  }

  // ----- digits -----

  predicate IsDigit(c: char) {
    '0' <= c <= '9'
  }

  function DigitOf(c: char): nat
    requires IsDigit(c)
  {
    (c - '0') as nat
  }

  predicate AllDigits(s: string) {
    forall i :: 0 <= i < |s| ==> IsDigit(s[i])
  }

  function Value(s: string): nat
    requires AllDigits(s)
  {
    if s == "" then 0 else Value(s[..|s| - 1]) * 10 + DigitOf(s[|s| - 1])
  }

  // strings.Split(s, ":")
  function Split(s: string): (parts: seq<string>)
    ensures parts != []
  {
    if s == "" then [""] else
    var rest := Split(s[1..]);
    if s[0] == ':' then [""] + rest else [[s[0]] + rest[0]] + rest[1..]
  }

  lemma {:induction false} SplitAt(a: string, rest: string)
    requires ':' !in a
    ensures Split(a + ":" + rest) == [a] + Split(rest)
  {
    if a == "" {
      assert a + ":" + rest == [':'] + rest;
    } else {
      SplitAt(a[1..], rest);
      assert (a + ":" + rest)[1..] == a[1..] + ":" + rest;
      assert [a[0]] + a[1..] == a;
    }
  }

  lemma {:induction false} SplitWhole(a: string)
    requires ':' !in a
    ensures Split(a) == [a]
  {
    if a != "" {
      SplitWhole(a[1..]);
      assert [a[0]] + a[1..] == a;
    }
  }

  // ----- reading one group -----

  /** atoi: every character that is not a digit is skipped; 64-bit arithmetic, cut to 32 bits. */
  function Digits64(s: string): int {
    if s == "" then 0 else
    var n := Digits64(s[..|s| - 1]);
    if IsDigit(s[|s| - 1]) then Wrap64(n * 10 + DigitOf(s[|s| - 1])) else n
  }

  predicate Fits64(n: int) {
    -B64 / 2 <= n < B64 / 2
  }

  /** strconv.Atoi: an optional sign and at least one digit, within 64 bits. */
  function StrconvAtoi(s: string): Option<int> {
    var signed := s != "" && (s[0] == '+' || s[0] == '-');
    var digits := if signed then s[1..] else s;
    if digits == "" || !AllDigits(digits) then None else
    var v: int := Value(digits);
    var n := if signed && s[0] == '-' then -v else v;
    if Fits64(n) then Some(n) else None
  }

  function LeadingDigits(s: string): (r: string)
    ensures AllDigits(r)
    ensures AllDigits(s) ==> r == s
  {
    if s == "" || !IsDigit(s[0]) then "" else [s[0]] + LeadingDigits(s[1..])
  }

  function SkipSpace(s: string): string {
    if s != "" && (s[0] == ' ' || s[0] == '\t') then SkipSpace(s[1..]) else s
  }

  /** Sscanf with %d into zero: leading blanks, an optional sign, and the digits that follow; zero on any error. */
  function Scan(s: string): int {
    var t := SkipSpace(s);
    var signed := t != "" && (t[0] == '+' || t[0] == '-');
    var digits := LeadingDigits(if signed then t[1..] else t);
    if digits == "" then 0 else
    var v: int := Value(digits);
    var n := if signed && t[0] == '-' then -v else v;
    if Fits64(n) then n else 0
  }

  // ----- folding the groups -----

  /** The true value of a list of numbers: seconds, minutes, hours, and on in steps of sixty. */
  function Base60(ns: seq<int>): int {
    if ns == [] then 0 else Base60(ns[..|ns| - 1]) * 60 + ns[|ns| - 1]
  }

  /** Right to left, with a wrapping 32-bit weight: the total and the next weight. */
  function FromRight(ns: seq<int>): (int, int) {
    if ns == [] then (0, 1) else
    var (total, mul) := FromRight(ns[1..]);
    (Wrap32(total + Wrap32(Wrap32(ns[0]) * mul)), Wrap32(mul * 60))
  }

  /** Left to right in 64 bits. */
  function Horner64(ns: seq<int>): int {
    if ns == [] then 0 else Wrap64(Horner64(ns[..|ns| - 1]) * 60 + ns[|ns| - 1])
  }

  /** Left to right in 32 bits. */
  function Horner32(ns: seq<int>): int {
    if ns == [] then 0 else Wrap32(Wrap32(Horner32(ns[..|ns| - 1]) * 60) + Wrap32(ns[|ns| - 1]))
  }

  function Pow60(n: nat): nat {
    if n == 0 then 1 else Pow60(n - 1) * 60
  }

  lemma RaiseWeight(v: int, p: int, t: int, x: int)
    ensures (v * p + t) * 60 + x == v * (p * 60) + (t * 60 + x)
  {
  }

  /** Weighting the first number instead of folding it in from the left. */
  lemma {:induction false} Base60FromFront(ns: seq<int>)
    requires ns != []
    ensures Base60(ns) == ns[0] * Pow60(|ns| - 1) + Base60(ns[1..])
    decreases |ns|
  {
    var n := |ns| - 1;
    if n == 0 {
      assert ns[..0] == [] && ns[1..] == [];
    } else {
      var init := ns[..n];
      Base60FromFront(init);
      assert init[1..] == ns[1..][..n - 1];
      RaiseWeight(ns[0], Pow60(n - 1), Base60(init[1..]), ns[n]);
    }
  }

  lemma {:induction false} FromRightIs(ns: seq<int>)
    ensures FromRight(ns) == (Wrap32(Base60(ns)), Wrap32(Pow60(|ns|)))
    decreases |ns|
  {
    if ns != [] {
      Base60FromFront(ns);
      FromRightIs(ns[1..]);
      FoldRight(Base60(ns[1..]), ns[0], Pow60(|ns| - 1));
    }
  }

  lemma {:induction false} Horner64Is(ns: seq<int>)
    ensures Wrap32(Horner64(ns)) == Wrap32(Base60(ns))
    decreases |ns|
  {
    if ns != [] {
      var n := |ns| - 1;
      Horner64Is(ns[..n]);
      FoldWide(Horner64(ns[..n]), Base60(ns[..n]), ns[n]);
    }
  }

  lemma {:induction false} Horner32Is(ns: seq<int>)
    ensures Horner32(ns) == Wrap32(Base60(ns))
    decreases |ns|
  {
    if ns != [] {
      var n := |ns| - 1;
      Horner32Is(ns[..n]);
      FoldLeft(Base60(ns[..n]), ns[n]);
    }
  }

  // ----- the three parsers -----

  function DigitsOf(parts: seq<string>): seq<int> {
    if parts == [] then [] else [Digits64(parts[0])] + DigitsOf(parts[1..])
  }

  function ScansOf(parts: seq<string>): seq<int> {
    if parts == [] then [] else ScansOf(parts[..|parts| - 1]) + [Scan(parts[|parts| - 1])]
  }

  /** The numbers of all groups, read by `read`; None where some group cannot be read. */
  function AllOf(parts: seq<string>, read: string -> Option<int>): Option<seq<int>> {
    if parts == [] then Some([]) else
    var before, n := AllOf(parts[..|parts| - 1], read), read(parts[|parts| - 1]);
    if before.None? || n.None? then None else Some(before.value + [n.value])
  }

  // What the parsers make of a text: parseDuration, parseTimeToSeconds and durationToSeconds.

  function Duration(s: string): int {
    FromRight(DigitsOf(Split(s))).0
  }

  function Time(s: string): int {
    TimeOf(AllOf(Split(s), StrconvAtoi))
  }

  function TimeOf(ns: Option<seq<int>>): int {
    if ns.Some? then Wrap32(Horner64(ns.value)) else 0
  }

  function Arc(s: string): int {
    Horner32(ScansOf(Split(s)))
  }

  method Atoi(s: string) returns (n: int)
    ensures n == Wrap32(Digits64(s))
  {
    n := 0;
    for i := 0 to |s|
      invariant n == Digits64(s[..i])
    {
      assert s[..i + 1][..i] == s[..i];
      if IsDigit(s[i]) {
        n := Wrap64(n * 10 + DigitOf(s[i]));
      }
    }
    assert s[..|s|] == s;
    n := Wrap32(n);
  }

  method ParseDuration(s: string) returns (total: int)
    ensures total == Duration(s)
  {
    var parts := Split(s);
    var mul := 1;
    total := 0;
    var i := |parts|;
    while i > 0
      invariant 0 <= i <= |parts| && (total, mul) == FromRight(DigitsOf(parts[i..]))
    {
      i := i - 1;
      assert parts[i..][1..] == parts[i + 1..];
      assert ([Digits64(parts[i])] + DigitsOf(parts[i + 1..]))[1..] == DigitsOf(parts[i + 1..]);
      var n := Atoi(parts[i]);
      total := Wrap32(total + Wrap32(n * mul));
      mul := Wrap32(mul * 60);
    }
  }

  lemma Horner64Snoc(ns: seq<int>, n: int, total: int)
    requires total == Horner64(ns)
    ensures Horner64(ns + [n]) == Wrap64(total * 60 + n)
  {
    assert (ns + [n])[..|ns|] == ns;
  }

  lemma Horner32Snoc(ns: seq<int>, n: int, total: int)
    requires total == Horner32(ns)
    ensures Horner32(ns + [n]) == Wrap32(Wrap32(total * 60) + Wrap32(n))
  {
    assert (ns + [n])[..|ns|] == ns;
  }

  lemma AllAt(parts: seq<string>, read: string -> Option<int>, i: nat)
    requires i < |parts|
    ensures var before, n := AllOf(parts[..i], read), read(parts[i]);
            AllOf(parts[..i + 1], read) == if before.None? || n.None? then None else Some(before.value + [n.value])
  {
    assert parts[..i + 1][..i] == parts[..i];
  }

  lemma ScansAt(parts: seq<string>, i: nat)
    requires i < |parts|
    ensures ScansOf(parts[..i + 1]) == ScansOf(parts[..i]) + [Scan(parts[i])]
  {
    assert parts[..i + 1][..i] == parts[..i];
  }

  lemma {:induction false} NoneStays(parts: seq<string>, read: string -> Option<int>, i: nat)
    requires i <= |parts| && AllOf(parts[..i], read).None?
    ensures AllOf(parts, read).None?
    decreases |parts| - i
  {
    if i == |parts| {
      assert parts[..i] == parts;
    } else {
      AllAt(parts, read, i);
      NoneStays(parts, read, i + 1);
    }
  }

  method ParseTimeToSeconds(s: string) returns (total: int)
    ensures total == Time(s)
  {
    total := TimeFrom(Split(s), StrconvAtoi);
  }

  /** The loop, for any way of reading one group: a group that cannot be read spoils the whole text. */
  method TimeFrom(parts: seq<string>, read: string -> Option<int>) returns (total: int)
    ensures total == TimeOf(AllOf(parts, read))
  {
    ghost var ns: seq<int> := [];
    total := 0;
    for i := 0 to |parts|
      invariant AllOf(parts[..i], read) == Some(ns) && total == Horner64(ns)
    {
      AllAt(parts, read, i);
      var n := read(parts[i]);
      if n.None? {
        NoneStays(parts, read, i + 1);
        return 0;
      }
      Horner64Snoc(ns, n.value, total);
      ns := ns + [n.value];
      total := Wrap64(total * 60 + n.value);
    }
    assert parts[..|parts|] == parts;
    total := Wrap32(total);
  }

  method DurationToSeconds(s: string) returns (total: int)
    ensures total == Arc(s)
  {
    var parts := Split(s);
    total := 0;
    ghost var ns: seq<int> := [];
    for i := 0 to |parts|
      invariant ScansOf(parts[..i]) == ns && total == Horner32(ns)
    {
      ScansAt(parts, i);
      Horner32Snoc(ns, Scan(parts[i]), total);
      ns := ns + [Scan(parts[i])];
      total := Wrap32(Wrap32(total * 60) + Wrap32(Scan(parts[i])));
    }
    assert parts[..|parts|] == parts;
  }

  // ----- they agree -----

  /** A group of digits, of any length but not empty. */
  predicate Group(s: string) {
    s != "" && AllDigits(s)
  }

  predicate Groups(parts: seq<string>) {
    forall i :: 0 <= i < |parts| ==> Group(parts[i])
  }

  /** Is the value within 63 bits, so that the bounded readers can read it? */
  predicate Fits(s: string)
    requires AllDigits(s)
  {
    Value(s) < B64 / 2
  }

  predicate AllFit(parts: seq<string>)
    requires Groups(parts)
  {
    forall i :: 0 <= i < |parts| ==> Fits(parts[i])
  }

  function ValuesOf(parts: seq<string>): seq<int>
    requires Groups(parts)
  {
    if parts == [] then [] else ValuesOf(parts[..|parts| - 1]) + [Value(parts[|parts| - 1])]
  }

  /** The values with zero for each group that does not fit. */
  function CutValuesOf(parts: seq<string>): seq<int>
    requires Groups(parts)
  {
    if parts == [] then [] else
    var last := parts[|parts| - 1];
    CutValuesOf(parts[..|parts| - 1]) + [if Fits(last) then Value(last) else 0]
  }

  lemma {:induction false} DigitsExact(s: string)
    requires AllDigits(s) && Value(s) < B64 / 2
    ensures Digits64(s) == Value(s)
  {
    if s != "" {
      DigitsExact(s[..|s| - 1]);
    }
  }

  lemma GroupReads(s: string)
    requires Group(s)
    ensures StrconvAtoi(s) == if Fits(s) then Some(Value(s)) else None
    ensures Scan(s) == if Fits(s) then Value(s) else 0
  {
    assert IsDigit(s[0]);
    assert SkipSpace(s) == s;
  }

  /** Skipping what is no digit reads any group right in its lower 32 bits. */
  lemma {:induction false} DigitsWrapped(s: string)
    requires AllDigits(s)
    ensures Wrap32(Digits64(s)) == Wrap32(Value(s))
  {
    if s != "" {
      var init, d := s[..|s| - 1], DigitOf(s[|s| - 1]);
      DigitsWrapped(init);
      Wrap64Then32(Digits64(init) * 10 + d);
      SameWrap(Digits64(init), Value(init), d);
    }
  }

  lemma {:induction false} DigitsSnoc(parts: seq<string>, x: string)
    ensures DigitsOf(parts + [x]) == DigitsOf(parts) + [Digits64(x)]
    decreases |parts|
  {
    if parts == [] {
      assert [] + [x] == [x] && [x][1..] == [];
    } else {
      assert (parts + [x])[1..] == parts[1..] + [x];
      DigitsSnoc(parts[1..], x);
    }
  }

  lemma Base60Snoc(ns: seq<int>, n: int)
    ensures Base60(ns + [n]) == Base60(ns) * 60 + n
  {
    assert (ns + [n])[..|ns|] == ns;
  }

  lemma SameFold(a: int, b: int, x: int, y: int)
    requires Wrap32(a) == Wrap32(b) && Wrap32(x) == Wrap32(y)
    ensures Wrap32(a * 60 + x) == Wrap32(b * 60 + y)
  {
    SameWrap(a, b, x);
    WrapLeft(x, b * 60);
    WrapLeft(y, b * 60);
  }

  lemma {:induction false} DigitsAre(parts: seq<string>)
    requires Groups(parts)
    ensures Wrap32(Base60(DigitsOf(parts))) == Wrap32(Base60(ValuesOf(parts)))
    decreases |parts|
  {
    if parts != [] {
      var n := |parts| - 1;
      var init, last := parts[..n], parts[n];
      DigitsAre(init);
      DigitsSnoc(init, last);
      assert init + [last] == parts;
      Base60Snoc(DigitsOf(init), Digits64(last));
      Base60Snoc(ValuesOf(init), Value(last));
      DigitsWrapped(last);
      SameFold(Base60(DigitsOf(init)), Base60(ValuesOf(init)), Digits64(last), Value(last));
    }
  }

  lemma {:induction false} ScansAre(parts: seq<string>)
    requires Groups(parts)
    ensures ScansOf(parts) == CutValuesOf(parts)
    ensures AllFit(parts) ==> CutValuesOf(parts) == ValuesOf(parts)
    decreases |parts|
  {
    if parts != [] {
      ScansAre(parts[..|parts| - 1]);
      GroupReads(parts[|parts| - 1]);
    }
  }

  lemma AllSnoc(init: seq<string>, last: string, read: string -> Option<int>, before: Option<seq<int>>, n: Option<int>)
    requires AllOf(init, read) == before && read(last) == n
    ensures AllOf(init + [last], read) ==
            if before.None? || n.None? then None else Some(before.value + [n.value])
  {
    assert (init + [last])[..|init|] == init;
  }

  lemma ValuesSnoc(init: seq<string>, last: string)
    requires Groups(init + [last])
    ensures Groups(init) && Group(last)
    ensures ValuesOf(init + [last]) == ValuesOf(init) + [Value(last)]
    ensures AllFit(init + [last]) <==> AllFit(init) && Fits(last)
  {
    var parts := init + [last];
    assert parts[..|init|] == init && parts[|init|] == last;
    assert forall i :: 0 <= i < |init| ==> init[i] == parts[i];
  }

  lemma {:induction false} AtoisAre(parts: seq<string>)
    requires Groups(parts)
    ensures AllOf(parts, StrconvAtoi) == if AllFit(parts) then Some(ValuesOf(parts)) else None
    decreases |parts|
  {
    if parts != [] {
      var init, last := parts[..|parts| - 1], parts[|parts| - 1];
      assert init + [last] == parts;
      AtoisAre(init);
      AtoisNext(init, last);
    }
  }

  lemma AtoisNext(init: seq<string>, last: string)
    requires Groups(init + [last]) && Groups(init)
    requires AllOf(init, StrconvAtoi) == if AllFit(init) then Some(ValuesOf(init)) else None
    ensures var parts := init + [last];
            AllOf(parts, StrconvAtoi) == if AllFit(parts) then Some(ValuesOf(parts)) else None
  {
    ValuesSnoc(init, last);
    GroupReads(last);
    AllSnoc(init, last, StrconvAtoi, AllOf(init, StrconvAtoi), if Fits(last) then Some(Value(last)) else None);
  }

  function Seconds(parts: seq<string>): int
    requires Groups(parts)
  {
    Base60(ValuesOf(parts))
  }

  lemma Above(total: int, x: int, v: int)
    requires 0 <= x <= total && 0 <= v
    ensures x <= total * 60 + v && v <= total * 60 + v
  {
  }

  lemma {:induction false} GroupBelow(parts: seq<string>, i: nat)
    requires Groups(parts) && i < |parts|
    ensures Value(parts[i]) <= Seconds(parts)
    decreases |parts|
  {
    var n := |parts| - 1;
    var init, last := parts[..n], parts[n];
    assert init + [last] == parts;
    ValuesSnoc(init, last);
    Base60Snoc(ValuesOf(init), Value(last));
    if n > 0 {
      var k := if i < n then i else 0;
      GroupBelow(init, k);
      Above(Seconds(init), Value(init[k]), Value(last));
    }
  }

  /**
   What each parser makes of a colon-separated list of digit groups, of any number and length: the true value in 32
   bits; the same, or zero if a group exceeds 63 bits; the same, with zero for each such group.
   */
  lemma ParsersExactly(s: string)
    requires Groups(Split(s))
    ensures Duration(s) == Wrap32(Seconds(Split(s)))
    ensures Time(s) == if AllFit(Split(s)) then Wrap32(Seconds(Split(s))) else 0
    ensures Arc(s) == Wrap32(Base60(CutValuesOf(Split(s))))
    ensures AllFit(Split(s)) ==> CutValuesOf(Split(s)) == ValuesOf(Split(s))
  {
    var parts := Split(s);
    DigitsAre(parts);
    FromRightIs(DigitsOf(parts));
    AtoisAre(parts);
    Horner64Is(ValuesOf(parts));
    ScansAre(parts);
    Horner32Is(CutValuesOf(parts));
  }

  /**
   The parsers agree on every list of digit groups that fit 63 bits, hence on every one with a true value below 2^31,
   which they give.  The two that YouTube texts go through agree on no others, except where both give zero.
   */
  lemma ParsersAgree(s: string)
    requires Groups(Split(s))
    ensures AllFit(Split(s)) ==> Duration(s) == Time(s) == Arc(s)
    ensures Seconds(Split(s)) < B32 / 2 ==> Duration(s) == Time(s) == Arc(s) == Seconds(Split(s))
    ensures Duration(s) == Time(s) <==> AllFit(Split(s)) || Wrap32(Seconds(Split(s))) == 0
  {
    var parts := Split(s);
    ParsersExactly(s);
    if Seconds(parts) < B32 / 2 {
      forall i | 0 <= i < |parts|
        ensures 0 <= Value(parts[i]) <= Seconds(parts)
      {
        GroupBelow(parts, i);
      }
    }
  }

  // ----- the printer -----

  function Dec(n: nat): (s: string)
    ensures s != "" && AllDigits(s)
  {
    if n < 10 then [('0' as int + n) as char] else Dec(n / 10) + [('0' as int + n % 10) as char]
  }

  function Pad2(n: nat): (s: string)
    requires n < 100
    ensures s != "" && AllDigits(s)
  {
    if n < 10 then "0" + Dec(n) else Dec(n)
  }

  function ClockText(d: nat, h: nat, m: nat, s: nat): string
    requires h < 24 && m < 60 && s < 60
  {
    if d > 0 then Dec(d) + "d " + Pad2(h) + ":" + Pad2(m) + ":" + Pad2(s)
    else if h > 0 then Dec(h) + ":" + Pad2(m) + ":" + Pad2(s)
    else Dec(m) + ":" + Pad2(s)
  }

  function SecToMin(seconds: int): string {
    if seconds <= 0 then "0:00"
    else ClockText(seconds / 86400, seconds % 86400 / 3600, seconds % 3600 / 60, seconds % 60)
  }

  lemma HourRemainder(n: int, q: int, r: int)
    requires n == q * 3600 + r && 0 <= r < 3600
    ensures n % 3600 == r
  {
  }

  lemma MinuteRemainder(n: int, q: int, r: int)
    requires n == q * 60 + r && 0 <= r < 60
    ensures n % 60 == r
  {
  }

  lemma Clock(n: nat)
    ensures n == n / 86400 * 86400 + n % 86400 / 3600 * 3600 + n % 3600 / 60 * 60 + n % 60
  {
    var a, b := n % 86400, n % 3600;
    HourRemainder(n, 24 * (n / 86400) + a / 3600, a % 3600);
    MinuteRemainder(n, 60 * (n / 3600) + b / 60, b % 60);
  }

  lemma ZeroText()
    ensures ClockText(0, 0, 0, 0) == "0:00"
  {
  }

  lemma {:induction false} DecValue(n: nat)
    ensures Value(Dec(n)) == n
  {
    var s := Dec(n);
    if n >= 10 {
      DecValue(n / 10);
      assert s[..|s| - 1] == Dec(n / 10);
    } else {
      assert s[..0] == "";
    }
  }

  lemma Pad2Value(n: nat)
    requires n < 100
    ensures Value(Pad2(n)) == n && Group(Pad2(n))
  {
    DecValue(n);
    if n < 10 {
      assert Pad2(n)[..1] == "0" && "0"[..0] == "";
    }
  }

  lemma NoColon(s: string)
    requires AllDigits(s)
    ensures ':' !in s
  {
  }

  lemma TwoNumbers(a: int, b: int)
    ensures Base60([a, b]) == a * 60 + b
  {
    assert [a, b][..1] == [a] && [a][..0] == [];
    assert Base60([a]) == a;
  }

  lemma ThreeNumbers(a: int, b: int, c: int)
    ensures Base60([a, b, c]) == (a * 60 + b) * 60 + c
  {
    TwoNumbers(a, b);
    assert [a, b, c][..2] == [a, b];
  }

  lemma TwoValues(a: string, b: string)
    requires Group(a) && Group(b)
    ensures Groups([a, b]) && ValuesOf([a, b]) == [Value(a), Value(b)]
  {
    assert [a, b][..1] == [a] && [a][..0] == [];
    assert ValuesOf([a]) == [Value(a)];
  }

  lemma ThreeValues(a: string, b: string, c: string)
    requires Group(a) && Group(b) && Group(c)
    ensures Groups([a, b, c]) && ValuesOf([a, b, c]) == [Value(a), Value(b), Value(c)]
  {
    TwoValues(a, b);
    assert [a, b, c][..2] == [a, b];
  }

  lemma ShortText(m: nat, s: nat)
    requires m < 60 && s < 60
    ensures Groups(Split(ClockText(0, 0, m, s))) && Seconds(Split(ClockText(0, 0, m, s))) == m * 60 + s
  {
    NoColon(Dec(m));
    NoColon(Pad2(s));
    SplitAt(Dec(m), Pad2(s));
    SplitWhole(Pad2(s));
    DecValue(m);
    Pad2Value(s);
    TwoValues(Dec(m), Pad2(s));
    assert Split(ClockText(0, 0, m, s)) == [Dec(m), Pad2(s)];
    TwoNumbers(Value(Dec(m)), Value(Pad2(s)));
  }

  /** The groups of a text with three groups. */
  lemma LongText(first: string, m: nat, s: nat)
    requires m < 60 && s < 60 && ':' !in first
    ensures Split(first + ":" + Pad2(m) + ":" + Pad2(s)) == [first, Pad2(m), Pad2(s)]
  {
    NoColon(Pad2(m));
    NoColon(Pad2(s));
    SplitAt(Pad2(m), Pad2(s));
    SplitWhole(Pad2(s));
    assert first + ":" + Pad2(m) + ":" + Pad2(s) == first + ":" + (Pad2(m) + ":" + Pad2(s));
    SplitAt(first, Pad2(m) + ":" + Pad2(s));
  }

  lemma HourText(h: nat, m: nat, s: nat)
    requires 0 < h < 24 && m < 60 && s < 60
    ensures Groups(Split(ClockText(0, h, m, s))) && Seconds(Split(ClockText(0, h, m, s))) == h * 3600 + m * 60 + s
  {
    NoColon(Dec(h));
    DecValue(h);
    LongText(Dec(h), m, s);
    Pad2Value(m);
    Pad2Value(s);
    ThreeValues(Dec(h), Pad2(m), Pad2(s));
    ThreeNumbers(Value(Dec(h)), Value(Pad2(m)), Value(Pad2(s)));
  }

  lemma BelowDay(n: nat)
    requires n < 86400
    ensures Groups(Split(SecToMin(n))) && Seconds(Split(SecToMin(n))) == n
  {
    var h, m, s := n % 86400 / 3600, n % 3600 / 60, n % 60;
    assert n == h * 3600 + m * 60 + s && SecToMin(n) == ClockText(0, h, m, s) by {
      Clock(n);
      ZeroText();
    }
    if h > 0 {
      HourText(h, m, s);
    } else {
      ShortText(m, s);
    }
  }

  // ----- texts of a day and more: the day count runs into the hours -----

  function DayGroup(d: nat, h: nat): string
    requires h < 24
  {
    Dec(d) + "d " + Pad2(h)
  }

  lemma DayGroups(d: nat, h: nat, m: nat, s: nat)
    requires 0 < d && h < 24 && m < 60 && s < 60
    ensures Split(ClockText(d, h, m, s)) == [DayGroup(d, h), Pad2(m), Pad2(s)]
  {
    NoColon(Dec(d));
    NoColon(Pad2(h));
    LongText(DayGroup(d, h), m, s);
  }

  /** Reading only leading digits drops the hours; an exact reading fails. */
  lemma DayReads(d: nat, h: nat)
    requires 0 < d <= 24855 && h < 24
    ensures StrconvAtoi(DayGroup(d, h)) == None && Scan(DayGroup(d, h)) == d
  {
    var a, b := Dec(d), "d " + Pad2(h);
    assert DayGroup(d, h) == a + b;
    DecValue(d);
    assert (a + b)[0] == a[0] && IsDigit(a[0]);
    assert (a + b)[|a|] == 'd' && !IsDigit('d');
    LeadingAre(a, b);
  }

  lemma Digits64Snoc(s: string, c: char)
    ensures Digits64(s + [c]) == if IsDigit(c) then Wrap64(Digits64(s) * 10 + DigitOf(c)) else Digits64(s)
  {
    assert (s + [c])[..|s|] == s;
  }

  /** Skipping what is not a digit joins days and hours. */
  lemma DayDigits(d: nat, h: nat)
    requires 0 < d <= 24855 && h < 24
    ensures Digits64(DayGroup(d, h)) == d * 100 + h
  {
    var a, p := Dec(d), Pad2(h);
    DecValue(d);
    DigitsExact(a);
    Pad2Digits(h);
    Digits64Snoc(a, 'd');
    Digits64Snoc(a + ['d'], ' ');
    Digits64Snoc(a + ['d'] + [' '], p[0]);
    Digits64Snoc(a + ['d'] + [' '] + [p[0]], p[1]);
    assert a + ['d'] + [' '] + [p[0]] + [p[1]] == DayGroup(d, h);
  }

  lemma Pad2Digits(h: nat)
    requires h < 100
    ensures |Pad2(h)| == 2 && DigitOf(Pad2(h)[0]) == h / 10 && DigitOf(Pad2(h)[1]) == h % 10
  {
    if h >= 10 {
      assert |Dec(h / 10)| == 1;
    }
  }

  lemma {:induction false} LeadingAre(a: string, b: string)
    requires AllDigits(a) && (b == "" || !IsDigit(b[0]))
    ensures LeadingDigits(a + b) == a
  {
    if a == "" {
      assert a + b == b;
    } else {
      LeadingAre(a[1..], b);
      assert (a + b)[1..] == a[1..] + b;
    }
  }

  lemma ThreeDigits(x: string, b: string, c: string)
    ensures DigitsOf([x, b, c]) == [Digits64(x), Digits64(b), Digits64(c)]
  {
    assert [x, b, c][1..] == [b, c] && [b, c][1..] == [c] && [c][1..] == [];
    assert DigitsOf([c]) == [Digits64(c)];
    assert DigitsOf([b, c]) == [Digits64(b), Digits64(c)];
  }

  lemma ThreeScans(x: string, b: string, c: string)
    ensures ScansOf([x, b, c]) == [Scan(x), Scan(b), Scan(c)]
  {
    assert [x, b, c][..2] == [x, b] && [x, b][..1] == [x] && [x][..0] == [];
    assert ScansOf([x]) == [Scan(x)];
    assert ScansOf([x, b]) == [Scan(x), Scan(b)];
  }

  lemma FirstUnread(parts: seq<string>)
    requires parts != [] && StrconvAtoi(parts[0]).None?
    ensures AllOf(parts, StrconvAtoi).None?
  {
    AllAt(parts, StrconvAtoi, 0);
    NoneStays(parts, StrconvAtoi, 1);
  }

  lemma Pad2Reads(n: nat)
    requires n < 100
    ensures Scan(Pad2(n)) == n
  {
    Pad2Value(n);
    GroupReads(Pad2(n));
  }

  lemma NumbersDuration(t: string, ns: seq<int>, v: int)
    requires DigitsOf(Split(t)) == ns && v == Base60(ns)
    ensures Duration(t) == Wrap32(v)
  {
    FromRightIs(ns);
  }

  lemma ThreeDuration(t: string, x: string, b: string, c: string, i: int, j: int, k: int, v: int)
    requires Split(t) == [x, b, c] && Digits64(x) == i && Digits64(b) == j && Digits64(c) == k
    requires v == (i * 60 + j) * 60 + k
    ensures Duration(t) == Wrap32(v)
  {
    ThreeDigits(x, b, c);
    ThreeNumbers(i, j, k);
    NumbersDuration(t, [i, j, k], v);
  }

  lemma Pad2Skips(n: nat)
    requires n < 100
    ensures Digits64(Pad2(n)) == n
  {
    Pad2Value(n);
    DigitsExact(Pad2(n));
  }

  lemma DayDuration(d: nat, h: nat, m: nat, s: nat, t: string, v: int)
    requires 0 < d <= 24855 && h < 24 && m < 60 && s < 60 && Split(t) == [DayGroup(d, h), Pad2(m), Pad2(s)]
    requires v == ((d * 100 + h) * 60 + m) * 60 + s
    ensures Duration(t) == Wrap32(v)
  {
    DayDigits(d, h);
    Pad2Skips(m);
    Pad2Skips(s);
    ThreeDuration(t, DayGroup(d, h), Pad2(m), Pad2(s), d * 100 + h, m, s, v);
  }

  lemma DayArc(d: nat, h: nat, m: nat, s: nat, t: string, v: int)
    requires 0 < d <= 24855 && h < 24 && m < 60 && s < 60 && Split(t) == [DayGroup(d, h), Pad2(m), Pad2(s)]
    requires v == (d * 60 + m) * 60 + s
    ensures Arc(t) == Wrap32(v)
  {
    DayReads(d, h);
    Pad2Reads(m);
    Pad2Reads(s);
    ThreeScans(DayGroup(d, h), Pad2(m), Pad2(s));
    Horner32Is([d, m, s]);
    ThreeNumbers(d, m, s);
  }

  lemma DayTime(d: nat, h: nat, m: nat, s: nat, t: string)
    requires 0 < d <= 24855 && h < 24 && m < 60 && s < 60 && Split(t) == [DayGroup(d, h), Pad2(m), Pad2(s)]
    ensures Time(t) == 0
  {
    DayReads(d, h);
    FirstUnread([DayGroup(d, h), Pad2(m), Pad2(s)]);
  }

  lemma DayArithmetic(d: int, h: int, m: int, s: int, n: int, v: int, w: int)
    requires 0 < d <= 24855 && 0 <= h < 24 && 0 <= m < 60 && 0 <= s < 60
    requires n == d * 86400 + h * 3600 + m * 60 + s < B32 / 2
    requires v == ((d * 100 + h) * 60 + m) * 60 + s && w == (d * 60 + m) * 60 + s
    ensures Wrap32(v) != n && Wrap32(w) != n
  {
    var k := WrapDiff(v);
    assert v - n == 273600 * d;
  }

  lemma DayText(n: int)
    requires 86400 <= n < B32 / 2
    ensures Duration(SecToMin(n)) != n && Time(SecToMin(n)) != n && Arc(SecToMin(n)) != n
  {
    var d, h, m, s := n / 86400, n % 86400 / 3600, n % 3600 / 60, n % 60;
    var v, w := ((d * 100 + h) * 60 + m) * 60 + s, (d * 60 + m) * 60 + s;
    Clock(n);
    DayArithmetic(d, h, m, s, n, v, w);
    DayGroups(d, h, m, s);
    DayDuration(d, h, m, s, SecToMin(n), v);
    DayArc(d, h, m, s, SecToMin(n), w);
    DayTime(d, h, m, s, SecToMin(n));
  }

  /** Each of the three parsers inverts the printer on exactly the durations below one day. */
  lemma ParsersInvertPrinterExactlyWhen(n: int)
    requires -B32 / 2 <= n < B32 / 2
    ensures Duration(SecToMin(n)) == n <==> 0 <= n < 86400
    ensures Time(SecToMin(n)) == n <==> 0 <= n < 86400
    ensures Arc(SecToMin(n)) == n <==> 0 <= n < 86400
  {
    if n >= 86400 {
      DayText(n);
    } else {
      var shown := if n < 0 then 0 else n;
      assert SecToMin(n) == SecToMin(shown);
      BelowDay(shown);
      ParsersAgree(SecToMin(shown));
    }
  }

  // ----- what the printer writes, and what the readers accept -----

  /** Decimal digits without a leading zero. */
  lemma {:induction false} DecMeaning(n: nat)
    ensures Value(Dec(n)) == n && (Dec(n)[0] == '0' ==> Dec(n) == "0")
  {
    DecValue(n);
    if n >= 10 {
      DecMeaning(n / 10);
    }
  }

  /** A number below a hundred in two digits. */
  function Two(n: nat): string
    requires n < 100
  {
    [('0' as int + n / 10) as char, ('0' as int + n % 10) as char]
  }

  lemma Pad2IsTwo(n: nat)
    requires n < 100
    ensures Pad2(n) == Two(n)
  {
    Pad2Digits(n);
  }

  lemma Quotients(n: int, q: int, r: int)
    ensures n == q * 86400 + r && 0 <= r < 86400 ==> n / 86400 == q && n % 86400 == r
    ensures n == q * 3600 + r && 0 <= r < 3600 ==> n / 3600 == q && n % 3600 == r
    ensures n == q * 60 + r && 0 <= r < 60 ==> n / 60 == q && n % 60 == r
  {
  }

  lemma ClockParts(d: nat, h: nat, m: nat, s: nat, n: nat)
    requires h < 24 && m < 60 && s < 60 && n == d * 86400 + h * 3600 + m * 60 + s
    ensures n / 86400 == d && n % 86400 / 3600 == h && n % 3600 / 60 == m && n % 60 == s
  {
    Quotients(n, d, h * 3600 + m * 60 + s);
    Quotients(h * 3600 + m * 60 + s, h, m * 60 + s);
    Quotients(n, 24 * d + h, m * 60 + s);
    Quotients(m * 60 + s, m, s);
    Quotients(n, 1440 * d + 60 * h + m, s);
  }

  lemma PrintsClock(d: nat, h: nat, m: nat, s: nat, n: nat)
    requires h < 24 && m < 60 && s < 60 && n == d * 86400 + h * 3600 + m * 60 + s
    ensures SecToMin(n) == ClockText(d, h, m, s)
  {
    ClockParts(d, h, m, s, n);
    ZeroText();
  }

  /** Days, then hours, are printed only from there on; everything behind the first number has two digits. */
  lemma SecToMinMeaning(d: nat, h: nat, m: nat, s: nat, n: int)
    requires h < 24 && m < 60 && s < 60
    ensures n == d * 86400 + h * 3600 + m * 60 + s ==>
              SecToMin(n) ==
              if d > 0 then Dec(d) + "d " + Two(h) + ":" + Two(m) + ":" + Two(s)
              else if h > 0 then Dec(h) + ":" + Two(m) + ":" + Two(s)
              else Dec(m) + ":" + Two(s)
    ensures n <= 0 ==> SecToMin(n) == "0:00"
  {
    if n == d * 86400 + h * 3600 + m * 60 + s {
      PrintsClock(d, h, m, s, n);
    }
    Pad2IsTwo(h);
    Pad2IsTwo(m);
    Pad2IsTwo(s);
  }

  lemma {:induction false} DigitsSkip(a: string, c: char, b: string)
    requires !IsDigit(c)
    ensures Digits64(a + [c] + b) == Digits64(a + b)
    decreases |b|
  {
    if b == "" {
      Digits64Snoc(a, c);
      assert a + [c] + b == a + [c] && a + b == a;
    } else {
      var n := |b| - 1;
      DigitsSkip(a, c, b[..n]);
      Digits64Snoc(a + [c] + b[..n], b[n]);
      Digits64Snoc(a + b[..n], b[n]);
      assert a + [c] + b[..n] + [b[n]] == a + [c] + b && a + b[..n] + [b[n]] == a + b;
    }
  }

  /** The first reader passes over a character that is no digit, wherever it stands in a group. */
  lemma SkipsMeaning(a: string, c: char, b: string)
    requires !IsDigit(c)
    ensures Digits64(a + [c] + b) == Digits64(a + b)
  {
    DigitsSkip(a, c, b);
  }

  /** The second one takes a sign and digits that fit, and nothing else. */
  lemma AtoiMeaning(digits: string, v: int)
    requires Group(digits) && v == Value(digits)
    ensures StrconvAtoi(digits) == StrconvAtoi("+" + digits) == if v < 0x8000_0000_0000_0000 then Some(v) else None
    ensures StrconvAtoi("-" + digits) == if v <= 0x8000_0000_0000_0000 then Some(-v) else None
    ensures StrconvAtoi("") == StrconvAtoi("+") == StrconvAtoi("-") == None
  {
    assert ("+" + digits)[1..] == digits && ("-" + digits)[1..] == digits;
    assert IsDigit(digits[0]);
    assert "+"[1..] == "" && "-"[1..] == "";
  }

  lemma AtoiRejects(s: string, i: nat)
    requires i < |s| && !IsDigit(s[i]) && (i == 0 ==> s[0] != '+' && s[0] != '-')
    ensures StrconvAtoi(s) == None
  {
    if s[0] == '+' || s[0] == '-' {
      assert s[1..][i - 1] == s[i];
    }
  }

  predicate Blank(c: char) {
    c == ' ' || c == '\t'
  }

  predicate Blanks(s: string) {
    forall i :: 0 <= i < |s| ==> Blank(s[i])
  }

  lemma {:induction false} BlanksSkip(blanks: string, s: string)
    requires Blanks(blanks) && s != "" && !Blank(s[0])
    ensures SkipSpace(blanks + s) == s
    decreases |blanks|
  {
    if blanks == "" {
      assert blanks + s == s;
    } else {
      assert Blank(blanks[0]);
      assert (blanks + s)[1..] == blanks[1..] + s && (blanks + s)[0] == blanks[0];
      BlanksSkip(blanks[1..], s);
    }
  }

  /** The third one takes blanks, a sign and the digits up to the first other character; zero if that does not fit. */
  lemma ScanMeaning(blanks: string, digits: string, rest: string, v: int)
    requires Blanks(blanks) && Group(digits) && (rest == "" || !IsDigit(rest[0])) && v == Value(digits)
    ensures Scan(blanks + (digits + rest)) == if v < 0x8000_0000_0000_0000 then v else 0
    ensures Scan(blanks + (['+'] + (digits + rest))) == if v < 0x8000_0000_0000_0000 then v else 0
    ensures Scan(blanks + (['-'] + (digits + rest))) == if v <= 0x8000_0000_0000_0000 then -v else 0
  {
    LeadingAre(digits, rest);
    ScanPlain(blanks, digits, rest, v);
    ScanSigned(blanks, '+', digits + rest, digits, v);
    ScanSigned(blanks, '-', digits + rest, digits, v);
  }

  lemma ScanPlain(blanks: string, digits: string, rest: string, v: int)
    requires Blanks(blanks) && Group(digits) && LeadingDigits(digits + rest) == digits && v == Value(digits)
    ensures Scan(blanks + (digits + rest)) == if v < 0x8000_0000_0000_0000 then v else 0
  {
    assert IsDigit(digits[0]) && (digits + rest)[0] == digits[0];
    BlanksSkip(blanks, digits + rest);
  }

  lemma ScanSigned(blanks: string, sign: char, t: string, digits: string, v: int)
    requires Blanks(blanks) && (sign == '+' || sign == '-') && LeadingDigits(t) == digits
    requires digits != "" && v == Value(digits)
    ensures Scan(blanks + ([sign] + t)) ==
            if sign == '+' then if v < 0x8000_0000_0000_0000 then v else 0
            else if v <= 0x8000_0000_0000_0000 then -v else 0
  {
    BlanksSkip(blanks, [sign] + t);
    assert ([sign] + t)[1..] == t;
  }
}

/** The two pieces of the C library the OBJ loader leans on for its face
    records: the "C" locale's character classes and `sscanf` with a format of
    32 `%d` conversions separated by blanks. Strings are sequences of
    characters. The behaviour follows the C standard's description of
    `sscanf` (section 7.21.6.2 of ISO/IEC 9899:2011): white space is skipped
    before a `%d` item, a blank directive matches any amount of white space,
    and the function returns `EOF` when the input runs out before the first
    conversion. */
module CScan {
  import Mesh

  /** `isspace` in the "C" locale. */
  predicate IsSpace(c: char) {
    c == ' ' || c == '\t' || c == '\n' || c == '\U{0B}' || c == '\U{0C}' || c == '\r'
  }

  predicate IsDigit(c: char) {
    '0' <= c <= '9'
  }

  predicate IsSign(c: char) {
    c == '+' || c == '-'
  }

  predicate AllDigits(s: string) {
    forall i :: 0 <= i < |s| ==> IsDigit(s[i])
  }

  function DigitValue(c: char): (d: nat)
    requires IsDigit(c)
    ensures d < 10
  {
    c as int - '0' as int
  }

  function DigitChar(d: nat): (c: char)
    requires d < 10
    ensures IsDigit(c) && DigitValue(c) == d
  {
    ('0' as int + d) as char
  }

  /** What is left of `s` after its leading white space. */
  function SkipSpace(s: string): (r: string)
    ensures |r| <= |s| && r == s[|s| - |r|..]
    ensures |r| == 0 || !IsSpace(r[0])
  {
    if |s| > 0 && IsSpace(s[0]) then SkipSpace(s[1..]) else s
  }

  /** Length of the run of decimal digits at the front of `s`. */
  function DigitRun(s: string): (n: nat)
    ensures n <= |s|
    ensures forall i :: 0 <= i < n ==> IsDigit(s[i])
    ensures n == |s| || !IsDigit(s[n])
  {
    if |s| > 0 && IsDigit(s[0]) then 1 + DigitRun(s[1..]) else 0
  }

  /** Value of a string of decimal digits, most significant digit first. */
  function DecimalValue(ds: string): nat
    requires AllDigits(ds)
  {
    if |ds| == 0 then 0 else DecimalValue(ds[..|ds| - 1]) * 10 + DigitValue(ds[|ds| - 1])
  }

  /** True when a `%d` item can be read at the very front of `t`. */
  predicate StartsInteger(t: string) {
    |t| > 0 && (IsDigit(t[0]) || (IsSign(t[0]) && |t| > 1 && IsDigit(t[1])))
  }

  /** The outcome of one `%d` conversion. */
  datatype Conversion = Converted(value: int, rest: string) | MatchingFailure | InputFailure

  /** One `%d` conversion: skip white space, then read the item. */
  function ScanDecimal(s: string): (r: Conversion)
    ensures r.InputFailure? <==> SkipSpace(s) == []
    ensures r.Converted? <==> StartsInteger(SkipSpace(s))
    ensures r.Converted? ==> |r.rest| < |s|
  {
    ReadDecimal(SkipSpace(s))
  }

  /** A `%d` item at the front of `t`: an optional sign and the longest run of
      digits after it. Running out of input before the item starts is an
      input failure; an item without digits is a matching failure. */
  function ReadDecimal(t: string): (r: Conversion)
    ensures r.InputFailure? <==> t == []
    ensures r.Converted? <==> StartsInteger(t)
    ensures r.Converted? ==> |r.rest| < |t|
  {
    if |t| == 0 then InputFailure
    else
      var u := if IsSign(t[0]) then t[1..] else t;
      var n := DigitRun(u);
      if n == 0 then MatchingFailure
      else
        assert AllDigits(u[..n]);
        var magnitude: int := DecimalValue(u[..n]);
        Converted(if t[0] == '-' then -magnitude else magnitude, u[n..])
  }

  /** Number of `%d` conversions in the face-record format. */
  const MAX_CONVERSIONS: nat := 32

  /** What `sscanf` reports: `count` is its return value, the number of
      items taken or -1 (`EOF`); `values` are the items taken, in
      order. */
  datatype ScanResult = ScanResult(count: int, values: seq<int>)

  /** `sscanf(s, "%d %d … %d", …)` with `MAX_CONVERSIONS` conversions. */
  function ScanIntegers(s: string): (r: ScanResult)
    ensures |r.values| <= MAX_CONVERSIONS
    ensures r.count == -1 <==> SkipSpace(s) == []
    ensures r.count == -1 ==> r.values == []
    ensures r.count != -1 ==> r.count == |r.values|
  {
    ScanFrom(s, [])
  }

  /** The conversions left once `taken` have been read. The blank
      directive between two conversions skips the same white space the
      next `%d` would skip, so it needs no step of its own. */
  function ScanFrom(s: string, taken: seq<int>): (r: ScanResult)
    requires |taken| <= MAX_CONVERSIONS
    decreases MAX_CONVERSIONS - |taken|
    ensures |r.values| <= MAX_CONVERSIONS
    ensures r.count == -1 <==> |taken| == 0 && SkipSpace(s) == []
    ensures r.count == -1 ==> r.values == []
    ensures r.count != -1 ==> r.count == |r.values|
  {
    if |taken| == MAX_CONVERSIONS then ScanResult(|taken|, taken)
    else
      match ScanDecimal(s)
      case InputFailure => ScanResult(if |taken| == 0 then -1 else |taken|, taken)
      case MatchingFailure => ScanResult(|taken|, taken)
      case Converted(v, rest) => ScanFrom(rest, taken + [v])
  }

  // ---------------------------------------------------------------------
  // Writing integers back out, and the round trip through ScanIntegers.
  // ---------------------------------------------------------------------

  /** Decimal digits of `n`, without leading zeros. */
  function NaturalDigits(n: nat): (s: string)
    ensures |s| > 0 && AllDigits(s)
  {
    if n < 10 then [DigitChar(n)] else NaturalDigits(n / 10) + [DigitChar(n % 10)]
  }

  /** `x` as `printf("%d")` writes it. */
  function Decimal(x: int): (s: string)
    ensures |s| > 0 && (IsDigit(s[0]) || s[0] == '-')
  {
    if x < 0 then "-" + NaturalDigits(-x) else NaturalDigits(x)
  }

  /** The integers `xs` written with one blank between each two. */
  function Spaced(xs: seq<int>): string
    decreases |xs|
  {
    if |xs| == 0 then ""
    else if |xs| == 1 then Decimal(xs[0])
    else Decimal(xs[0]) + " " + Spaced(xs[1..])
  }

  /** Text that ends a `%d` list: it does not continue the last number and no
      further number follows it. */
  predicate Delimits(rest: string) {
    (|rest| == 0 || !IsDigit(rest[0])) && !StartsInteger(SkipSpace(rest))
  }

  lemma {:induction false} DecimalValueOfDigits(n: nat)
    ensures DecimalValue(NaturalDigits(n)) == n
  {
    if n >= 10 {
      var s := NaturalDigits(n);
      DecimalValueOfDigits(n / 10);
      assert s[..|s| - 1] == NaturalDigits(n / 10);
    }
  }

  lemma {:induction false} DigitRunOfDigits(ds: string, t: string)
    requires AllDigits(ds)
    requires |t| == 0 || !IsDigit(t[0])
    ensures DigitRun(ds + t) == |ds|
  {
    if |ds| > 0 {
      assert (ds + t)[1..] == ds[1..] + t;
      DigitRunOfDigits(ds[1..], t);
    } else {
      assert ds + t == t;
    }
  }

  /** A number written by `Decimal` reads back as itself, and the
      conversion stops right after it. */
  lemma {:induction false} ScanDecimalOfDecimal(x: int, t: string)
    requires |t| == 0 || !IsDigit(t[0])
    ensures ScanDecimal(Decimal(x) + t) == Converted(x, t)
  {
    var s := Decimal(x) + t;
    assert s[0] == Decimal(x)[0];
    NothingToSkip(s);
    ReadDecimalOfDecimal(x, t);
  }

  lemma NothingToSkip(s: string)
    requires |s| > 0 && !IsSpace(s[0])
    ensures SkipSpace(s) == s
  {
  }

  lemma {:induction false} ReadDecimalOfDecimal(x: int, t: string)
    requires |t| == 0 || !IsDigit(t[0])
    ensures ReadDecimal(Decimal(x) + t) == Converted(x, t)
  {
    if x < 0 {
      ReadSignedDigits(-x, t);
    } else {
      ReadDigits(x, t);
    }
  }

  lemma {:induction false} ReadDigits(m: nat, t: string)
    requires |t| == 0 || !IsDigit(t[0])
    ensures ReadDecimal(NaturalDigits(m) + t) == Converted(m, t)
  {
    var ds := NaturalDigits(m);
    var u := ds + t;
    assert !IsSign(u[0]);
    DigitRunOfDigits(ds, t);
    assert u[..|ds|] == ds;
    assert u[|ds|..] == t;
    DecimalValueOfDigits(m);
  }

  lemma {:induction false} ReadSignedDigits(m: nat, t: string)
    requires m > 0
    requires |t| == 0 || !IsDigit(t[0])
    ensures ReadDecimal("-" + NaturalDigits(m) + t) == Converted(-(m as int), t)
  {
    var ds := NaturalDigits(m);
    var s := "-" + ds + t;
    var u := ds + t;
    assert s[0] == '-' && s[1..] == u;
    DigitRunOfDigits(ds, t);
    assert u[..|ds|] == ds;
    assert u[|ds|..] == t;
    DecimalValueOfDigits(m);
  }

  /** Leading blanks do not change what a `%d` list reads. */
  lemma {:induction false} ScanFromSkipsBlank(u: string, taken: seq<int>)
    requires |taken| <= MAX_CONVERSIONS
    ensures ScanFrom(" " + u, taken) == ScanFrom(u, taken)
  {
    assert (" " + u)[1..] == u;
    assert SkipSpace(" " + u) == SkipSpace(u);
  }

  lemma AppendFirst(taken: seq<int>, xs: seq<int>)
    requires |xs| > 0
    ensures taken + [xs[0]] + xs[1..] == taken + xs
    ensures |xs| == 1 ==> taken + [xs[0]] == taken + xs
  {
    assert xs == [xs[0]] + xs[1..];
  }

  /** One number of a list is consumed by one conversion. */
  lemma {:induction false} ScanFromNumber(x: int, tail: string, taken: seq<int>)
    requires |taken| < MAX_CONVERSIONS
    requires |tail| == 0 || !IsDigit(tail[0])
    ensures ScanFrom(Decimal(x) + tail, taken) == ScanFrom(tail, taken + [x])
  {
    ScanDecimalOfDecimal(x, tail);
  }

  /** Once the last number is read, text that `Delimits` the list ends it. */
  lemma {:induction false} ScanFromDelimited(rest: string, taken: seq<int>)
    requires 0 < |taken| <= MAX_CONVERSIONS
    requires Delimits(rest)
    ensures ScanFrom(rest, taken) == ScanResult(|taken|, taken)
  {
    if |taken| < MAX_CONVERSIONS {
      var c := ScanDecimal(rest);
      assert !c.Converted?;
    }
  }

  lemma {:induction false} ScanFromSpaced(xs: seq<int>, rest: string, taken: seq<int>)
    requires 1 <= |xs| && |taken| + |xs| <= MAX_CONVERSIONS
    requires Delimits(rest)
    ensures ScanFrom(Spaced(xs) + rest, taken) == ScanResult(|taken| + |xs|, taken + xs)
    decreases |xs|
  {
    if |xs| == 1 {
      ScanFromLast(xs, rest, taken);
    } else {
      var next := taken + [xs[0]];
      var more := Spaced(xs[1..]) + rest;
      SpacedCons(xs, rest);
      ScanFromNumber(xs[0], " " + more, taken);
      ScanFromSkipsBlank(more, next);
      ScanFromSpaced(xs[1..], rest, next);
      AppendFirst(taken, xs);
    }
  }

  lemma ScanFromLast(xs: seq<int>, rest: string, taken: seq<int>)
    requires |xs| == 1 && |taken| < MAX_CONVERSIONS
    requires Delimits(rest)
    ensures ScanFrom(Spaced(xs) + rest, taken) == ScanResult(|taken| + 1, taken + xs)
  {
    assert Spaced(xs) == Decimal(xs[0]);
    ScanFromNumber(xs[0], rest, taken);
    ScanFromDelimited(rest, taken + [xs[0]]);
    AppendFirst(taken, xs);
  }

  /** A list of two or more numbers is its first number, a blank and the
      rest of the list. */
  lemma SpacedCons(xs: seq<int>, rest: string)
    requires |xs| >= 2
    ensures Spaced(xs) + rest == Decimal(xs[0]) + (" " + (Spaced(xs[1..]) + rest))
  {
    var d, tail := Decimal(xs[0]), Spaced(xs[1..]);
    assert Spaced(xs) == d + " " + tail;
    Mesh.Associative(d + " ", tail, rest);
    Mesh.Associative(d, " ", tail + rest);
  }

  lemma {:induction false} ScanFromSpacedTruncates(xs: seq<int>, rest: string, taken: seq<int>)
    requires |taken| <= MAX_CONVERSIONS < |taken| + |xs|
    requires |rest| == 0 || !IsDigit(rest[0])
    ensures ScanFrom(Spaced(xs) + rest, taken) == ScanResult(MAX_CONVERSIONS, (taken + xs)[..MAX_CONVERSIONS])
    decreases |xs|
  {
    if |taken| == MAX_CONVERSIONS {
      assert (taken + xs)[..MAX_CONVERSIONS] == taken;
    } else {
      var next := taken + [xs[0]];
      var more := Spaced(xs[1..]) + rest;
      SpacedCons(xs, rest);
      ScanFromNumber(xs[0], " " + more, taken);
      ScanFromSkipsBlank(more, next);
      ScanFromSpacedTruncates(xs[1..], rest, next);
      AppendFirst(taken, xs);
    }
  }

  /** Round trip: up to 32 integers written with blanks between them and
      followed by text that does not continue the list are read back
      exactly, and the return value is their number. */
  lemma {:induction false} ScanSpaced(xs: seq<int>, rest: string)
    requires 1 <= |xs| <= MAX_CONVERSIONS
    requires Delimits(rest)
    ensures ScanIntegers(Spaced(xs) + rest) == ScanResult(|xs|, xs)
  {
    ScanFromSpaced(xs, rest, []);
    assert [] + xs == xs;
  }

  /** Only the first 32 integers of a longer list are read; the return value
      is 32 whatever follows. */
  lemma {:induction false} ScanSpacedTruncates(xs: seq<int>, rest: string)
    requires |xs| > MAX_CONVERSIONS
    requires |rest| == 0 || !IsDigit(rest[0])
    ensures ScanIntegers(Spaced(xs) + rest) == ScanResult(MAX_CONVERSIONS, xs[..MAX_CONVERSIONS])
  {
    ScanFromSpacedTruncates(xs, rest, []);
  }
}

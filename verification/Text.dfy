/** C text: white space, searching, clipping, and numbers. */
module Text {
  import opened Prelude

  /** `isspace` in the C locale. */
  predicate IsSpace(c: char) {
    c == ' ' || '\t' <= c <= '\r'
  }

  /** The text before the first `c`, or all of it. */
  function Upto(s: string, c: char): (r: string)
    ensures r <= s && c !in r && (r == s || s[|r|] == c)
  {
    if |s| == 0 || s[0] == c then [] else [s[0]] + Upto(s[1..], c)
  }

  function SkipSpace(s: string): (r: string)
    ensures |r| <= |s| && r == s[|s| - |r|..] && (|r| > 0 ==> !IsSpace(r[0]))
    ensures forall i :: 0 <= i < |s| - |r| ==> IsSpace(s[i])
  {
    if |s| > 0 && IsSpace(s[0]) then SkipSpace(s[1..]) else s
  }

  function DropSpace(s: string): (r: string)
    ensures r <= s && (|r| > 0 ==> !IsSpace(r[|r| - 1]))
    ensures forall i :: |r| <= i < |s| ==> IsSpace(s[i])
  {
    if |s| > 0 && IsSpace(s[|s| - 1]) then DropSpace(s[..|s| - 1]) else s
  }

  /** `trim` of src/conf.c and `rtrim` of src/rules.c, which are the same. */
  function Trimmed(s: string): (r: string)
    ensures forall c :: c in r ==> c in s
  {
    var a := SkipSpace(s);
    var r := DropSpace(a);
    assert a == s[|s| - |a|..] && r == a[..|r|];
    r
  }

  function Clipped(s: string, n: nat): string {
    if |s| <= n then s else s[..n]
  }

  // ---------------------------------------------------------------- numbers

  function Digit(n: nat): char
    requires n < 10
  {
    '0' + n as char
  }

  predicate IsDigit(c: char) {
    '0' <= c <= '9'
  }

  function Digits(n: nat): (r: string)
    ensures |r| > 0 && forall i :: 0 <= i < |r| ==> IsDigit(r[i])
  {
    if n < 10 then [Digit(n)] else Digits(n / 10) + [Digit(n % 10)]
  }

  /** What `%d` prints. */
  function Decimal(n: int): string {
    if n < 0 then "-" + Digits(-n) else Digits(n)
  }

  function ValueOf(s: string): nat
    requires forall i :: 0 <= i < |s| ==> IsDigit(s[i])
  {
    if |s| == 0 then 0
    else
      assert IsDigit(s[|s| - 1]);
      10 * ValueOf(s[..|s| - 1]) + (s[|s| - 1] as int - '0' as int)
  }

  /** The digits a text starts with. */
  function DigitRun(s: string): (r: string)
    ensures r <= s && forall i :: 0 <= i < |r| ==> IsDigit(r[i])
  {
    if |s| > 0 && IsDigit(s[0]) then [s[0]] + DigitRun(s[1..]) else []
  }

  /** What `%d` reads: white space, a sign, digits; with the text behind them. None if there is no digit. */
  function Scanned(s: string): (r: Option<(int, string)>)
    ensures r.Some? ==> forall c :: c in r.value.1 ==> c in s
  {
    var t := SkipSpace(s);
    var signed := |t| > 0 && (t[0] == '-' || t[0] == '+');
    var u := if signed then t[1..] else t;
    var run := DigitRun(u);
    var v: int := ValueOf(run);
    assert forall c :: c in u[|run|..] ==> c in t;
    if |run| == 0 then None else Some((if signed && t[0] == '-' then -v else v, u[|run|..]))
  }

  function Number(s: string): Option<int> {
    var r := Scanned(s);
    if r.None? then None else Some(r.value.0)
  }

  /** The two numbers of `%d`, a separator and `%d`; the second one only behind the first one and the separator. */
  function ScannedPair(s: string, separator: char): (Option<int>, Option<int>) {
    var r := Scanned(s);
    if r.None? then (None, None)
    else
      var (n, rest) := r.value;
      (Some(n), if |rest| > 0 && rest[0] == separator then Number(rest[1..]) else None)
  }

  /** `atoi`, for texts whose number fits an `int`. */
  function Atoi(s: string): int {
    if Number(s).None? then 0 else Number(s).value
  }

  predicate Int32(n: int) {
    -0x8000_0000 <= n < 0x8000_0000
  }

  // ---------------------------------------------------------------- numbers are read back

  lemma {:induction false} DigitsValue(n: nat)
    ensures ValueOf(Digits(n)) == n
  {
    if n >= 10 {
      DigitsValue(n / 10);
      var s := Digits(n);
      assert s[..|s| - 1] == Digits(n / 10);
    } else {
      assert [Digit(n)][..0] == [];
    }
  }

  lemma {:induction false} RunOfDigits(d: string, rest: string)
    requires forall i :: 0 <= i < |d| ==> IsDigit(d[i])
    requires |rest| > 0 ==> !IsDigit(rest[0])
    ensures DigitRun(d + rest) == d
  {
    if |d| > 0 {
      assert (d + rest)[1..] == d[1..] + rest;
      RunOfDigits(d[1..], rest);
    } else {
      assert d + rest == rest;
    }
  }

  lemma ScannedBack(n: int, rest: string)
    requires |rest| > 0 ==> !IsDigit(rest[0])
    ensures Scanned(Decimal(n) + rest) == Some((n, rest))
  {
    hide Digits, DigitRun, ValueOf, SkipSpace;
    var s := Decimal(n) + rest;
    var d := Digits(if n < 0 then -n else n);
    assert !IsSpace(s[0]);
    assert SkipSpace(s) == s;
    if n < 0 {
      assert s == "-" + (d + rest);
      assert s[1..] == d + rest;
    } else {
      assert s == d + rest;
      assert IsDigit(s[0]);
    }
    RunOfDigits(d, rest);
    DigitsValue(if n < 0 then -n else n);
  }

  /** A printed number is read back, whatever follows it. */
  lemma NumberRoundTrip(n: int, rest: string)
    requires |rest| > 0 ==> !IsDigit(rest[0])
    ensures Number(Decimal(n) + rest) == Some(n)
  {
    hide Scanned, Decimal;
    ScannedBack(n, rest);
  }

  /** And so are two with a separator between them. */
  lemma PairRoundTrip(m: int, separator: char, n: int)
    requires !IsDigit(separator)
    ensures ScannedPair(Decimal(m) + ([separator] + Decimal(n)), separator) == (Some(m), Some(n))
  {
    hide Scanned, Decimal;
    var rest := [separator] + Decimal(n);
    ScannedBack(m, rest);
    assert rest[1..] == Decimal(n);
    NumberRoundTrip(n, "");
    assert Decimal(n) + "" == Decimal(n);
  }

  function Ten(k: nat): nat {
    if k == 0 then 1 else 10 * Ten(k - 1)
  }

  lemma {:induction false} DigitsLength(n: nat, k: nat)
    requires n < Ten(k) && k > 0
    ensures |Digits(n)| <= k
  {
    if n >= 10 {
      DigitsLength(n / 10, k - 1);
    }
  }

  lemma DecimalShort(n: int)
    requires Int32(n)
    ensures |Decimal(n)| <= 11
    ensures forall c :: c in Decimal(n) ==> c == '-' || IsDigit(c)
  {
    assert Ten(5) == 100000;
    assert Ten(10) == Ten(5) * 100000;
    DigitsLength(if n < 0 then -n else n, 10);
  }

  lemma {:induction false} UptoFirst(a: string, c: char, rest: string)
    requires c !in a && (|rest| > 0 ==> rest[0] == c)
    ensures Upto(a + rest, c) == a
  {
    if |a| > 0 {
      assert a == [a[0]] + a[1..] && (a + rest)[1..] == a[1..] + rest;
      UptoFirst(a[1..], c, rest);
    } else {
      assert a + rest == rest;
    }
  }

  ghost predicate AllSpace(s: string) {
    forall i :: 0 <= i < |s| ==> IsSpace(s[i])
  }

  lemma {:induction false} SpacesSkipped(a: string, rest: string)
    requires AllSpace(a) && (|rest| > 0 ==> !IsSpace(rest[0]))
    ensures SkipSpace(a + rest) == rest
  {
    if |a| > 0 {
      assert (a + rest)[1..] == a[1..] + rest;
      SpacesSkipped(a[1..], rest);
    } else {
      assert a + rest == rest;
    }
  }

  lemma {:induction false} SpacesDropped(r: string, b: string)
    requires AllSpace(b) && (|r| > 0 ==> !IsSpace(r[|r| - 1]))
    ensures DropSpace(r + b) == r
  {
    if |b| > 0 {
      assert (r + b)[..|r + b| - 1] == r + b[..|b| - 1];
      SpacesDropped(r, b[..|b| - 1]);
    } else {
      assert r + b == r;
    }
  }

  /** Trimming takes away the white space at both ends and nothing else. */
  lemma TrimmedExactly(a: string, r: string, b: string)
    requires AllSpace(a) && AllSpace(b) && |r| > 0 && !IsSpace(r[0]) && !IsSpace(r[|r| - 1])
    ensures Trimmed(a + r + b) == r
  {
    hide SkipSpace, DropSpace;
    assert a + r + b == a + (r + b);
    SpacesSkipped(a, r + b);
    SpacesDropped(r, b);
  }
}

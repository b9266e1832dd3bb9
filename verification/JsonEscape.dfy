/** The bounded JSON string escaper, and the string syntax of section 7 of RFC 8259 it writes. */
module JsonEscape {
  import opened Prelude

  type Byte = b: int | 0 <= b < 256

  /** The bytes of a C string; its terminator is not one of them. */
  type Char = b: int | 1 <= b < 256 witness 1

  const QUOTE: Byte := 34
  const BACKSLASH: Byte := 92
  const SPACE: Byte := 32

  // ---------------------------------------------------------------- what is written

  /** How one character is written; control characters without a short escape are left out. */
  function Escaped(c: Char): (r: seq<Byte>)
    ensures |r| <= 2
  {
    if c == QUOTE || c == BACKSLASH then [BACKSLASH, c]
    else if c == 10 then [BACKSLASH, 110]
    else if c == 13 then [BACKSLASH, 114]
    else if c == 9 then [BACKSLASH, 116]
    else if c < SPACE then []
    else [c]
  }

  /** The whole text, written without any bound. */
  function Encoded(src: seq<Char>): seq<Byte> {
    if |src| == 0 then [] else Encoded(src[..|src| - 1]) + Escaped(src[|src| - 1])
  }

  /** What has to survive: everything but the control characters other than tab, newline and return. */
  predicate Kept(c: Char) {
    c >= SPACE || c == 9 || c == 10 || c == 13
  }

  /** The source without the control characters that cannot be written. */
  function Writable(src: seq<Char>): seq<Char> {
    if |src| == 0 then []
    else Writable(src[..|src| - 1]) + if Kept(src[|src| - 1]) then [src[|src| - 1]] else []
  }

  /** How much of the source is written into `size` bytes: the loop stops at the first position where
      fewer than three bytes are left. */
  function Taken(src: seq<Char>, size: nat, from: nat): (k: nat)
    requires from <= |src|
    ensures from <= k <= |src|
    ensures k < |src| ==> |Encoded(src[..k])| + 2 >= size
    ensures forall i :: from <= i < k ==> |Encoded(src[..i])| + 2 < size
    decreases |src| - from
  {
    if from == |src| || |Encoded(src[..from])| + 2 >= size then from else Taken(src, size, from + 1)
  }

  /** The text left in a buffer of `size` bytes, without its terminator. */
  function Output(src: seq<Char>, size: nat): seq<Byte> {
    Encoded(src[..Taken(src, size, 0)])
  }

  // ---------------------------------------------------------------- reading it back

  /** The character a two-character escape stands for. The six-character `\u` escapes are not needed here. */
  function Unescaped(e: Byte): Option<Byte> {
    if e == QUOTE || e == BACKSLASH || e == 47 then Some(e)
    else if e == 98 then Some(8)
    else if e == 102 then Some(12)
    else if e == 110 then Some(10)
    else if e == 114 then Some(13)
    else if e == 116 then Some(9)
    else None
  }

  /** The meaning of the characters between the quotes of a JSON string, if they are well formed. */
  function Decoded(s: seq<Byte>): Option<seq<Byte>> {
    if |s| == 0 then Some([])
    else if s[0] == BACKSLASH then
      if |s| < 2 || Unescaped(s[1]).None? then None
      else
        var rest := Decoded(s[2..]);
        if rest.None? then None else Some([Unescaped(s[1]).value] + rest.value)
    else if s[0] < SPACE || s[0] == QUOTE then None
    else
      var rest := Decoded(s[1..]);
      if rest.None? then None else Some([s[0]] + rest.value)
  }

  lemma {:induction false} DecodedAppend(a: seq<Byte>, b: seq<Byte>)
    requires Decoded(a).Some? && Decoded(b).Some?
    ensures Decoded(a + b) == Some(Decoded(a).value + Decoded(b).value)
    decreases |a|
  {
    if |a| == 0 {
      assert a + b == b && [] + Decoded(b).value == Decoded(b).value;
    } else if a[0] == BACKSLASH {
      assert (a + b)[2..] == a[2..] + b;
      DecodedAppend(a[2..], b);
      var c := [Unescaped(a[1]).value];
      assert c + (Decoded(a[2..]).value + Decoded(b).value) == (c + Decoded(a[2..]).value) + Decoded(b).value;
    } else {
      assert (a + b)[1..] == a[1..] + b;
      DecodedAppend(a[1..], b);
      var c := [a[0]];
      assert c + (Decoded(a[1..]).value + Decoded(b).value) == (c + Decoded(a[1..]).value) + Decoded(b).value;
    }
  }

  /** A character is decoded to itself, takes two bytes only if a JSON string cannot hold it as it is, and
      takes none only if it cannot be written. */
  lemma DecodedOne(c: Char)
    ensures Decoded(Escaped(c)) == Some(if Kept(c) then [c] else [])
    ensures |Escaped(c)| == if !Kept(c) then 0 else if c < SPACE || c == QUOTE || c == BACKSLASH then 2 else 1
  {
    var e := Escaped(c);
    if |e| == 2 {
      assert e[2..] == [] && Decoded(e) == Some([Unescaped(e[1]).value] + []);
      assert [Unescaped(e[1]).value] + [] == [c];
    } else if |e| == 1 {
      assert e[1..] == [] && Decoded(e) == Some([e[0]] + []);
      assert [e[0]] + [] == [c];
    }
  }

  /** Decoding undoes encoding, up to the characters that cannot be written. */
  lemma {:induction false} RoundTrip(src: seq<Char>)
    ensures Decoded(Encoded(src)) == Some(Writable(src))
  {
    if |src| > 0 {
      var n := |src| - 1;
      RoundTrip(src[..n]);
      DecodedOne(src[n]);
      DecodedAppend(Encoded(src[..n]), Escaped(src[n]));
    }
  }

  /** One more character. */
  lemma EncodedStep(src: seq<Char>, i: nat)
    requires i < |src|
    ensures Encoded(src[..i + 1]) == Encoded(src[..i]) + Escaped(src[i])
    ensures Writable(src[..i + 1]) == Writable(src[..i]) + if Kept(src[i]) then [src[i]] else []
  {
    assert src[..i + 1][..i] == src[..i];
  }

  lemma {:induction false} PrefixEncoded(src: seq<Char>, i: nat, k: nat)
    requires i <= k <= |src|
    ensures Encoded(src[..i]) <= Encoded(src[..k]) && Writable(src[..i]) <= Writable(src[..k])
    ensures |Encoded(src[..k])| <= |Encoded(src[..i])| + 2 * (k - i)
  {
    hide Encoded, Writable;
    if i < k {
      PrefixEncoded(src, i, k - 1);
      EncodedStep(src, k - 1);
    }
  }

  /** Whatever the size, the output leaves room for its terminator, never ends inside an escape, and
      decodes to the writable characters of a prefix of the source. */
  lemma OutputDecodes(src: seq<Char>, size: nat)
    ensures size > 0 ==> |Output(src, size)| + 1 <= size
    ensures Decoded(Output(src, size)) == Some(Writable(src[..Taken(src, size, 0)]))
    ensures Writable(src[..Taken(src, size, 0)]) <= Writable(src)
  {
    var k := Taken(src, size, 0);
    RoundTrip(src[..k]);
    assert src[..|src|] == src;
    PrefixEncoded(src, k, |src|);
    if k > 0 {
      PrefixEncoded(src, k - 1, k);
    }
  }

  /** Every character that can be written finds three free bytes when its turn comes. */
  predicate Fits(src: seq<Char>, size: nat) {
    forall i :: 0 <= i < |src| && Kept(src[i]) ==> |Encoded(src[..i])| + 2 < size
  }

  lemma StoppedBefore(src: seq<Char>, size: nat, i: nat)
    requires i < |src| && |Encoded(src[..i])| + 2 >= size
    ensures Taken(src, size, 0) <= i
  {
  }

  lemma {:induction false} NothingKept(src: seq<Char>, size: nat, k: nat, n: nat)
    requires Fits(src, size) && k <= n <= |src| && (k < |src| ==> |Encoded(src[..k])| + 2 >= size)
    ensures Writable(src[..n]) == Writable(src[..k])
  {
    hide Encoded, Writable, Kept;
    if k < n {
      NothingKept(src, size, k, n - 1);
      PrefixEncoded(src, k, n - 1);
      EncodedStep(src, n - 1);
    }
  }

  /** Nothing that can be written is lost exactly when the buffer is that large. */
  lemma CompleteIffFits(src: seq<Char>, size: nat)
    ensures Decoded(Output(src, size)) == Some(Writable(src)) <==> Fits(src, size)
  {
    hide Encoded, Writable, Decoded, Output, Kept;
    var k := Taken(src, size, 0);
    OutputDecodes(src, size);
    assert src[..|src|] == src;
    if Fits(src, size) {
      NothingKept(src, size, k, |src|);
    } else {
      var i :| 0 <= i < |src| && Kept(src[i]) && |Encoded(src[..i])| + 2 >= size;
      StoppedBefore(src, size, i);
      PrefixEncoded(src, k, i);
      PrefixEncoded(src, i + 1, |src|);
      EncodedStep(src, i);
    }
  }

  /** In particular, twice the length of the source and one byte more is always enough. */
  lemma TwiceIsEnough(src: seq<Char>, size: nat)
    requires size >= 2 * |src| + 1
    ensures Decoded(Output(src, size)) == Some(Writable(src))
  {
    forall i | 0 <= i < |src|
      ensures |Encoded(src[..i])| + 2 < size
    {
      PrefixEncoded(src, 0, i);
    }
    CompleteIffFits(src, size);
  }

  lemma {:induction false} QuotesDouble(src: seq<Char>, n: nat)
    requires n <= |src| && forall i :: 0 <= i < |src| ==> src[i] == QUOTE
    ensures |Encoded(src[..n])| == 2 * n
  {
    if n > 0 {
      QuotesDouble(src, n - 1);
      assert src[..n][..n - 1] == src[..n - 1];
    }
  }

  /** And nothing less is enough for every source of that length. */
  lemma NothingLessIsEnough(n: nat, size: nat)
    requires n > 0 && size <= 2 * n
    ensures var src: seq<Char> := seq(n, i => QUOTE); Decoded(Output(src, size)) != Some(Writable(src))
  {
    var src: seq<Char> := seq(n, i => QUOTE);
    QuotesDouble(src, n - 1);
    assert Kept(src[n - 1]);
    CompleteIffFits(src, size);
  }

  // ---------------------------------------------------------------- kum_json_escape

  /** A buffer with `bytes` written at position `o`. */
  function Overwritten(s: seq<Byte>, o: nat, bytes: seq<Byte>): seq<Byte>
    requires o + |bytes| <= |s|
  {
    s[..o] + bytes + s[o + |bytes|..]
  }

  /** The body of the loop. */
  method PutEscaped(dst: array<Byte>, o: nat, c: Char) returns (next: nat)
    requires o + 2 < dst.Length
    modifies dst
    ensures next == o + |Escaped(c)| && dst[..] == Overwritten(old(dst[..]), o, Escaped(c))
  {
    next := o;
    if c == QUOTE || c == BACKSLASH {
      dst[next] := BACKSLASH;
      next := next + 1;
      dst[next] := c;
      next := next + 1;
    } else if c == 10 || c == 13 || c == 9 {
      dst[next] := BACKSLASH;
      next := next + 1;
      dst[next] := if c == 10 then 110 else if c == 13 then 114 else 116;
      next := next + 1;
    } else if c >= SPACE {
      dst[next] := c;
      next := next + 1;
    }
  }

  /** The loop has consumed `i` characters and written `o` bytes over `was`. */
  ghost predicate Written(s: seq<Byte>, was: seq<Byte>, src: seq<Char>, size: nat, i: nat, o: nat) {
    && i <= |src| && size <= |s| == |was| && Taken(src, size, 0) == Taken(src, size, i)
    && o == |Encoded(src[..i])| && o <= |s| && s == Overwritten(was, 0, Encoded(src[..i]))
  }

  lemma WrittenStarts(s: seq<Byte>, src: seq<Char>, size: nat)
    requires size <= |s|
    ensures Written(s, s, src, size, 0, 0)
  {
    assert src[..0] == [] && s == s[..0] + [] + s[0..];
  }

  lemma WrittenStep(s: seq<Byte>, was: seq<Byte>, src: seq<Char>, size: nat, i: nat, o: nat)
    requires Written(s, was, src, size, i, o) && i < |src| && o + 2 < size
    ensures o + |Escaped(src[i])| < size
    ensures Written(Overwritten(s, o, Escaped(src[i])), was, src, size, i + 1, o + |Escaped(src[i])|)
  {
    hide Encoded;
    EncodedStep(src, i);
  }

  lemma WrittenEnds(s: seq<Byte>, was: seq<Byte>, src: seq<Char>, size: nat, i: nat, o: nat)
    requires Written(s, was, src, size, i, o) && o < size && (i == |src| || o + 2 >= size)
    ensures o == |Output(src, size)| && Overwritten(s, o, [0])[..o + 1] == Output(src, size) + [0]
    ensures Overwritten(s, o, [0])[o + 1..] == was[o + 1..]
  {
  }

  /** `kum_json_escape`: `dst` has at least `size` bytes, of which only those needed are written. */
  method Escape(dst: array<Byte>, size: nat, src: seq<Char>)
    requires size <= dst.Length
    modifies dst
    ensures size == 0 ==> dst[..] == old(dst[..])
    ensures size > 0 ==>
      var out := Output(src, size);
      |out| < size && dst[..|out| + 1] == out + [0] && dst[|out| + 1..] == old(dst[|out| + 1..])
  {
    if size == 0 {
      return;
    }
    hide Encoded, Taken;
    var o: nat := 0;
    var i: nat := 0;
    WrittenStarts(dst[..], src, size);
    while i < |src| && o + 2 < size
      invariant 0 <= i <= |src| && o < size && Written(dst[..], old(dst[..]), src, size, i, o)
    {
      WrittenStep(dst[..], old(dst[..]), src, size, i, o);
      o := PutEscaped(dst, o, src[i]);
      i := i + 1;
    }
    WrittenEnds(dst[..], old(dst[..]), src, size, i, o);
    dst[o] := 0;
  }
}

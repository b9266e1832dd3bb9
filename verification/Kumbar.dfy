/** How kumbar turns the compositor's byte stream back into messages. */
module Kumbar {
  type Byte = b: int | 0 <= b < 256

  const NUL: Byte := 0
  const NEWLINE: Byte := 10
  const IPC_BUF := 512

  /** The most text `ipc_ibuf` holds; its last byte is kept for the terminator. */
  const CAPACITY: nat := IPC_BUF - 1

  // ---------------------------------------------------------------- cutting text into messages

  /** `strchr(t, '\n')` on NUL-terminated text: the first newline before any NUL, or -1. */
  function FindNewline(t: seq<Byte>): (r: int)
    ensures -1 <= r < |t|
    ensures r >= 0 ==> t[r] == NEWLINE && forall i :: 0 <= i < r ==> t[i] != NEWLINE && t[i] != NUL
    ensures r == -1 && NUL !in t ==> NEWLINE !in t
  {
    if |t| == 0 || t[0] == NUL then -1
    else if t[0] == NEWLINE then 0
    else
      var r := FindNewline(t[1..]);
      assert t == [t[0]] + t[1..];
      if r == -1 then -1 else r + 1
  }

  /** Where a search from `start` found something: `k` characters on, or nowhere. */
  function After(start: nat, k: int): int {
    if k == -1 then -1 else start + k
  }

  datatype Cutting = Cutting(messages: seq<seq<Byte>>, rest: seq<Byte>)

  /** The extraction loop: every nonempty newline-terminated piece is a message, the remainder stays. */
  function Cut(t: seq<Byte>): (r: Cutting)
    ensures |r.rest| <= |t| && FindNewline(r.rest) == -1
  {
    var k := FindNewline(t);
    if k == -1 then Cutting([], t)
    else
      var more := Cut(t[k + 1..]);
      more.(messages := (if k == 0 then [] else [t[..k]]) + more.messages)
  }

  /** What fits of a read next to the text already held. */
  function Accepted(rest: seq<Byte>, read: seq<Byte>): (r: seq<Byte>)
    requires |rest| <= CAPACITY
    ensures |rest| + |r| <= CAPACITY && r <= read
    ensures r == read <==> |rest| + |read| <= CAPACITY
  {
    var room := CAPACITY - |rest|;
    if |read| > room then read[..room] else read
  }

  /** One call of `kumbar_ipc_dispatch` that received `read`. */
  function Dispatched(rest: seq<Byte>, read: seq<Byte>): (r: Cutting)
    requires |rest| <= CAPACITY
    ensures |r.rest| <= CAPACITY
  {
    Cut(rest + Accepted(rest, read))
  }

  // ---------------------------------------------------------------- the bar's buffer

  lemma {:induction false} FindNewlineUnique(t: seq<Byte>, k: nat)
    requires k <= |t| && forall i :: 0 <= i < k ==> t[i] != NEWLINE && t[i] != NUL
    requires k < |t| ==> t[k] == NEWLINE || t[k] == NUL
    ensures FindNewline(t) == if k < |t| && t[k] == NEWLINE then k else -1
  {
    if k > 0 {
      assert forall i :: 0 <= i < |t| - 1 ==> t[1..][i] == t[i + 1];
      FindNewlineUnique(t[1..], k - 1);
    }
  }

  /** `handled` is `before` with the messages cut off the front of `all`; `t` is still to be cut. */
  ghost predicate Extracting(all: seq<Byte>, t: seq<Byte>, before: seq<seq<Byte>>, handled: seq<seq<Byte>>) {
    before + Cut(all).messages == handled + Cut(t).messages && Cut(all).rest == Cut(t).rest
  }

  lemma {:induction false} ExtractStarts(all: seq<Byte>, before: seq<seq<Byte>>)
    ensures Extracting(all, all, before, before)
  {
  }

  /** The message the first line amounts to, if it is not empty. */
  function LineOf(t: seq<Byte>): seq<seq<Byte>>
    requires FindNewline(t) >= 0
  {
    if FindNewline(t) == 0 then [] else [t[..FindNewline(t)]]
  }

  /** What follows the first line. */
  function BehindLine(t: seq<Byte>): seq<Byte>
    requires FindNewline(t) >= 0
  {
    t[FindNewline(t) + 1..]
  }

  lemma {:induction false} CutStep(t: seq<Byte>)
    ensures Cut(t) == if FindNewline(t) == -1 then Cutting([], t) else
      Cutting(LineOf(t) + Cut(BehindLine(t)).messages, Cut(BehindLine(t)).rest)
  {
  }

  lemma {:induction false} ExtractStep(all: seq<Byte>, t: seq<Byte>, before: seq<seq<Byte>>, handled: seq<seq<Byte>>)
    requires Extracting(all, t, before, handled) && FindNewline(t) >= 0
    ensures Extracting(all, BehindLine(t), before, handled + LineOf(t)) && |BehindLine(t)| < |t|
  {
    hide FindNewline, Cut;
    CutStep(t);
    var more := Cut(BehindLine(t)).messages;
    assert handled + (LineOf(t) + more) == (handled + LineOf(t)) + more;
  }

  lemma {:induction false} ExtractEnds(all: seq<Byte>, t: seq<Byte>, before: seq<seq<Byte>>, handled: seq<seq<Byte>>)
    requires Extracting(all, t, before, handled) && FindNewline(t) == -1
    ensures before + Cut(all).messages == handled && Cut(all).rest == t
  {
    assert handled + [] == handled;
  }

  class Bar {
    const ibuf: array<Byte>
    var len: nat
    /** The messages handed to `handle_ipc_message` so far. */
    var handled: seq<seq<Byte>>

    ghost predicate Valid()
      reads this, ibuf
    {
      ibuf.Length == IPC_BUF && len <= CAPACITY
    }

    /** The text is followed by its terminator, as it is from the first read on. */
    ghost predicate Terminated()
      reads this, ibuf
    {
      Valid() && ibuf[len] == NUL
    }

    ghost function Text(): seq<Byte>
      reads this, ibuf
      requires Valid()
    {
      ibuf[..len]
    }

    constructor ()
      ensures Valid() && Text() == [] && handled == []
    {
      ibuf := new Byte[IPC_BUF](_ => NUL);
      len := 0;
      handled := [];
    }

    /** `kumbar_ipc_connect`, as far as the buffer goes: the text of the last connection is dropped. */
    method Connect()
      requires Valid()
      modifies this`len
      ensures Valid() && Text() == []
    {
      len := 0;
    }

    /** `strchr` on the terminated text from `start` on. */
    method FindNewlineFrom(start: nat) returns (nl: int)
      requires Terminated() && start <= len
      ensures nl >= 0 ==> nl < len && ibuf[nl] == NEWLINE
      ensures nl == After(start, FindNewline(ibuf[start..len]))
    {
      nl := start;
      while ibuf[nl] != NEWLINE && ibuf[nl] != NUL
        invariant start <= nl <= len
        invariant forall i :: start <= i < nl ==> ibuf[i] != NEWLINE && ibuf[i] != NUL
        decreases len - nl
      {
        nl := nl + 1;
      }
      ghost var t := ibuf[start..len];
      FindNewlineUnique(t, nl - start);
      if ibuf[nl] == NUL {
        nl := -1;
      }
    }

    /** The body of that loop: the newline at `nl` becomes a NUL, and a nonempty line is handled. */
    method TakeLine(start: nat, nl: nat)
      requires Terminated() && start <= nl < len && nl == start + FindNewline(ibuf[start..len])
      modifies this`handled, ibuf
      ensures Terminated() && ibuf[nl + 1..len] == BehindLine(old(ibuf[start..len]))
      ensures handled == old(handled) + LineOf(old(ibuf[start..len]))
    {
      ghost var t := ibuf[start..len];
      assert t[..nl - start] == ibuf[start..nl] && t[nl - start + 1..] == ibuf[nl + 1..len];
      ibuf[nl] := NUL;
      if start < nl {
        handled := handled + [ibuf[start..nl]];
      }
    }

    /** The loop that cuts the text at its newlines; returns where the remainder starts. */
    method Extract() returns (start: nat)
      requires Terminated()
      modifies this`handled, ibuf
      ensures Valid() && start <= len && ibuf[start..len] == Cut(old(Text())).rest
      ensures handled == old(handled) + Cut(old(Text())).messages
    {
      hide FindNewline, Cut, Extracting, LineOf, BehindLine;
      ghost var all := Text();
      ghost var t := all;
      start := 0;
      var nl := FindNewlineFrom(start);
      ExtractStarts(all, handled);
      while nl != -1
        invariant Terminated() && start <= len && t == ibuf[start..len]
        invariant nl == After(start, FindNewline(t)) && Extracting(all, t, old(handled), handled)
        decreases |t|
      {
        ExtractStep(all, t, old(handled), handled);
        TakeLine(start, nl);
        t := BehindLine(t);
        start := nl + 1;
        nl := FindNewlineFrom(start);
      }
      ExtractEnds(all, t, old(handled), handled);
    }

    /** `memmove` of the remainder to the front. */
    method Shift(start: nat)
      requires Valid() && start <= len
      modifies this`len, ibuf
      ensures Terminated() && Text() == old(ibuf[start..len])
    {
      var left := len - start;
      forall j | 0 <= j < left {
        ibuf[j] := ibuf[start + j];
      }
      len := left;
      ibuf[left] := NUL;
    }

    /** `memcpy` behind the text held, and a new terminator. */
    method Append(bytes: seq<Byte>)
      requires Valid() && len + |bytes| <= CAPACITY
      modifies this`len, ibuf
      ensures Terminated() && Text() == old(Text()) + bytes
    {
      forall j | 0 <= j < |bytes| {
        ibuf[len + j] := bytes[j];
      }
      len := len + |bytes|;
      ibuf[len] := NUL;
    }

    /** `kumbar_ipc_dispatch` after a successful `recv`. */
    method Dispatch(read: seq<Byte>)
      requires Valid() && 1 <= |read| <= IPC_BUF - 1
      modifies this`len, this`handled, ibuf
      ensures Terminated()
      ensures Text() == Dispatched(old(Text()), read).rest
      ensures handled == old(handled) + Dispatched(old(Text()), read).messages
    {
      hide FindNewline, Cut;
      var n := |read|;
      var room := ibuf.Length - len - 1;
      if n > room {
        n := room;
      }
      assert read[..n] == Accepted(Text(), read);
      Append(read[..n]);
      var start := Extract();
      Shift(start);
    }
  }

  // ---------------------------------------------------------------- reassembly

  /** The bar after receiving `chunks` one after the other. */
  function Received(rest: seq<Byte>, chunks: seq<seq<Byte>>): (r: Cutting)
    requires |rest| <= CAPACITY
    ensures |r.rest| <= CAPACITY
    decreases |chunks|
  {
    if |chunks| == 0 then Cutting([], rest)
    else
      var one := Dispatched(rest, chunks[0]);
      var more := Received(one.rest, chunks[1..]);
      more.(messages := one.messages + more.messages)
  }

  /** Every read fits next to the text still held when it arrives. */
  predicate Fit(rest: seq<Byte>, chunks: seq<seq<Byte>>)
    requires |rest| <= CAPACITY
    decreases |chunks|
  {
    |chunks| > 0 ==> |rest| + |chunks[0]| <= CAPACITY && Fit(Dispatched(rest, chunks[0]).rest, chunks[1..])
  }

  function Concat(chunks: seq<seq<Byte>>): seq<Byte> {
    if |chunks| == 0 then [] else chunks[0] + Concat(chunks[1..])
  }

  lemma {:induction false} CutFront(a: seq<Byte>, b: seq<Byte>)
    requires FindNewline(a) >= 0
    ensures Cut(a + b) == Cutting(LineOf(a) + Cut(BehindLine(a) + b).messages, Cut(BehindLine(a) + b).rest)
  {
    hide FindNewline, Cut;
    var k := FindNewline(a);
    FindNewlineUnique(a + b, k);
    CutStep(a + b);
    assert (a + b)[..k] == a[..k] && (a + b)[k + 1..] == a[k + 1..] + b;
  }

  /** Cutting a longer text continues from what the shorter one left. */
  lemma {:induction false} CutAppend(a: seq<Byte>, b: seq<Byte>)
    ensures var first := Cut(a); var second := Cut(first.rest + b);
      Cut(a + b) == Cutting(first.messages + second.messages, second.rest)
    decreases |a|
  {
    hide FindNewline, Cut;
    CutStep(a);
    if FindNewline(a) >= 0 {
      CutFront(a, b);
      CutAppend(BehindLine(a), b);
    }
  }

  /** However the stream is chunked, as long as each read fits, the messages are those of the whole
      stream and the buffer holds what follows its last newline. */
  lemma {:induction false} Reassembly(rest: seq<Byte>, chunks: seq<seq<Byte>>)
    requires |rest| <= CAPACITY && FindNewline(rest) == -1 && Fit(rest, chunks)
    ensures Received(rest, chunks) == Cut(rest + Concat(chunks))
    decreases |chunks|
  {
    hide FindNewline, Cut;
    if |chunks| == 0 {
      CutStep(rest);
      assert rest + Concat(chunks) == rest;
    } else {
      var one := Dispatched(rest, chunks[0]);
      CutAppend(rest + chunks[0], Concat(chunks[1..]));
      assert rest + Concat(chunks) == rest + chunks[0] + Concat(chunks[1..]);
      Reassembly(one.rest, chunks[1..]);
    }
  }

  // ---------------------------------------------------------------- what the messages are

  /** Lines put back together, each with its newline. */
  function Joined(lines: seq<seq<Byte>>): seq<Byte> {
    if |lines| == 0 then [] else lines[0] + [NEWLINE] + Joined(lines[1..])
  }

  function Nonempty(lines: seq<seq<Byte>>): seq<seq<Byte>> {
    if |lines| == 0 then [] else (if lines[0] == [] then [] else [lines[0]]) + Nonempty(lines[1..])
  }

  /** `lines` and `tail` are the newline-terminated lines of a stream and what follows the last newline. */
  ghost predicate Splits(stream: seq<Byte>, lines: seq<seq<Byte>>, tail: seq<Byte>) {
    && stream == Joined(lines) + tail
    && (forall l :: l in lines ==> NEWLINE !in l)
    && NEWLINE !in tail
  }

  /** Cutting yields exactly the nonempty lines of the text. */
  lemma {:induction false} CutIsLines(lines: seq<seq<Byte>>, tail: seq<Byte>)
    requires forall l :: l in lines ==> NEWLINE !in l
    requires NEWLINE !in tail && NUL !in Joined(lines) + tail
    ensures Cut(Joined(lines) + tail) == Cutting(Nonempty(lines), tail)
    decreases |lines|
  {
    var t := Joined(lines) + tail;
    if |lines| == 0 {
      assert t == tail;
      FindNewlineUnique(t, |t|);
    } else {
      var k := |lines[0]|;
      assert lines[0] in lines && forall l :: l in lines[1..] ==> l in lines;
      assert t == lines[0] + [NEWLINE] + (Joined(lines[1..]) + tail);
      assert t[..k] == lines[0] && t[k + 1..] == Joined(lines[1..]) + tail;
      forall i | 0 <= i < k
        ensures t[i] != NEWLINE && t[i] != NUL
      {
        assert t[i] == lines[0][i] && t[i] in t;
      }
      FindNewlineUnique(t, k);
      CutIsLines(lines[1..], tail);
    }
  }

  /** Every stream splits into lines and a tail. */
  lemma {:induction false} SplitsExist(stream: seq<Byte>) returns (lines: seq<seq<Byte>>, tail: seq<Byte>)
    ensures Splits(stream, lines, tail)
  {
    if |stream| == 0 {
      lines, tail := [], [];
    } else {
      lines, tail := SplitsExist(stream[1..]);
      var c := stream[0];
      assert stream == [c] + stream[1..];
      if c == NEWLINE {
        lines := [[]] + lines;
      } else if |lines| == 0 {
        tail := [c] + tail;
      } else {
        lines := [[c] + lines[0]] + lines[1..];
      }
    }
  }

  /** From a fresh connection: the bar handles exactly the nonempty lines of the stream, in order, and
      holds its tail, for every way of chunking it into reads that fit. */
  lemma ConcatSplits(chunks: seq<seq<Byte>>, lines: seq<seq<Byte>>, tail: seq<Byte>)
    requires NUL !in Concat(chunks) && Fit([], chunks) && Splits(Concat(chunks), lines, tail)
    ensures Received([], chunks) == Cutting(Nonempty(lines), tail)
  {
    Reassembly([], chunks);
    assert [] + Concat(chunks) == Concat(chunks);
    CutIsLines(lines, tail);
  }

  // ---------------------------------------------------------------- going deaf

  /** A full buffer without a newline, or one with a NUL in it. */
  predicate Deaf(rest: seq<Byte>) {
    FindNewline(rest) == -1 && (|rest| == CAPACITY || NUL in rest)
  }

  lemma {:induction false} NulHides(a: seq<Byte>, b: seq<Byte>)
    requires FindNewline(a) == -1 && NUL in a
    ensures FindNewline(a + b) == -1
  {
    if a[0] == NUL {
    } else {
      assert a[0] != NEWLINE && a == [a[0]] + a[1..];
      assert (a + b)[1..] == a[1..] + b;
      NulHides(a[1..], b);
    }
  }

  /** Once an over-long line fills the buffer or a NUL gets into it, no message gets through on this
      connection any more. */
  lemma {:induction false} DeafForever(rest: seq<Byte>, chunks: seq<seq<Byte>>)
    requires |rest| <= CAPACITY && Deaf(rest)
    ensures Received(rest, chunks).messages == [] && Deaf(Received(rest, chunks).rest)
    decreases |chunks|
  {
    if |chunks| > 0 {
      var more := Accepted(rest, chunks[0]);
      if NUL in rest {
        NulHides(rest, more);
      } else {
        assert rest + more == rest;
      }
      DeafForever(Dispatched(rest, chunks[0]).rest, chunks[1..]);
    }
  }

  lemma OneMessage(rest: seq<Byte>, read: seq<Byte>)
    requires |rest| < CAPACITY && FindNewline(rest) == -1 && NUL !in rest
    requires read == if rest == [] then [65, NEWLINE] else [NEWLINE]
    ensures Dispatched(rest, read).messages != []
  {
    var t := rest + read;
    assert Accepted(rest, read) == read;
    assert NEWLINE !in rest;
    FindNewlineUnique(t, |t| - 1);
    CutStep(t);
    assert LineOf(t) != [];
  }

  /** And it takes no less: from any other remainder, one or two more bytes get a message through. */
  lemma DeafExactly(rest: seq<Byte>)
    requires |rest| <= CAPACITY && FindNewline(rest) == -1
    ensures Deaf(rest) <==> forall chunks :: Received(rest, chunks).messages == []
  {
    if Deaf(rest) {
      forall chunks
        ensures Received(rest, chunks).messages == []
      {
        DeafForever(rest, chunks);
      }
    } else {
      var read: seq<Byte> := if rest == [] then [65, NEWLINE] else [NEWLINE];
      OneMessage(rest, read);
      assert [read][1..] == [];
      assert Received(rest, [read]).messages == Dispatched(rest, read).messages + Received(Dispatched(rest, read).rest, []).messages;
      assert Received(rest, [read]).messages != [];
    }
  }

  /** Reads without a newline or a NUL leave a connection deaf exactly when they fill the buffer. */
  lemma {:induction false} LongLineDeafens(rest: seq<Byte>, chunks: seq<seq<Byte>>)
    requires |rest| <= CAPACITY && NEWLINE !in rest && NUL !in rest
    requires NEWLINE !in Concat(chunks) && NUL !in Concat(chunks)
    ensures Received(rest, chunks).messages == []
    ensures Deaf(Received(rest, chunks).rest) <==> |rest| + |Concat(chunks)| >= CAPACITY
    decreases |chunks|
  {
    if |chunks| == 0 {
      FindNewlineUnique(rest, |rest|);
    } else {
      var t := rest + Accepted(rest, chunks[0]);
      assert forall b :: b in chunks[0] || b in Concat(chunks[1..]) ==> b in Concat(chunks);
      assert NEWLINE !in t && NUL !in t;
      FindNewlineUnique(t, |t|);
      assert Dispatched(rest, chunks[0]) == Cutting([], t);
      LongLineDeafens(t, chunks[1..]);
    }
  }

  /** So one line of 511 letters does it on a new connection. */
  lemma LettersDeafen(chunks: seq<seq<Byte>>)
    ensures var line: seq<Byte> := seq(CAPACITY, _ => 65);
      Deaf(Received([], [line]).rest) && Received(line, chunks).messages == []
  {
    var line: seq<Byte> := seq(CAPACITY, _ => 65);
    assert Concat([line]) == line + Concat([line][1..]) && Concat([line][1..]) == [];
    LongLineDeafens([], [line]);
    FindNewlineUnique(line, |line|);
    DeafForever(line, chunks);
  }
}

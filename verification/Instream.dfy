/** Framing a file for a clamd INSTREAM scan: 4-byte big-endian lengths, each
    followed by a chunk of that many bytes, ended by a length of zero. */
module Instream {
  import opened Basics

  type Byte = b: nat | b < 256 witness 0

  const CHUNK := 64 * 1024

  /** `writeUInt32BE`. */
  function Length(n: nat): (b: seq<Byte>)
    requires n < 0x1_0000_0000
    ensures |b| == 4
  {
    var a: nat, b: nat, c: nat := n / 0x100, n / 0x1_0000, n / 0x100_0000;
    [c, b % 256, a % 256, n % 256]
  }

  function LengthOf(b: seq<Byte>): nat
    requires |b| == 4
  {
    var b0: nat, b1: nat, b2: nat, b3: nat := b[0], b[1], b[2], b[3];
    b0 * 0x100_0000 + b1 * 0x1_0000 + b2 * 0x100 + b3
  }

  lemma LengthReadsBack(n: nat)
    requires n < 0x1_0000_0000
    ensures LengthOf(Length(n)) == n
  {
    assert n / 0x1_0000 == n / 0x100 / 256 && n / 0x100_0000 == n / 0x1_0000 / 256;
  }

  function Frame(chunk: seq<Byte>): seq<Byte>
    requires |chunk| < 0x1_0000_0000
  {
    Length(|chunk|) + chunk
  }

  function Min(a: nat, b: nat): nat { if a < b then a else b }

  /** The frames of a buffer, without the terminator. */
  function Frames(buffer: seq<Byte>): seq<Byte>
    decreases |buffer|
  {
    if buffer == [] then []
    else
      var n := Min(CHUNK, |buffer|);
      Frame(buffer[..n]) + Frames(buffer[n..])
  }

  function Framed(buffer: seq<Byte>): seq<Byte> { Frames(buffer) + Length(0) }

  /** Writes the buffer to the socket chunk by chunk. */
  method WriteFramed(buffer: seq<Byte>) returns (written: seq<Byte>)
    ensures written == Framed(buffer)
  {
    written := [];
    var i := 0;
    assert Tail(buffer, 0) == buffer;
    hide Frames, Length, Min, Tail;
    while i < |buffer|
      invariant 0 <= i
      invariant written + Frames(Tail(buffer, i)) == Frames(buffer)
    {
      var slice := buffer[i..Min(i + CHUNK, |buffer|)];
      NextFrame(buffer, i);
      ghost var before, rest := written, Frames(Tail(buffer, i + CHUNK));
      written := written + Length(|slice|);
      written := written + slice;
      Regroup(before, Length(|slice|), slice, rest);
      i := i + CHUNK;
    }
    assert Frames(Tail(buffer, i)) == [] by { NothingToFrame(buffer, i); }
    written := written + Length(0);
  }

  lemma NothingToFrame(buffer: seq<Byte>, i: nat)
    requires i >= |buffer|
    ensures Frames(Tail(buffer, i)) == []
  {
  }

  lemma Regroup(a: seq<Byte>, b: seq<Byte>, c: seq<Byte>, d: seq<Byte>)
    ensures a + b + c + d == a + (b + c + d)
  {
  }

  /** What is still to be written from position `i` on. */
  function Tail(buffer: seq<Byte>, i: nat): seq<Byte> { if i < |buffer| then buffer[i..] else [] }

  lemma NextFrame(buffer: seq<Byte>, i: nat)
    requires i < |buffer|
    ensures i <= Min(i + CHUNK, |buffer|) <= |buffer|
    ensures var slice := buffer[i..Min(i + CHUNK, |buffer|)];
            |slice| <= CHUNK && Frames(Tail(buffer, i)) == Length(|slice|) + slice + Frames(Tail(buffer, i + CHUNK))
  {
  }

  // ---- The receiving side ------------------------------------------------------

  /** Reads chunks up to a length of zero: their bytes, and what follows on the
      stream. */
  function Read(stream: seq<Byte>): Option<(seq<Byte>, seq<Byte>)>
    decreases |stream|
  {
    if |stream| < 4 then None
    else
      var n, rest := LengthOf(stream[..4]), stream[4..];
      if n == 0 then Some(([], rest))
      else if |rest| < n then None
      else match Read(rest[n..])
        case None => None
        case Some((bytes, after)) => Some((rest[..n] + bytes, after))
  }

  lemma FramedFromFront(buffer: seq<Byte>, after: seq<Byte>)
    requires buffer != []
    ensures var n := Min(CHUNK, |buffer|);
            Framed(buffer) + after == Length(n) + buffer[..n] + (Framed(buffer[n..]) + after)
  {
  }

  /** The first frame, and what is behind it. */
  lemma FirstFrame(buffer: seq<Byte>, after: seq<Byte>)
    requires buffer != []
    ensures var n, stream := Min(CHUNK, |buffer|), Framed(buffer) + after;
            var tail := Framed(buffer[n..]) + after;
            && |stream| >= 4 && LengthOf(stream[..4]) == n && |stream[4..]| >= n
            && stream[4..][..n] == buffer[..n] && stream[4..][n..] == tail && |stream| == 4 + n + |tail|
  {
    var n := Min(CHUNK, |buffer|);
    hide Framed, LengthOf, Length, Min;
    FramedFromFront(buffer, after);
    LengthReadsBack(n);
    Split(Length(n), buffer[..n], Framed(buffer[n..]) + after);
  }

  lemma Split(a: seq<Byte>, b: seq<Byte>, c: seq<Byte>)
    ensures var s := a + b + c;
            s[..|a|] == a && s[|a|..][..|b|] == b && s[|a|..][|b|..] == c
  {
  }

  lemma Terminator(after: seq<Byte>)
    ensures var stream := Framed([]) + after;
            |stream| >= 4 && LengthOf(stream[..4]) == 0 && stream[4..] == after && |Framed([])| == 4
  {
  }

  /** What is framed is read back, byte for byte, and the reader stops exactly at
      the end of it, whatever follows on the stream. */
  lemma {:induction false} FramingReadsBack(buffer: seq<Byte>, after: seq<Byte>)
    ensures Read(Framed(buffer) + after) == Some((buffer, after))
    decreases |buffer|
  {
    hide Framed, LengthOf;
    if buffer == [] {
      Terminator(after);
    } else {
      var n := Min(CHUNK, |buffer|);
      FirstFrame(buffer, after);
      FramingReadsBack(buffer[n..], after);
      assert buffer[..n] + buffer[n..] == buffer;
    }
  }

  /** The lengths on a stream, up to and including the zero that ends it. */
  function Lengths(stream: seq<Byte>): seq<nat>
    decreases |stream|
  {
    if |stream| < 4 then []
    else
      var n, rest := LengthOf(stream[..4]), stream[4..];
      if n == 0 || |rest| < n then [n] else [n] + Lengths(rest[n..])
  }

  function Chunks(n: nat): nat { (n + 65535) / 65536 }

  lemma OneChunkMore(size: nat)
    requires size > 0
    ensures Chunks(size) == Chunks(size - Min(CHUNK, size)) + 1
  {
  }

  /** Only the terminator has length zero; every chunk but the last is of 64 KiB, and
      the last no longer; there are as many as the size calls for, and four bytes of
      length each. */
  lemma {:induction false} FramesAreSound(buffer: seq<Byte>)
    ensures |Framed(buffer)| == |buffer| + 4 * (Chunks(|buffer|) + 1)
    ensures var lengths := Lengths(Framed(buffer));
            && |lengths| == Chunks(|buffer|) + 1 && lengths[|lengths| - 1] == 0
            && (forall k :: 0 <= k < |lengths| - 2 ==> lengths[k] == 65536)
            && (|lengths| > 1 ==> 0 < lengths[|lengths| - 2] <= 65536)
    decreases |buffer|
  {
    hide Framed, LengthOf;
    var stream := Framed(buffer);
    assert stream + [] == stream;
    if buffer == [] {
      Terminator([]);
    } else {
      var n := Min(CHUNK, |buffer|);
      var tail := Framed(buffer[n..]);
      assert tail + [] == tail;
      FirstFrame(buffer, []);
      FramesAreSound(buffer[n..]);
      OneChunkMore(|buffer|);
      hide Chunks, Min;
    }
  }
}

/**
 The frame codec of internal/integrations/discord/rpc.go: a little-endian opcode and length, then the
 body, over a byte stream that arrives in arbitrary pieces.
 */
module Frames {
  type Byte = b: int | 0 <= b < 256
  type Word = w: int | 0 <= w < 0x1_0000_0000

  const MAX_FRAME_SIZE := 0x10_0000

  datatype Frame = Frame(opcode: Word, body: seq<Byte>)

  // ---------- one frame ----------

  function PutWord(w: Word): (r: seq<Byte>)
    ensures |r| == 4
  {
    [w % 256, w / 0x100 % 256, w / 0x1_0000 % 256, w / 0x100_0000]
  }

  function GetWord(b: seq<Byte>): Word
    requires |b| == 4
  {
    var b0: int, b1: int, b2: int, b3: int := b[0], b[1], b[2], b[3];
    b0 + 0x100 * b1 + 0x1_0000 * b2 + 0x100_0000 * b3
  }

  lemma WordRoundTrip(w: Word)
    ensures GetWord(PutWord(w)) == w
  {
    Quotients(w);
    var q, r := w / 0x100, w / 0x1_0000;
    assert w == 0x100 * q + w % 256 && q == 0x100 * r + q % 256 && r == 0x100 * (w / 0x100_0000) + r % 256;
  }

  lemma Quotients(w: Word)
    ensures w / 0x1_0000 == w / 0x100 / 0x100 && w / 0x100_0000 == w / 0x1_0000 / 0x100
  {
  }

  /** writeDiscordFrame; the length is truncated to 32 bits as the source's conversion does. */
  function Encode(f: Frame): seq<Byte> {
    PutWord(f.opcode) + PutWord(|f.body| % 0x1_0000_0000) + f.body
  }

  datatype Decoded = Got(frame: Frame, rest: seq<Byte>) | TooLarge | Truncated

  /** readDiscordFrame on the whole stream. */
  function Decode(stream: seq<Byte>): Decoded {
    if |stream| < 8 then Truncated
    else
      var length := GetWord(stream[4..8]);
      if length > MAX_FRAME_SIZE then TooLarge
      else if |stream| < 8 + length then Truncated
      else Got(Frame(GetWord(stream[..4]), stream[8..8 + length]), stream[8 + length..])
  }

  lemma HeaderOf(f: Frame, rest: seq<Byte>)
    ensures var stream := Encode(f) + rest;
            && |stream| == 8 + |f.body| + |rest|
            && GetWord(stream[..4]) == f.opcode && GetWord(stream[4..8]) == |f.body| % 0x1_0000_0000
            && stream[8..8 + |f.body|] == f.body && stream[8 + |f.body|..] == rest
  {
    var stream := Encode(f) + rest;
    assert stream[..4] == PutWord(f.opcode);
    assert stream[4..8] == PutWord(|f.body| % 0x1_0000_0000);
    WordRoundTrip(f.opcode);
    WordRoundTrip(|f.body| % 0x1_0000_0000);
  }

  /** A frame comes back, and the stream is left right behind it, exactly when its body fits the cap. */
  lemma RoundTripsExactlyWithinTheCap(f: Frame, rest: seq<Byte>)
    ensures Decode(Encode(f) + rest) == Got(f, rest) <==> |f.body| <= MAX_FRAME_SIZE
  {
    HeaderOf(f, rest);
    if |f.body| > MAX_FRAME_SIZE {
      var result := Decode(Encode(f) + rest);
      assert result.Got? ==> |result.frame.body| <= MAX_FRAME_SIZE;
    }
  }

  // ---------- a stream of frames ----------

  function EncodeAll(frames: seq<Frame>): seq<Byte> {
    if frames == [] then [] else Encode(frames[0]) + EncodeAll(frames[1..])
  }

  /** What the read loop gets before its first error, and that error. */
  function DecodeAll(stream: seq<Byte>): (seq<Frame>, Decoded)
    decreases |stream|
  {
    match Decode(stream)
    case Got(frame, rest) => var (frames, end) := DecodeAll(rest); ([frame] + frames, end)
    case error => ([], error)
  }

  predicate Sendable(frames: seq<Frame>) { forall f <- frames :: |f.body| <= MAX_FRAME_SIZE }

  lemma CutFramesAreTruncated(f: Frame, cut: nat)
    requires |f.body| <= MAX_FRAME_SIZE && cut < |Encode(f)|
    ensures Decode(Encode(f)[..cut]) == Truncated
  {
    var bytes := Encode(f);
    HeaderOf(f, []);
    assert bytes + [] == bytes;
    if cut >= 8 {
      assert bytes[..cut][4..8] == bytes[4..8];
    }
  }

  /** A stream cut off anywhere yields exactly the frames that are complete in it, then an error. */
  lemma {:induction false} CutStreamsYieldWholeFrames(frames: seq<Frame>, cut: nat)
    requires Sendable(frames) && cut <= |EncodeAll(frames)|
    ensures var (got, end) := DecodeAll(EncodeAll(frames)[..cut]);
            && end == Truncated && got <= frames
            && |EncodeAll(got)| <= cut
            && (got == frames || cut < |EncodeAll(frames[..|got| + 1])|)
  {
    hide Decode, Encode;
    var stream := EncodeAll(frames)[..cut];
    if frames == [] {
      assert Decode([]) == Truncated by {
        NothingIsTruncated();
      }
    } else {
      var first, more := frames[0], frames[1..];
      var bytes := Encode(first);
      assert frames[..1] == [first] && EncodeAll(frames[..1]) == bytes + [];
      if cut < |bytes| {
        assert stream == bytes[..cut];
        CutFramesAreTruncated(first, cut);
      } else {
        var rest := EncodeAll(more)[..cut - |bytes|];
        assert stream == bytes + rest;
        RoundTripsExactlyWithinTheCap(first, rest);
        CutStreamsYieldWholeFrames(more, cut - |bytes|);
        var (got, end) := DecodeAll(rest);
        assert DecodeAll(stream).0 == [first] + got;
        assert ([first] + got)[1..] == got;
        if got != more {
          assert frames[..|got| + 2][1..] == more[..|got| + 1];
        }
      }
    }
  }

  lemma NothingIsTruncated()
    ensures Decode([]) == Truncated
  {
  }

  /** The whole stream yields every frame. */
  lemma {:induction false} StreamsRoundTrip(frames: seq<Frame>)
    requires Sendable(frames)
    ensures DecodeAll(EncodeAll(frames)) == (frames, Truncated)
  {
    var stream := EncodeAll(frames);
    assert stream[..|stream|] == stream;
    CutStreamsYieldWholeFrames(frames, |stream|);
    var (got, end) := DecodeAll(stream);
    if got != frames {
      EncodedPrefix(frames, |got| + 1);
    }
  }

  lemma {:induction false} EncodedPrefix(frames: seq<Frame>, n: nat)
    requires n <= |frames|
    ensures |EncodeAll(frames[..n])| <= |EncodeAll(frames)|
  {
    if n > 0 {
      assert frames[..n][1..] == frames[1..][..n - 1];
      EncodedPrefix(frames[1..], n - 1);
    }
  }

  // ---------- reading in pieces ----------

  function Flat(chunks: seq<seq<Byte>>): seq<Byte> {
    if chunks == [] then [] else chunks[0] + Flat(chunks[1..])
  }

  /** The transport: what the peer sent, in the pieces in which it arrives. */
  class Reader {
    var chunks: seq<seq<Byte>>

    constructor (chunks: seq<seq<Byte>>)
      ensures this.chunks == chunks
    {
      this.chunks := chunks;
    }

    /** One Read: at most n bytes, from one piece only; no bytes and no piece left is the end. */
    method Read(n: nat) returns (data: seq<Byte>)
      requires chunks != []
      modifies this
      ensures |data| <= n && old(Flat(chunks)) == data + Flat(chunks)
      ensures |chunks| < old(|chunks|) || (|data| == n && |chunks| == old(|chunks|))
    {
      var first := chunks[0];
      if |first| <= n {
        data, chunks := first, chunks[1..];
      } else {
        data := first[..n];
        chunks := [first[n..]] + chunks[1..];
        assert chunks[1..] == old(chunks)[1..];
        assert first == data + first[n..];
      }
    }

    /** io.ReadFull: reads until n bytes are there or the stream ends. */
    method ReadFull(n: nat) returns (ok: bool, data: seq<Byte>)
      modifies this
      ensures ok == (n <= old(|Flat(chunks)|))
      ensures ok ==> |data| == n && old(Flat(chunks)) == data + Flat(chunks)
    {
      data := [];
      ok := true;
      while |data| < n
        invariant |data| <= n
        invariant old(Flat(chunks)) == data + Flat(chunks)
        decreases |chunks|, n - |data|
      {
        if chunks == [] {
          return false, data;
        }
        var more := Read(n - |data|);
        data := data + more;
      }
    }

    /** readDiscordFrame. */
    method ReadFrame() returns (r: Decoded)
      modifies this
      ensures var expected := Decode(old(Flat(chunks)));
              if expected.Got?
              then r.Got? && r.frame == expected.frame && Flat(chunks) == expected.rest
              else r == expected
    {
      ghost var stream := Flat(chunks);
      var headed, header := ReadFull(8);
      if !headed {
        return Truncated;
      }
      assert stream[..8] == header;
      var opcode, length := GetWord(header[..4]), GetWord(header[4..8]);
      assert stream[..4] == header[..4] && stream[4..8] == header[4..8];
      if length > MAX_FRAME_SIZE {
        return TooLarge;
      }
      ghost var behind := Flat(chunks);
      assert stream[8..] == behind;
      var whole, body := ReadFull(length);
      if !whole {
        return Truncated;
      }
      assert stream[8..8 + length] == behind[..length] == body;
      assert stream[8 + length..] == Flat(chunks);
      r := Got(Frame(opcode, body), []);
    }

    /** The frames the read loop handles before it fails, whatever the pieces are. */
    method ReadAll() returns (frames: seq<Frame>, end: Decoded)
      modifies this
      ensures (frames, end) == DecodeAll(old(Flat(chunks)))
    {
      frames := [];
      ghost var all := DecodeAll(Flat(chunks));
      assert [] + all.0 == all.0;
      while true
        invariant all == (frames + DecodeAll(Flat(chunks)).0, DecodeAll(Flat(chunks)).1)
        decreases |Flat(chunks)|
      {
        ghost var left := DecodeAll(Flat(chunks)).0;
        end := ReadFrame();
        if !end.Got? {
          assert frames + [] == frames;
          return;
        }
        assert left == [end.frame] + DecodeAll(Flat(chunks)).0;
        assert frames + left == frames + [end.frame] + DecodeAll(Flat(chunks)).0;
        frames := frames + [end.frame];
      }
    }
  }

  // ---------- the bytes on the wire ----------

  /** Four bytes as a number, the lowest first. */
  function LittleEndian(b: seq<Byte>): int
    requires |b| == 4
  {
    var lowest: int, low: int, high: int, highest: int := b[0], b[1], b[2], b[3];
    lowest + 0x100 * low + 0x1_0000 * high + 0x100_0000 * highest
  }

  lemma LittleEndianIsUnique(a: seq<Byte>, b: seq<Byte>)
    requires |a| == 4 && |b| == 4 && LittleEndian(a) == LittleEndian(b)
    ensures a == b
  {
    var a0: int, a1: int, a2: int, a3: int := a[0], a[1], a[2], a[3];
    var b0: int, b1: int, b2: int, b3: int := b[0], b[1], b[2], b[3];
    LowestIsUnique(a0, a1 + 0x100 * a2 + 0x1_0000 * a3, b0, b1 + 0x100 * b2 + 0x1_0000 * b3);
    LowestIsUnique(a1, a2 + 0x100 * a3, b1, b2 + 0x100 * b3);
    LowestIsUnique(a2, a3, b2, b3);
  }

  lemma LowestIsUnique(a: int, high: int, b: int, other: int)
    requires 0 <= a < 0x100 && 0 <= b < 0x100 && a + 0x100 * high == b + 0x100 * other
    ensures a == b && high == other
  {
  }

  /** A written frame is the opcode and the length, little-endian, and then the body. */
  lemma EncodeExactly(f: Frame, stream: seq<Byte>)
    requires |f.body| < 0x1_0000_0000
    ensures stream == Encode(f) <==>
              && |stream| == 8 + |f.body|
              && LittleEndian(stream[..4]) == f.opcode && LittleEndian(stream[4..8]) == |f.body|
              && stream[8..] == f.body
  {
    HeaderOf(f, []);
    assert Encode(f) + [] == Encode(f);
    var e := Encode(f);
    if && |stream| == 8 + |f.body|
       && LittleEndian(stream[..4]) == f.opcode && LittleEndian(stream[4..8]) == |f.body| && stream[8..] == f.body {
      LittleEndianIsUnique(stream[..4], e[..4]);
      LittleEndianIsUnique(stream[4..8], e[4..8]);
      assert stream == stream[..4] + stream[4..8] + stream[8..];
      assert e == e[..4] + e[4..8] + e[8..];
    }
  }

  /** Reading is decided by the header's two little-endian numbers: a length over the cap, a stream that ends
      too early, or the frame they announce and the rest of the stream. */
  lemma DecodeExactly(stream: seq<Byte>)
    ensures Decode(stream) == TooLarge <==> |stream| >= 8 && LittleEndian(stream[4..8]) > 0x10_0000
    ensures Decode(stream) == Truncated <==>
              |stream| < 8 || (LittleEndian(stream[4..8]) <= 0x10_0000 && |stream| < 8 + LittleEndian(stream[4..8]))
    ensures Decode(stream).Got? ==>
              var f := Decode(stream).frame;
              && LittleEndian(stream[..4]) == f.opcode && LittleEndian(stream[4..8]) == |f.body|
              && stream[8..] == f.body + Decode(stream).rest
  {
    if Decode(stream).Got? {
      var length := LittleEndian(stream[4..8]);
      assert stream[8..] == stream[8..8 + length] + stream[8 + length..];
    }
  }
}

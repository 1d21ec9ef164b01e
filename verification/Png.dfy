/**
 The PNG scrubber (src/engine/opsec.rs, lines 265-288).

 Behind the eight-byte signature a PNG file is a list of chunks (section 3.2 of RFC 2083): a four-byte big-endian
 length, a four-byte type, that many data bytes and a four-byte CRC. Bytes at the end that do not form a chunk are kept.
 */
module Png {
  import opened Common

  const SIGNATURE_LENGTH := 8

  /** Length, type and CRC. */
  const CHUNK_OVERHEAD := 12

  const T_EXT: seq<byte> := [0x74, 0x45, 0x58, 0x74]
  const Z_TXT: seq<byte> := [0x7A, 0x54, 0x58, 0x74]
  const I_TXT: seq<byte> := [0x69, 0x54, 0x58, 0x74]
  const E_XIF: seq<byte> := [0x65, 0x58, 0x49, 0x66]

  predicate IsMetadataType(t: seq<byte>) {
    t == T_EXT || t == Z_TXT || t == I_TXT || t == E_XIF
  }

  /** The length field of a chunk at position `i`, below 2^32. */
  function DataLength(s: seq<byte>, i: nat): (n: nat)
    requires i + 4 <= |s|
    ensures n < 0x1_0000_0000
  {
    var b0: int, b1: int, b2: int, b3: int := s[i], s[i + 1], s[i + 2], s[i + 3];
    ((b0 * 256 + b1) * 256 + b2) * 256 + b3
  }

  /** A number below 2^32 as four bytes, the highest first. */
  function FourBytes(n: nat): seq<byte> {
    [n / 256 / 256 / 256 % 256, n / 256 / 256 % 256, n / 256 % 256, n % 256]
  }

  /** A whole chunk: its first four bytes say how many data bytes it has. */
  predicate IsChunk(c: seq<byte>) {
    && |c| >= CHUNK_OVERHEAD && |c| - CHUNK_OVERHEAD < 0x1_0000_0000
    && c[..4] == FourBytes(|c| - CHUNK_OVERHEAD)
  }

  predicate IsMetadata(c: seq<byte>) {
    |c| >= CHUNK_OVERHEAD && IsMetadataType(c[4..8])
  }

  /** Where the chunk at position `i` ends, or `i` when no complete chunk is there. */
  function ChunkEnd(s: seq<byte>, i: nat): (e: nat)
    requires i <= |s|
    ensures e == i || i + CHUNK_OVERHEAD <= e <= |s|
  {
    if i + CHUNK_OVERHEAD <= |s| && i + CHUNK_OVERHEAD + DataLength(s, i) <= |s|
    then i + CHUNK_OVERHEAD + DataLength(s, i) else i
  }

  /** The chunks from position `i` on. */
  function Chunks(s: seq<byte>, i: nat): seq<seq<byte>>
    requires i <= |s|
    decreases |s| - i
  {
    var e := ChunkEnd(s, i);
    if e == i then [] else [s[i..e]] + Chunks(s, e)
  }

  /** Where the incomplete tail begins. */
  function TailStart(s: seq<byte>, i: nat): (e: nat)
    requires i <= |s|
    ensures i <= e <= |s| && ChunkEnd(s, e) == e
    decreases |s| - i
  {
    var e := ChunkEnd(s, i);
    if e == i then i else TailStart(s, e)
  }

  function Concat(cs: seq<seq<byte>>): seq<byte> {
    if cs == [] then [] else cs[0] + Concat(cs[1..])
  }

  function Kept(cs: seq<seq<byte>>): (r: seq<seq<byte>>)
    ensures forall c :: c in r <==> c in cs && !IsMetadata(c)
  {
    if cs == [] then [] else (if IsMetadata(cs[0]) then [] else [cs[0]]) + Kept(cs[1..])
  }

  function DroppedLength(cs: seq<seq<byte>>): nat {
    if cs == [] then 0 else (if IsMetadata(cs[0]) then |cs[0]| else 0) + DroppedLength(cs[1..])
  }

  /** Bytes that hold no complete chunk at their start. */
  ghost predicate IsTail(t: seq<byte>) {
    forall n :: 0 <= n <= |t| ==> !IsChunk(t[..n])
  }

  // ---------------------------------------------------------------------------
  // The chunk walk and concatenation are inverse
  // ---------------------------------------------------------------------------

  /** The length field is `n` exactly when its bytes are those of `n`. */
  lemma DataLengthIff(s: seq<byte>, i: nat, n: nat)
    requires i + 4 <= |s| && n < 0x1_0000_0000
    ensures DataLength(s, i) == n <==> s[i..i + 4] == FourBytes(n)
  {
    var b0: int, b1: int, b2: int, b3: int := s[i], s[i + 1], s[i + 2], s[i + 3];
    assert s[i..i + 4] == [s[i], s[i + 1], s[i + 2], s[i + 3]];
    OneDigit(n, (b0 * 256 + b1) * 256 + b2, b3);
    OneDigit(n / 256, b0 * 256 + b1, b2);
    OneDigit(n / 256 / 256, b0, b1);
  }

  lemma OneDigit(n: nat, high: nat, low: nat)
    requires low < 256
    ensures n == high * 256 + low <==> n / 256 == high && n % 256 == low
  {
  }

  /** A chunk of that size at position `i`. */
  lemma ChunkIff(s: seq<byte>, i: nat, e: nat)
    requires i + CHUNK_OVERHEAD <= e <= |s|
    ensures IsChunk(s[i..e]) <==> DataLength(s, i) == e - i - CHUNK_OVERHEAD
  {
    hide DataLength, FourBytes;
    if e - i - CHUNK_OVERHEAD < 0x1_0000_0000 {
      DataLengthIff(s, i, e - i - CHUNK_OVERHEAD);
      assert s[i..e][..4] == s[i..i + 4];
    }
  }

  /** Nothing is lost: the chunks and the tail are the input again. */
  lemma {:induction false} WalkIsSound(s: seq<byte>, i: nat)
    requires i <= |s|
    ensures Concat(Chunks(s, i)) + s[TailStart(s, i)..] == s[i..]
    ensures forall c :: c in Chunks(s, i) ==> IsChunk(c)
    ensures IsTail(s[TailStart(s, i)..])
    decreases |s| - i
  {
    var e := ChunkEnd(s, i);
    if e == i {
      assert [] + s[i..] == s[i..];
      TailAt(s, i);
    } else {
      WalkIsSound(s, e);
      ChunkAt(s, i, e);
      ConcatCons(s[i..e], Chunks(s, e));
      JoinWalk(s, i, e, Concat(Chunks(s, e)), s[TailStart(s, e)..]);
    }
  }

  lemma ConcatCons(c: seq<byte>, cs: seq<seq<byte>>)
    ensures Concat([c] + cs) == c + Concat(cs)
  {
    assert ([c] + cs)[1..] == cs;
  }

  lemma JoinWalk(s: seq<byte>, i: nat, e: nat, walked: seq<byte>, t: seq<byte>)
    requires i <= e <= |s| && walked + t == s[e..]
    ensures s[i..e] + walked + t == s[i..]
  {
    assert s[i..e] + walked + t == s[i..e] + (walked + t);
    assert s[i..] == s[i..e] + s[e..];
  }

  lemma ChunkAt(s: seq<byte>, i: nat, e: nat)
    requires i <= |s| && e == ChunkEnd(s, i) && i < e
    ensures IsChunk(s[i..e]) && IsMetadata(s[i..e]) == IsMetadataType(s[i + 4..i + 8])
  {
    hide DataLength, IsChunk, IsMetadataType;
    ChunkIff(s, i, e);
    assert s[i..e][4..8] == s[i + 4..i + 8];
  }

  lemma TailAt(s: seq<byte>, i: nat)
    requires i <= |s| && ChunkEnd(s, i) == i
    ensures IsTail(s[i..])
  {
    hide DataLength, FourBytes;
    forall n | 0 <= n <= |s[i..]|
      ensures !IsChunk(s[i..][..n])
    {
      assert s[i..][..n] == s[i..i + n];
      if n >= CHUNK_OVERHEAD {
        ChunkIff(s, i, i + n);
      }
    }
  }

  lemma NoChunk(s: seq<byte>, i: nat, tail: seq<byte>)
    requires i <= |s| && s[i..] == [] + tail && IsTail(tail)
    ensures s[i..] == tail && ChunkEnd(s, i) == i
  {
    hide DataLength, FourBytes, IsChunk;
    assert s[i..] == tail;
    var e := ChunkEnd(s, i);
    if e != i {
      assert s[i..e] == tail[..e - i];
      assert !IsChunk(s[i..e]);
      ChunkIff(s, i, e);
    }
  }

  lemma ConcatStep(c: seq<byte>, rest: seq<byte>, tail: seq<byte>)
    ensures c + rest + tail == c + (rest + tail)
  {
  }

  lemma FirstChunk(s: seq<byte>, i: nat, c: seq<byte>, rest: seq<byte>)
    requires i <= |s| && s[i..] == c + rest && IsChunk(c)
    ensures i + |c| <= |s| && s[i..i + |c|] == c && s[i + |c|..] == rest
    ensures |c| > 0 && ChunkEnd(s, i) == i + |c|
  {
    hide DataLength;
    SplitSuffix(s, i, c, rest);
    ChunkIff(s, i, i + |c|);
  }

  /** Nothing is invented: any chunks and any tail are found again when they are written one behind the other. */
  lemma {:induction false} WalkIsComplete(s: seq<byte>, i: nat, cs: seq<seq<byte>>, tail: seq<byte>)
    requires i <= |s| && s[i..] == Concat(cs) + tail
    requires (forall c :: c in cs ==> IsChunk(c)) && IsTail(tail)
    ensures Chunks(s, i) == cs && s[TailStart(s, i)..] == tail
    decreases |cs|
  {
    hide DataLength, IsChunk, IsTail, ChunkEnd;
    if cs == [] {
      NoChunk(s, i, tail);
    } else {
      var c, rest := cs[0], cs[1..];
      assert c in cs;
      ConcatStep(c, Concat(rest), tail);
      hide Concat;
      FirstChunk(s, i, c, Concat(rest) + tail);
      WalkIsComplete(s, i + |c|, rest, tail);
      HeadAndTail(cs);
    }
  }

  // ---------------------------------------------------------------------------
  // The scrubber
  // ---------------------------------------------------------------------------

  function Stripped(data: seq<byte>): seq<byte>
    requires |data| >= SIGNATURE_LENGTH
  {
    data[..8] + (Concat(Kept(Chunks(data, 8))) + data[TailStart(data, 8)..])
  }

  /** The loop has read everything before `i` and written `out`. */
  function Continued(out: seq<byte>, data: seq<byte>, i: nat): seq<byte>
    requires i <= |data|
  {
    out + (Concat(Kept(Chunks(data, i))) + data[TailStart(data, i)..])
  }

  lemma Advance(out: seq<byte>, data: seq<byte>, i: nat, e: nat)
    requires i <= |data| && e == ChunkEnd(data, i) && i < e
    ensures Continued(out, data, i)
         == Continued(if IsMetadataType(data[i + 4..i + 8]) then out else out + data[i..e], data, e)
  {
    hide Kept, Concat, DataLength, ChunkEnd;
    var c, cs, t := data[i..e], Chunks(data, e), data[TailStart(data, e)..];
    assert IsMetadata(c) <==> IsMetadataType(data[i + 4..i + 8]) by {
      assert c[4..8] == data[i + 4..i + 8];
    }
    hide IsMetadata, IsMetadataType;
    KeptCons(c, cs);
    ConcatCons(c, Kept(cs));
    JoinKept(out, c, Concat(Kept(cs)), t);
  }

  lemma KeptCons(c: seq<byte>, cs: seq<seq<byte>>)
    ensures Kept([c] + cs) == if IsMetadata(c) then Kept(cs) else [c] + Kept(cs)
  {
    hide IsMetadata;
    assert ([c] + cs)[1..] == cs;
  }

  lemma JoinKept(out: seq<byte>, c: seq<byte>, kept: seq<byte>, t: seq<byte>)
    ensures out + (c + kept + t) == out + c + (kept + t)
  {
  }

  lemma Finish(out: seq<byte>, data: seq<byte>, i: nat)
    requires i <= |data|
    requires i + 12 <= |data| ==> i + 12 + DataLength(data, i) > |data|
    ensures Continued(out, data, i) == out + data[i..]
  {
    assert [] + data[i..] == data[i..];
  }

  lemma ChunkEndIs(data: seq<byte>, i: nat, e: nat)
    requires i + 12 <= |data| && e == i + (12 + DataLength(data, i)) && e <= |data|
    ensures ChunkEnd(data, i) == e
  {
  }

  method StripPngMetadata(data: seq<byte>) returns (out: seq<byte>)
    requires |data| >= SIGNATURE_LENGTH
    ensures out == Stripped(data)
  {
    hide Chunks, Concat, Kept, TailStart, ChunkEnd, IsMetadata, DataLength;
    out := data[..8];
    var idx := 8;
    while idx + 12 <= |data|
      invariant 8 <= idx <= |data|
      invariant Stripped(data) == Continued(out, data, idx)
    {
      hide *;
      var length := DataLength(data, idx);
      var chunkType := data[idx + 4..idx + 8];
      var totalChunkLen := 12 + length;
      if idx + totalChunkLen > |data| {
        Finish(out, data, idx);
        out := out + data[idx..];
        return;
      }
      ChunkEndIs(data, idx, idx + totalChunkLen);
      Advance(out, data, idx, idx + totalChunkLen);
      if !IsMetadataType(chunkType) {
        out := out + data[idx..idx + totalChunkLen];
      }
      idx := idx + totalChunkLen;
    }
    hide *;
    Finish(out, data, idx);
    out := out + data[idx..];
  }

  /** The walk of the output is the walk of the input without the metadata chunks; the incomplete tail is kept. */
  lemma OutputWalk(data: seq<byte>)
    requires |data| >= SIGNATURE_LENGTH
    ensures var out := Stripped(data);
      && |out| >= 8 && out[..8] == data[..8]
      && Chunks(out, 8) == Kept(Chunks(data, 8))
      && out[TailStart(out, 8)..] == data[TailStart(data, 8)..]
  {
    var out := Stripped(data);
    WalkIsSound(data, 8);
    WalkIsComplete(out, 8, Kept(Chunks(data, 8)), data[TailStart(data, 8)..]);
  }

  lemma {:induction false} KeptTwice(cs: seq<seq<byte>>)
    ensures Kept(Kept(cs)) == Kept(cs)
    decreases |cs|
  {
    if cs != [] {
      KeptTwice(cs[1..]);
      if !IsMetadata(cs[0]) {
        assert ([cs[0]] + Kept(cs[1..]))[1..] == Kept(cs[1..]);
      } else {
        assert [] + Kept(cs[1..]) == Kept(cs[1..]);
      }
    }
  }

  lemma StripIsIdempotent(data: seq<byte>)
    requires |data| >= SIGNATURE_LENGTH
    ensures |Stripped(data)| >= SIGNATURE_LENGTH && Stripped(Stripped(data)) == Stripped(data)
    ensures forall c :: c in Chunks(Stripped(data), 8) ==> !IsMetadata(c)
  {
    OutputWalk(data);
    KeptTwice(Chunks(data, 8));
  }

  lemma {:induction false} KeptLength(cs: seq<seq<byte>>)
    ensures |Concat(cs)| == |Concat(Kept(cs))| + DroppedLength(cs)
    decreases |cs|
  {
    if cs != [] {
      KeptLength(cs[1..]);
      if !IsMetadata(cs[0]) {
        assert ([cs[0]] + Kept(cs[1..]))[1..] == Kept(cs[1..]);
      } else {
        assert [] + Kept(cs[1..]) == Kept(cs[1..]);
      }
    }
  }

  // ---------------------------------------------------------------------------
  // The scrubber byte by byte
  // ---------------------------------------------------------------------------

  /** The bytes are the characters of `text`. */
  predicate Spells(s: seq<byte>, text: string) {
    |s| == |text| && forall i :: 0 <= i < |s| ==> s[i] == text[i] as int
  }

  /** A chunk with its length in front. */
  function Written(kind: seq<byte>, content: seq<byte>, crc: seq<byte>): seq<byte> {
    FourBytes(|content|) + kind + content + crc
  }

  /** A chunk of any type and content is removed if its type spells one of four names, and kept byte for byte otherwise;
      the rest of the file is scrubbed as if the chunk were not there. */
  lemma WrittenChunk(signature: seq<byte>, kind: seq<byte>, content: seq<byte>, crc: seq<byte>, rest: seq<byte>)
    requires |signature| == 8 && |kind| == 4 && |crc| == 4 && |content| < 0x1_0000_0000
    ensures var c := Written(kind, content, crc);
      var drop := Spells(kind, "tEXt") || Spells(kind, "zTXt") || Spells(kind, "iTXt") || Spells(kind, "eXIf");
      && |Stripped(signature + rest)| >= 8
      && Stripped(signature + (c + rest))
         == signature + ((if drop then [] else c) + Stripped(signature + rest)[8..])
  {
    var c := Written(kind, content, crc);
    WrittenIsChunk(kind, content, crc);
    hide *;
    WalkOfWritten(signature, c, rest);
    var u := signature + rest;
    StrippedIs(signature + (c + rest), signature, [c] + Chunks(u, 8), u[TailStart(u, 8)..]);
    StrippedIs(u, signature, Chunks(u, 8), u[TailStart(u, 8)..]);
    KeptCons(c, Chunks(u, 8));
    ConcatCons(c, Kept(Chunks(u, 8)));
    JoinStripped(signature, c, Concat(Kept(Chunks(u, 8))), u[TailStart(u, 8)..]);
  }

  lemma StrippedIs(data: seq<byte>, signature: seq<byte>, cs: seq<seq<byte>>, tail: seq<byte>)
    requires |data| >= 8 && data[..8] == signature && Chunks(data, 8) == cs && data[TailStart(data, 8)..] == tail
    ensures Stripped(data) == signature + (Concat(Kept(cs)) + tail)
  {
    hide Kept, Concat, Chunks, TailStart;
  }

  lemma WalkOfWritten(signature: seq<byte>, c: seq<byte>, rest: seq<byte>)
    requires |signature| == 8 && IsChunk(c)
    ensures var data, u := signature + (c + rest), signature + rest;
      && data[..8] == signature && u[..8] == signature
      && Chunks(data, 8) == [c] + Chunks(u, 8) && data[TailStart(data, 8)..] == u[TailStart(u, 8)..]
  {
    hide IsChunk, ChunkEnd;
    var data, u := signature + (c + rest), signature + rest;
    assert data[8..] == c + rest && u[8..] == rest;
    FirstChunk(data, 8, c, rest);
    WalkFrom(data, 8 + |c|, u, 8);
  }

  lemma JoinStripped(signature: seq<byte>, c: seq<byte>, kept: seq<byte>, tail: seq<byte>)
    requires |signature| == 8
    ensures (signature + (kept + tail))[8..] == kept + tail
    ensures c + kept + tail == c + (kept + tail) && [] + (kept + tail) == kept + tail
  {
  }

  lemma WrittenIsChunk(kind: seq<byte>, content: seq<byte>, crc: seq<byte>)
    requires |kind| == 4 && |crc| == 4 && |content| < 0x1_0000_0000
    ensures var c := Written(kind, content, crc);
      && IsChunk(c)
      && (IsMetadata(c) <==>
          Spells(kind, "tEXt") || Spells(kind, "zTXt") || Spells(kind, "iTXt") || Spells(kind, "eXIf"))
  {
    FourBytesAreFour(|content|);
    SpelledTypes(kind);
    hide FourBytes, Spells, IsMetadataType;
    var c := Written(kind, content, crc);
    assert c[..4] == FourBytes(|content|) && c[4..8] == kind;
  }

  lemma FourBytesAreFour(n: nat)
    ensures |FourBytes(n)| == 4
  {
  }

  lemma SpelledTypes(kind: seq<byte>)
    ensures IsMetadataType(kind) <==>
              Spells(kind, "tEXt") || Spells(kind, "zTXt") || Spells(kind, "iTXt") || Spells(kind, "eXIf")
  {
  }

  /** The walk sees only what lies ahead of it. */
  lemma {:induction false} WalkFrom(s: seq<byte>, i: nat, t: seq<byte>, j: nat)
    requires i <= |s| && j <= |t| && s[i..] == t[j..]
    ensures Chunks(s, i) == Chunks(t, j) && s[TailStart(s, i)..] == t[TailStart(t, j)..]
  {
    WalkIsSound(t, j);
    WalkIsComplete(s, i, Chunks(t, j), t[TailStart(t, j)..]);
  }

  /** No byte is lost but those of the dropped chunks. */
  lemma StripConservesLength(data: seq<byte>)
    requires |data| >= SIGNATURE_LENGTH
    ensures |Stripped(data)| + DroppedLength(Chunks(data, 8)) == |data|
  {
    WalkIsSound(data, 8);
    KeptLength(Chunks(data, 8));
    assert |data[8..]| == |Concat(Chunks(data, 8))| + |data[TailStart(data, 8)..]|;
  }
}

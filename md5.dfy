/**
 * The md5 and md5_64 entry points: the accumulators, the pass loop over the
 * padded stream, the 64-byte chunk it fills in place, the 64 steps over
 * that chunk and the packing of the result into hash_t. The host is taken
 * to be little-endian (the byte order in which md5.c reads the chunk
 * as words and writes the 32-bit bit count). The zero fill is the corrected
 * one, bounded by the room left in the chunk; the loop as written is
 * analysed in chunking.dfy.
 */
module Md5 {
  import opened Rfc1321
  import opened Md5Chunking

  /** hash_t: two 64-bit halves, `data[0]` and `data[1]`. */
  datatype Hash = Hash(data0: bv64, data1: bv64)

  /**
   * The lengths md5 handles without signed overflow: `8 * (int)len` must
   * fit in a 32-bit int, so len < 2^28.
   */
  const MaxLen: nat := 0x1000_0000

  /** The shift-and-or of LEFT_ROTATE is the left rotation, for amounts in a range of at most five. */
  lemma ShiftOrRange(x: Word, c: ShiftAmount, lo: bv8, hi: bv8)
    requires lo <= c <= hi && hi - lo <= 4
    ensures (x << c) | (x >> (32 - c)) == Rotl(x, c)
  {
    if c == lo {
    } else if c == lo + 1 {
    } else if c == lo + 2 {
    } else if c == lo + 3 {
    }
  }

  /** The shift-and-or of LEFT_ROTATE is the left rotation for every shift amount. */
  lemma ShiftOrIsRotation(x: Word, c: ShiftAmount)
    ensures (x << c) | (x >> (32 - c)) == Rotl(x, c)
  {
    if c <= 8 {
      ShiftOrRange(x, c, 4, 8);
    } else if c <= 13 {
      ShiftOrRange(x, c, 9, 13);
    } else if c <= 18 {
      ShiftOrRange(x, c, 14, 18);
    } else {
      ShiftOrRange(x, c, 19, 23);
    }
  }

  /** The LEFT_ROTATE macro; for every amount the shift table can hold it is the left rotation x <<< c. */
  function LeftRotate(x: Word, c: ShiftAmount): (r: Word)
    ensures r == Rotl(x, c)
  {
    ShiftOrIsRotation(x, c);
    (x << c) | (x >> (32 - c))
  }

  /** The low 32 bits of a 64-bit value. */
  function Low(x: bv64): Word
  {
    (x & 0xffff_ffff) as Word
  }

  /** The high 32 bits of a 64-bit value. */
  function High(x: bv64): Word
  {
    (x >> 32) as Word
  }

  /** The four accumulators recovered from a hash_t: the low and high halves of each 64-bit word. */
  function Unpack(h: Hash): State
  {
    State(Low(h.data0), High(h.data0), Low(h.data1), High(h.data1))
  }

  /** The return expression of md5: a0 and b0 in data[0], c0 and d0 in data[1], the first of each pair in the low half. */
  function Pack(s: State): (h: Hash)
    ensures Unpack(h) == s
  {
    Hash((s.a as bv64) | ((s.b as bv64) << 32), (s.c as bv64) | ((s.d as bv64) << 32))
  }

  /** Packing loses nothing: every hash_t is the packing of its unpacked accumulators. */
  lemma PackUnpack(h: Hash)
    ensures Pack(Unpack(h)) == h
  {
  }

  /** The bytes of a 64-bit value in memory on a little-endian host. */
  function Le64Bytes(x: bv64): (bs: seq<Byte>)
    ensures |bs| == 8
  {
    Le32Bytes(Low(x)) + Le32Bytes(High(x))
  }

  /** On a little-endian host the 16 bytes of the hash_t that md5 returns are the digest of section 3.5. */
  lemma HashBytesAreDigest(s: State)
    ensures Le64Bytes(Pack(s).data0) + Le64Bytes(Pack(s).data1) == DigestBytes(s)
  {
    var h := Pack(s);
    assert Low(h.data0) == s.a && High(h.data0) == s.b && Low(h.data1) == s.c && High(h.data1) == s.d;
  }

  /**
   * The 32-bit bit count md5 writes after the padded length, followed by
   * the four bytes its zero fill writes, is the 64-bit length field of
   * section 3.2 for every length md5 handles.
   */
  lemma LengthFieldMatches(n: nat)
    requires n < MaxLen
    ensures LengthBytes(n) == Le32Bytes((8 * n) as Word) + [0, 0, 0, 0]
  {
    var bits := (8 * n) % 0x1_0000_0000_0000_0000;
    assert bits == 8 * n && bits % 0x1_0000_0000 == 8 * n && bits / 0x1_0000_0000 == 0;
    assert Le32Bytes(0) == [0, 0, 0, 0];
  }

  /**
   * From 2^29 up to 2^61 bytes the bit count does not fit in 32 bits: the 64-bit
   * length field of section 3.2 then differs from any 32-bit count
   * followed by four zeros, whatever that count is.
   */
  lemma LengthFieldTruncated(n: nat, count: Word)
    requires 0x2000_0000 <= n < 0x2000_0000_0000_0000
    ensures LengthBytes(n) != Le32Bytes(count) + [0, 0, 0, 0]
  {
    var bits := (8 * n) % 0x1_0000_0000_0000_0000;
    var high := bits / 0x1_0000_0000;
    assert 1 <= high < 0x1_0000_0000 && high as Word != 0 by {
      assert bits == 8 * n;
    }
    HighWordShows((bits % 0x1_0000_0000) as Word, high as Word, count);
  }

  /**
   * The upper bound of `LengthFieldTruncated` is needed: at 2^61 bytes the
   * 64-bit bit count of section 3.2 wraps to 0, and a count of 0 followed
   * by four zeros agrees with it again.
   */
  lemma LengthFieldWraps(n: nat)
    requires n == 0x2000_0000_0000_0000
    ensures LengthBytes(n) == Le32Bytes(0) + [0, 0, 0, 0]
  {
    assert (8 * n) % 0x1_0000_0000_0000_0000 == 0;
    assert Le32Bytes(0) == [0, 0, 0, 0];
  }

  /** Eight bytes whose high word is not zero are not a word followed by four zeros. */
  lemma HighWordShows(low: Word, high: Word, count: Word)
    requires high != 0
    ensures Le32Bytes(low) + Le32Bytes(high) != Le32Bytes(count) + [0, 0, 0, 0]
  {
    Le32RoundTrip([0, 0, 0, 0], high);
    SuffixOfAppend(Le32Bytes(low), Le32Bytes(high));
    SuffixOfAppend(Le32Bytes(count), [0, 0, 0, 0]);
  }

  /** Dropping the first part of a concatenation leaves the second. */
  lemma SuffixOfAppend(x: seq<Byte>, y: seq<Byte>)
    ensures (x + y)[|x|..] == y
  {
  }

  /**
   * The stream md5 writes, with its 32-bit bit count and four zeros as the
   * length field, is the padded stream, byte for byte.
   */
  lemma StreamIsPadded(msg: seq<Byte>)
    requires |msg| < MaxLen
    ensures forall k :: 0 <= k < PaddedLen(|msg|) + 8 ==>
      StreamByte(msg, PaddedLen(|msg|), Le32Bytes((8 * |msg|) as Word) + [0, 0, 0, 0], k) == PadByte(msg, k)
  {
    LengthFieldMatches(|msg|);
  }

  /** memcpy into the chunk: `size` bytes of `src` from `from` on land at `at`, the rest of the chunk is unchanged. */
  method Memcpy(dst: array<Byte>, at: int, src: seq<Byte>, from: int, size: int)
    requires 0 <= at && 0 <= from && 0 <= size && at + size <= dst.Length && from + size <= |src|
    modifies dst
    ensures forall t :: 0 <= t < dst.Length ==>
      dst[t] == if at <= t < at + size then src[from + t - at] else old(dst[t])
  {
    forall t | at <= t < at + size {
      dst[t] := src[from + t - at];
    }
  }

  /** memset on the chunk: `size` copies of `value` at `at`, the rest of the chunk is unchanged. */
  method Memset(dst: array<Byte>, at: int, value: Byte, size: int)
    requires 0 <= at && 0 <= size && at + size <= dst.Length
    modifies dst
    ensures forall t :: 0 <= t < dst.Length ==> dst[t] == if at <= t < at + size then value else old(dst[t])
  {
    forall t | at <= t < at + size {
      dst[t] := value;
    }
  }

  /**
   * One iteration of the pre-processing loop: by the four branches, copies
   * data, writes 0x80, writes a byte of the 32-bit bit count or fills
   * zeros, at chunk position `i` and stream position `inputIndex`, and
   * advances both by the size written, as the clamped cursor model does.
   * Everything before chunk position `i` stays as it was. Inside a pass of
   * a length that does not overrun, the counters move exactly as one
   * iteration of the loop as written moves them.
   */
  method PreprocessStep(input: seq<Byte>, chunk: array<Byte>, paddedLen: int, inputSize: Word, i: int, inputIndex: int,
                        ghost start: int)
    returns (i': int, inputIndex': int)
    requires |input| < MaxLen && paddedLen == PaddedLen(|input|) && chunk.Length == 64
    requires 0 <= i < 64 && inputIndex == start + i && 0 <= start && start + 64 <= paddedLen + 8
    requires 0 < i ==> |input| <= inputIndex
    requires forall t :: 0 <= t < i ==>
      chunk[t] == StreamByte(input, paddedLen, Le32Bytes(inputSize) + [0, 0, 0, 0], start + t)
    modifies chunk
    ensures Cursor(i', inputIndex') == Advance(|input|, paddedLen, Cursor(i, inputIndex), true)
    ensures !Overruns(|input|) && InPass(|input|, paddedLen, start, Cursor(i, inputIndex)) ==>
      Cursor(i', inputIndex') == Advance(|input|, paddedLen, Cursor(i, inputIndex), false)
    ensures i' <= 64 && (i' < 64 ==> |input| <= inputIndex')
    ensures forall t :: 0 <= t < i' ==>
      chunk[t] == StreamByte(input, paddedLen, Le32Bytes(inputSize) + [0, 0, 0, 0], start + t)
  {
    var len := |input|;
    if inputIndex < len {
      var size := Max(Min(64, len - inputIndex), 1);
      Memcpy(chunk, i, input, inputIndex, size);
      i', inputIndex' := i + size, inputIndex + size;
    } else if inputIndex == len {
      chunk[i] := 0x80;
      i', inputIndex' := i + 1, inputIndex + 1;
    } else if paddedLen <= inputIndex < paddedLen + 4 {
      chunk[i] := Le32Bytes(inputSize)[inputIndex - paddedLen];
      i', inputIndex' := i + 1, inputIndex + 1;
    } else {
      var size := Max(Min(64 - i, paddedLen - inputIndex), 1);
      Memset(chunk, i, 0, size);
      i', inputIndex' := i + size, inputIndex + size;
    }
    if !Overruns(len) && InPass(len, paddedLen, start, Cursor(i, inputIndex)) {
      ClampAgrees(len, start, Cursor(i, inputIndex));
    }
  }

  /**
   * The pre-processing loop of one pass: fills the 64-byte chunk with the
   * bytes of the stream from `start` on (the length field md5 writes is
   * its 32-bit bit count followed by four zeros) and returns the advanced
   * stream position. For a length that does not overrun, the loop as
   * written, run from the same start, ends at the same position.
   */
  method FillChunk(input: seq<Byte>, chunk: array<Byte>, start: int, paddedLen: int, inputSize: Word)
    returns (inputIndex: int)
    requires |input| < MaxLen && paddedLen == PaddedLen(|input|) && inputSize == (8 * |input|) as Word
    requires chunk.Length == 64
    requires 0 <= start && start % 64 == 0 && start + 64 <= paddedLen + 8
    modifies chunk
    ensures inputIndex == start + 64
    ensures !Overruns(|input|) ==> Fill(|input|, paddedLen, Cursor(0, start), false) == Cursor(64, inputIndex)
    ensures forall t :: 0 <= t < 64 ==> chunk[t] == StreamByte(input, paddedLen, Le32Bytes(inputSize) + [0, 0, 0, 0], start + t)
  {
    ghost var field := Le32Bytes(inputSize) + [0, 0, 0, 0];
    inputIndex := start;
    var i := 0;
    while i < 64
      invariant InPass(|input|, paddedLen, start, Cursor(i, inputIndex))
      invariant forall t :: 0 <= t < i ==> chunk[t] == StreamByte(input, paddedLen, field, start + t)
      invariant !Overruns(|input|) ==>
        Fill(|input|, paddedLen, Cursor(i, inputIndex), false) == Fill(|input|, paddedLen, Cursor(0, start), false)
      decreases 64 - i
    {
      AdvanceInPass(|input|, start, Cursor(i, inputIndex), true);
      ghost var before := Cursor(i, inputIndex);
      i, inputIndex := PreprocessStep(input, chunk, paddedLen, inputSize, i, inputIndex, start);
      if !Overruns(|input|) {
        FillFollows(|input|, paddedLen, before, Cursor(i, inputIndex));
      }
    }
  }

  /** The 64-step loop over one chunk's words, starting from the accumulators. */
  method RunRounds(s: State, m: seq<Word>) returns (t: State)
    requires |m| == 16
    ensures t == Rounds(64, s, m)
  {
    var a, b, c, d := s.a, s.b, s.c, s.d;
    for j := 0 to 64
      invariant State(a, b, c, d) == Rounds(j, s, m)
    {
      var f := Add(Mix(j, b, c, d), Add(Add(a, K[j]), m[MsgIndex(j)]));
      a := d;
      d := c;
      c := b;
      b := Add(b, LeftRotate(f, R[j]));
    }
    t := State(a, b, c, d);
  }

  /**
   * A chunk holding, from a block boundary on, the bytes of the stream whose
   * length field is the 32-bit bit count and four zeros is that block of the
   * padded stream.
   */
  lemma ChunkIsBlock(msg: seq<Byte>, chunk: array<Byte>, start: nat, k: nat)
    requires |msg| < MaxLen && start == 64 * k && k < |Pad(msg)| / 64 && chunk.Length == 64
    requires forall t :: 0 <= t < 64 ==>
      chunk[t] == StreamByte(msg, PaddedLen(|msg|), Le32Bytes((8 * |msg|) as Word) + [0, 0, 0, 0], start + t)
    ensures chunk[..] == Blocks(Pad(msg))[k]
  {
    StreamIsPadded(msg);
    PadLayout(msg);
    BlockAt(Pad(msg), k);
  }

  /** The start of block k of a stream is a multiple of 64. */
  lemma Aligned(k: nat)
    ensures (64 * k) % 64 == 0
  {
  }

  /** md5: the digest of `input`, packed into hash_t. */
  method Md5(input: seq<Byte>) returns (h: Hash)
    requires |input| < MaxLen
    ensures h == Pack(Digest(input))
  {
    var a0: Word, b0: Word, c0: Word, d0: Word := 0x67452301, 0xefcdab89, 0x98badcfe, 0x10325476;
    var len := |input|;
    var inputIndex := 0;
    var paddedLen := ((len + 8) / 64 + 1) * 64 - 8;
    var inputSize: Word := (8 * len) as Word;
    ghost var blocks := Blocks(Pad(input));
    ghost var k := 0;
    assert paddedLen + 8 == 64 * |blocks|;
    while inputIndex < paddedLen
      invariant 0 <= k <= |blocks| && inputIndex == 64 * k
      invariant Chain(State(a0, b0, c0, d0), blocks[k..]) == Digest(input)
      decreases |blocks| - k
    {
      var chunk := new Byte[64];
      assert k < |blocks| && inputIndex + 64 <= paddedLen + 8;
      var start := inputIndex;
      Aligned(k);
      inputIndex := FillChunk(input, chunk, start, paddedLen, inputSize);
      ChunkIsBlock(input, chunk, start, k);
      var m := Words(chunk[..]);
      var t := RunRounds(State(a0, b0, c0, d0), m);
      ChainStep(State(a0, b0, c0, d0), blocks, k);
      a0, b0, c0, d0 := Add(a0, t.a), Add(b0, t.b), Add(c0, t.c), Add(d0, t.d);
      k := k + 1;
    }
    assert k == |blocks|;
    h := Pack(State(a0, b0, c0, d0));
  }

  /** The return expression of md5_64: the two halves of a hash_t combined by exclusive or. */
  function Fold(h: Hash): bv64
  {
    h.data0 ^ h.data1
  }

  /**
   * md5_64: the two halves of md5's hash_t combined by exclusive or; its
   * low half is A ^ C and its high half B ^ D of the digest.
   */
  method Md5_64(input: seq<Byte>) returns (x: bv64)
    requires |input| < MaxLen
    ensures x == Fold(Pack(Digest(input)))
    ensures Low(x) == Digest(input).a ^ Digest(input).c
    ensures High(x) == Digest(input).b ^ Digest(input).d
  {
    var hash := Md5(input);
    x := Fold(hash);
    FoldHalves(hash, Digest(input));
  }

  /** Combining the halves of a packed hash by exclusive or combines the accumulators pairwise. */
  lemma FoldHalves(h: Hash, s: State)
    requires h == Pack(s)
    ensures Low(Fold(h)) == s.a ^ s.c && High(Fold(h)) == s.b ^ s.d
  {
  }
}

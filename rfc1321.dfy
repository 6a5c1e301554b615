/**
 * The MD5 message-digest algorithm of RFC 1321 as pure functions: the padded
 * stream (sections 3.1 and 3.2), the initial buffer (section 3.3), the 64
 * steps that compress one 64-byte block (section 3.4) and the chaining of the
 * blocks. The imperative engine in md5.dfy is proved against `Digest`.
 */
module Rfc1321 {

  type Byte = bv8
  type Word = bv32

  /** The four 32-bit accumulators A, B, C and D. */
  datatype State = State(a: Word, b: Word, c: Word, d: Word)

  /** The initial buffer of section 3.3. */
  const Init: State := State(0x67452301, 0xefcdab89, 0x98badcfe, 0x10325476)

  /** A rotation amount of the shift table (a byte-sized entry): never 0 and never 32. */
  type ShiftAmount = s: bv8 | 4 <= s <= 23 witness 4

  /** Per-step left-rotation amounts (the table `r[]`). */
  const R: seq<ShiftAmount> := [
    7, 12, 17, 22, 7, 12, 17, 22, 7, 12, 17, 22, 7, 12, 17, 22,
    5,  9, 14, 20, 5,  9, 14, 20, 5,  9, 14, 20, 5,  9, 14, 20,
    4, 11, 16, 23, 4, 11, 16, 23, 4, 11, 16, 23, 4, 11, 16, 23,
    6, 10, 15, 21, 6, 10, 15, 21, 6, 10, 15, 21, 6, 10, 15, 21
  ]

  /** Per-step additive constants (the table `k[]`, T[1..64] of section 3.4). */
  const K: seq<Word> := [
    0xd76aa478, 0xe8c7b756, 0x242070db, 0xc1bdceee,
    0xf57c0faf, 0x4787c62a, 0xa8304613, 0xfd469501,
    0x698098d8, 0x8b44f7af, 0xffff5bb1, 0x895cd7be,
    0x6b901122, 0xfd987193, 0xa679438e, 0x49b40821,
    0xf61e2562, 0xc040b340, 0x265e5a51, 0xe9b6c7aa,
    0xd62f105d, 0x02441453, 0xd8a1e681, 0xe7d3fbc8,
    0x21e1cde6, 0xc33707d6, 0xf4d50d87, 0x455a14ed,
    0xa9e3e905, 0xfcefa3f8, 0x676f02d9, 0x8d2a4c8a,
    0xfffa3942, 0x8771f681, 0x6d9d6122, 0xfde5380c,
    0xa4beea44, 0x4bdecfa9, 0xf6bb4b60, 0xbebfbc70,
    0x289b7ec6, 0xeaa127fa, 0xd4ef3085, 0x04881d05,
    0xd9d4d039, 0xe6db99e5, 0x1fa27cf8, 0xc4ac5665,
    0xf4292244, 0x432aff97, 0xab9423a7, 0xfc93a039,
    0x655b59c3, 0x8f0ccc92, 0xffeff47d, 0x85845dd1,
    0x6fa87e4f, 0xfe2ce6e0, 0xa3014314, 0x4e0811a1,
    0xf7537e82, 0xbd3af235, 0x2ad7d2bb, 0xeb86d391
  ]

  /**
   * One shift amount and one additive constant per step, and every amount
   * strictly between 0 and 32, where a shift by 32 - s would be undefined.
   */
  lemma StepTables()
    ensures |R| == 64 && |K| == 64
    ensures forall j :: 0 <= j < 64 ==> 0 < R[j] as int < 32
  {
  }

  /** The initial buffer as the bytes of section 3.3: A is 01 23 45 67 in memory, and so on. */
  lemma InitBytes()
    ensures DigestBytes(Init) == [0x01, 0x23, 0x45, 0x67, 0x89, 0xab, 0xcd, 0xef,
                                  0xfe, 0xdc, 0xba, 0x98, 0x76, 0x54, 0x32, 0x10]
  {
  }

  // ---------------------------------------------------------------------------
  // Byte order
  // ---------------------------------------------------------------------------

  /** The four bytes of a word, least significant first. */
  function Le32Bytes(w: Word): (bs: seq<Byte>)
    ensures |bs| == 4
  {
    [(w & 0xff) as Byte, ((w >> 8) & 0xff) as Byte,
     ((w >> 16) & 0xff) as Byte, ((w >> 24) & 0xff) as Byte]
  }

  /** The word whose little-endian bytes are `bs`. */
  function Le32(bs: seq<Byte>): Word
    requires |bs| == 4
  {
    bs[0] as Word | (bs[1] as Word << 8) | (bs[2] as Word << 16) | (bs[3] as Word << 24)
  }

  /** Reading a word from four bytes and writing it back gives the same bytes, and conversely. */
  lemma Le32RoundTrip(bs: seq<Byte>, w: Word)
    requires |bs| == 4
    ensures Le32Bytes(Le32(bs)) == bs
    ensures Le32(Le32Bytes(w)) == w
  {
  }

  // ---------------------------------------------------------------------------
  // Padding (sections 3.1 and 3.2)
  // ---------------------------------------------------------------------------

  /**
   * The length of the padded stream without its 8-byte length field: the
   * shortest stream that holds the data, the 0x80 byte and the length field
   * and is a whole number of 64-byte blocks.
   */
  function PaddedLen(n: nat): (p: nat)
    ensures (p + 8) % 64 == 0
    ensures n + 9 <= p + 8 < n + 73
  {
    ((n + 8) / 64 + 1) * 64 - 8
  }

  function Zeros(k: nat): (z: seq<Byte>)
    ensures |z| == k && forall t :: 0 <= t < k ==> z[t] == 0
  {
    seq(k, _ => 0)
  }

  /**
   * The message length in bits, modulo 2^64, as the 8 bytes of section 3.2:
   * the low-order word first, each word least significant byte first.
   */
  function LengthBytes(n: nat): (bs: seq<Byte>)
    ensures |bs| == 8
  {
    var bits := (8 * n) % 0x1_0000_0000_0000_0000;
    Le32Bytes((bits % 0x1_0000_0000) as Word) + Le32Bytes((bits / 0x1_0000_0000) as Word)
  }

  /** The padded stream: data, 0x80, zero fill, then the 64-bit bit count. */
  function Pad(msg: seq<Byte>): (padded: seq<Byte>)
    ensures |padded| == PaddedLen(|msg|) + 8
    ensures |padded| % 64 == 0
  {
    msg + [0x80] + Zeros(PaddedLen(|msg|) - |msg| - 1) + LengthBytes(|msg|)
  }

  /**
   * Byte k of a stream laid out as the padding lays it out: the data, 0x80,
   * zeros up to position p, then an 8-byte length field.
   */
  function StreamByte(msg: seq<Byte>, p: nat, field: seq<Byte>, k: nat): Byte
    requires |msg| < p && |field| == 8 && k < p + 8
  {
    if k < |msg| then msg[k]
    else if k == |msg| then 0x80
    else if k < p then 0
    else field[k - p]
  }

  /** Byte k of the padded stream, stated position by position. */
  function PadByte(msg: seq<Byte>, k: nat): Byte
    requires k < PaddedLen(|msg|) + 8
  {
    StreamByte(msg, PaddedLen(|msg|), LengthBytes(|msg|), k)
  }

  /** The padded stream agrees with the position-by-position description at every byte. */
  lemma PadLayout(msg: seq<Byte>)
    ensures forall k :: 0 <= k < |Pad(msg)| ==> Pad(msg)[k] == PadByte(msg, k)
  {
    var n, p := |msg|, PaddedLen(|msg|);
    var padded := Pad(msg);
    var fill := Zeros(p - n - 1);
    assert padded == msg + ([0x80] + fill) + LengthBytes(n);
    forall k | 0 <= k < |padded| ensures padded[k] == PadByte(msg, k) {
      if n < k < p {
        assert padded[k] == fill[k - n - 1];
      } else if p <= k {
        assert padded[k] == LengthBytes(n)[k - p];
      }
    }
  }

  /** The padded stream begins with the data itself. */
  lemma PadPrefix(msg: seq<Byte>, j: nat)
    requires j <= |msg|
    ensures Pad(msg)[..j] == msg[..j]
  {
    var rest := [0x80] + Zeros(PaddedLen(|msg|) - |msg| - 1) + LengthBytes(|msg|);
    assert Pad(msg) == msg + rest;
  }

  // ---------------------------------------------------------------------------
  // One block (section 3.4)
  // ---------------------------------------------------------------------------

  /** Consecutive groups of four bytes, each read as a little-endian word. */
  function Words(bytes: seq<Byte>): (m: seq<Word>)
    requires |bytes| % 4 == 0
    ensures |m| == |bytes| / 4
  {
    if bytes == [] then [] else [Le32(bytes[..4])] + Words(bytes[4..])
  }

  /** Word w of a block is made of bytes 4w to 4w+3, least significant first. */
  lemma {:induction false} WordsAt(bytes: seq<Byte>, w: nat)
    requires |bytes| % 4 == 0 && w < |bytes| / 4
    ensures Le32Bytes(Words(bytes)[w]) == bytes[4 * w .. 4 * w + 4]
  {
    if w == 0 {
      Le32RoundTrip(bytes[..4], 0);
    } else {
      WordsAt(bytes[4..], w - 1);
      assert bytes[4..][4 * (w - 1) .. 4 * w] == bytes[4 * w .. 4 * w + 4];
    }
  }

  /** F of section 3.4: where b has a 1 it takes the bit of c, elsewhere that of d. */
  function F(b: Word, c: Word, d: Word): (f: Word)
    ensures f & b == c & b && f & !b == d & !b
  {
    (b & c) | (!b & d)
  }

  /** G of section 3.4: where d has a 1 it takes the bit of b, elsewhere that of c. */
  function G(b: Word, c: Word, d: Word): (g: Word)
    ensures g & d == b & d && g & !d == c & !d
  {
    (d & b) | (!d & c)
  }

  /** H of section 3.4: the bitwise parity of b, c and d, so that h, b, c and d together have even parity in every bit. */
  function H(b: Word, c: Word, d: Word): (h: Word)
    ensures h ^ b ^ c ^ d == 0
  {
    b ^ c ^ d
  }

  /** I of section 3.4: where d has a 1 it is b xor c, elsewhere the complement of c. */
  function I(b: Word, c: Word, d: Word): (i: Word)
    ensures i & d == (b ^ c) & d && i & !d == !c & !d
  {
    c ^ (b | !d)
  }

  /** The auxiliary function of step j: F, G, H or I by group of sixteen steps. */
  function Mix(j: nat, b: Word, c: Word, d: Word): Word
    requires j < 64
  {
    if j < 16 then F(b, c, d)
    else if j < 32 then G(b, c, d)
    else if j < 48 then H(b, c, d)
    else I(b, c, d)
  }

  /** The message word that step j reads. */
  function MsgIndex(j: nat): (g: nat)
    requires j < 64
    ensures g < 16
  {
    if j < 16 then j
    else if j < 32 then (5 * j + 1) % 16
    else if j < 48 then (3 * j + 5) % 16
    else (7 * j) % 16
  }

  /** The step of group q (steps 16q to 16q+15) that reads word g. */
  function MsgSlot(q: nat, g: nat): (t: nat)
    requires q < 4 && g < 16
    ensures t < 16
  {
    if q == 0 then g
    else if q == 1 then (13 * g + 3) % 16
    else if q == 2 then (11 * g + 9) % 16
    else (7 * g) % 16
  }

  /** The remainder modulo 16 of a number written as a multiple of 16 plus a remainder. */
  lemma Mod16(x: int, m: int, r: int)
    requires 0 <= r < 16 && x == 16 * m + r
    ensures x % 16 == r
  {
  }

  lemma SlotOfIndexRound2(j: nat)
    requires 16 <= j < 32
    ensures MsgSlot(1, MsgIndex(j)) == j - 16
  {
    var q := (5 * j + 1) / 16;
    var g := 5 * j + 1 - 16 * q;
    assert MsgIndex(j) == g;
    Mod16(13 * g + 3, 4 * j + 2 - 13 * q, j - 16);
  }

  lemma SlotOfIndexRound3(j: nat)
    requires 32 <= j < 48
    ensures MsgSlot(2, MsgIndex(j)) == j - 32
  {
    var q := (3 * j + 5) / 16;
    var g := 3 * j + 5 - 16 * q;
    assert MsgIndex(j) == g;
    Mod16(11 * g + 9, 2 * j + 6 - 11 * q, j - 32);
  }

  lemma SlotOfIndexRound4(j: nat)
    requires 48 <= j < 64
    ensures MsgSlot(3, MsgIndex(j)) == j - 48
  {
    var q := (7 * j) / 16;
    var g := 7 * j - 16 * q;
    assert MsgIndex(j) == g;
    Mod16(7 * g, 3 * j + 3 - 7 * q, j - 48);
  }

  lemma IndexOfSlotRound2(g: nat)
    requires g < 16
    ensures MsgIndex(16 + MsgSlot(1, g)) == g
  {
    var q := (13 * g + 3) / 16;
    var j := 16 + (13 * g + 3 - 16 * q);
    assert MsgSlot(1, g) == j - 16;
    Mod16(5 * j + 1, 6 + 4 * g - 5 * q, g);
  }

  lemma IndexOfSlotRound3(g: nat)
    requires g < 16
    ensures MsgIndex(32 + MsgSlot(2, g)) == g
  {
    var q := (11 * g + 9) / 16;
    var j := 32 + (11 * g + 9 - 16 * q);
    assert MsgSlot(2, g) == j - 32;
    Mod16(3 * j + 5, 8 + 2 * g - 3 * q, g);
  }

  lemma IndexOfSlotRound4(g: nat)
    requires g < 16
    ensures MsgIndex(48 + MsgSlot(3, g)) == g
  {
    var q := (7 * g) / 16;
    var j := 48 + (7 * g - 16 * q);
    assert MsgSlot(3, g) == j - 48;
    Mod16(7 * j, 21 + 3 * g - 7 * q, g);
  }

  /**
   * Each group of sixteen steps reads every message word exactly once:
   * MsgIndex restricted to the group is a bijection onto 0..15, with
   * MsgSlot as its inverse.
   */
  lemma MsgIndexPermutes(q: nat)
    requires q < 4
    ensures forall j :: 16 * q <= j < 16 * q + 16 ==> MsgSlot(q, MsgIndex(j)) == j - 16 * q
    ensures forall g :: 0 <= g < 16 ==> MsgIndex(16 * q + MsgSlot(q, g)) == g
  {
    forall j | 16 * q <= j < 16 * q + 16 ensures MsgSlot(q, MsgIndex(j)) == j - 16 * q {
      if q == 1 {
        SlotOfIndexRound2(j);
      } else if q == 2 {
        SlotOfIndexRound3(j);
      } else if q == 3 {
        SlotOfIndexRound4(j);
      }
    }
    forall g | 0 <= g < 16 ensures MsgIndex(16 * q + MsgSlot(q, g)) == g {
      if q == 1 {
        IndexOfSlotRound2(g);
      } else if q == 2 {
        IndexOfSlotRound3(g);
      } else if q == 3 {
        IndexOfSlotRound4(g);
      }
    }
  }

  /** Addition modulo 2^32. */
  function Add(x: Word, y: Word): Word
  {
    x + y
  }

  /**
   * x <<< s, left rotation by s bits. Written as one case per amount so that
   * every rotation the solver sees is by a constant.
   */
  function Rotl(x: Word, s: ShiftAmount): Word
  {
    if s == 4 then x.RotateLeft(4)
    else if s == 5 then x.RotateLeft(5)
    else if s == 6 then x.RotateLeft(6)
    else if s == 7 then x.RotateLeft(7)
    else if s == 8 then x.RotateLeft(8)
    else if s == 9 then x.RotateLeft(9)
    else if s == 10 then x.RotateLeft(10)
    else if s == 11 then x.RotateLeft(11)
    else if s == 12 then x.RotateLeft(12)
    else if s == 13 then x.RotateLeft(13)
    else if s == 14 then x.RotateLeft(14)
    else if s == 15 then x.RotateLeft(15)
    else if s == 16 then x.RotateLeft(16)
    else if s == 17 then x.RotateLeft(17)
    else if s == 18 then x.RotateLeft(18)
    else if s == 19 then x.RotateLeft(19)
    else if s == 20 then x.RotateLeft(20)
    else if s == 21 then x.RotateLeft(21)
    else if s == 22 then x.RotateLeft(22)
    else x.RotateLeft(23)
  }

  /** One step of the compression function: a := b + ((a + Mix(b,c,d) + X[g] + T[j]) <<< s), then the registers rotate. */
  function Step(j: nat, s: State, m: seq<Word>): State
    requires j < 64 && |m| == 16
  {
    var f := Add(Mix(j, s.b, s.c, s.d), Add(Add(s.a, K[j]), m[MsgIndex(j)]));
    State(s.d, Add(s.b, Rotl(f, R[j])), s.b, s.c)
  }

  /** The first n steps. */
  function Rounds(n: nat, s: State, m: seq<Word>): State
    requires n <= 64 && |m| == 16
  {
    if n == 0 then s else Step(n - 1, Rounds(n - 1, s, m), m)
  }

  /**
   * The registers are a window over the successive values of b: after n
   * steps, c, d and a hold the b of one, two and three steps before.
   */
  lemma RoundsWindow(n: nat, s: State, m: seq<Word>)
    requires 3 <= n <= 64 && |m| == 16
    ensures Rounds(n, s, m).c == Rounds(n - 1, s, m).b
    ensures Rounds(n, s, m).d == Rounds(n - 2, s, m).b
    ensures Rounds(n, s, m).a == Rounds(n - 3, s, m).b
  {
  }

  /** The accumulators after a block: each register plus its value after the rounds, modulo 2^32. */
  function Accumulate(s: State, t: State): State
  {
    State(Add(s.a, t.a), Add(s.b, t.b), Add(s.c, t.c), Add(s.d, t.d))
  }

  /** A 512-bit block of the padded stream. */
  type Block = b: seq<Byte> | |b| == 64 witness Zeros(64)

  /** One block: the 64 steps, then the result added back into the accumulators. */
  function Compress(s: State, block: Block): State
  {
    Accumulate(s, Rounds(64, s, Words(block)))
  }

  /** A stream cut into consecutive blocks. */
  function Blocks(stream: seq<Byte>): (blocks: seq<Block>)
    requires |stream| % 64 == 0
    ensures |blocks| == |stream| / 64
  {
    if stream == [] then [] else [stream[..64]] + Blocks(stream[64..])
  }

  /** Block i of a stream is bytes 64i to 64i+63. */
  lemma {:induction false} BlockAt(stream: seq<Byte>, i: nat)
    requires |stream| % 64 == 0 && i < |stream| / 64
    ensures Blocks(stream)[i] == stream[64 * i .. 64 * i + 64]
  {
    if i > 0 {
      BlockAt(stream[64..], i - 1);
      assert stream[64..][64 * (i - 1) .. 64 * i] == stream[64 * i .. 64 * i + 64];
    }
  }

  /** The accumulators after absorbing the blocks in order, starting from s. */
  function Chain(s: State, blocks: seq<Block>): State
    decreases |blocks|
  {
    if blocks == [] then s else Chain(Compress(s, blocks[0]), blocks[1..])
  }

  /** Absorbing the blocks from k on is compressing block k and then absorbing the rest. */
  lemma ChainStep(s: State, blocks: seq<Block>, k: nat)
    requires k < |blocks|
    ensures Chain(s, blocks[k..]) == Chain(Compress(s, blocks[k]), blocks[k + 1..])
  {
    assert blocks[k..][0] == blocks[k] && blocks[k..][1..] == blocks[k + 1..];
  }

  /** Absorbing b1 + b2 is absorbing b1 and then b2 from where b1 left the accumulators. */
  lemma {:induction false} ChainAppend(s: State, b1: seq<Block>, b2: seq<Block>)
    ensures Chain(s, b1 + b2) == Chain(Chain(s, b1), b2)
    decreases |b1|
  {
    if b1 == [] {
      assert b1 + b2 == b2;
    } else {
      assert (b1 + b2)[0] == b1[0];
      assert (b1 + b2)[1..] == b1[1..] + b2;
      ChainAppend(Compress(s, b1[0]), b1[1..], b2);
    }
  }

  /** The final accumulators for a message: every block of its padded stream absorbed from Init. */
  function Digest(msg: seq<Byte>): State
  {
    Chain(Init, Blocks(Pad(msg)))
  }

  /**
   * The blocks of the padded stream that lie wholly inside the data are the
   * data's own bytes, and the digest absorbs them first and then the rest:
   * the result does not depend on how the stream is split.
   */
  lemma DigestStreams(msg: seq<Byte>, k: nat)
    requires 64 * k <= |msg|
    ensures k < |Blocks(Pad(msg))|
    ensures forall i :: 0 <= i < k ==> Blocks(Pad(msg))[i] == msg[64 * i .. 64 * i + 64]
    ensures Digest(msg) == Chain(Chain(Init, Blocks(Pad(msg))[..k]), Blocks(Pad(msg))[k..])
  {
    var blocks := Blocks(Pad(msg));
    forall i | 0 <= i < k ensures blocks[i] == msg[64 * i .. 64 * i + 64] {
      BlockAt(Pad(msg), i);
      PadPrefix(msg, 64 * i + 64);
    }
    assert blocks == blocks[..k] + blocks[k..];
    ChainAppend(Init, blocks[..k], blocks[k..]);
  }

  /** The message digest of section 3.5: A, B, C, D, each least significant byte first. */
  function DigestBytes(s: State): (bs: seq<Byte>)
    ensures |bs| == 16
  {
    Le32Bytes(s.a) + Le32Bytes(s.b) + Le32Bytes(s.c) + Le32Bytes(s.d)
  }
}

/**
 * The cursor arithmetic of md5's pre-processing loop: how the position `i`
 * in the 64-byte chunk and the position `index` in the (virtual) padded
 * stream move, pass after pass, for the loop as written and for the loop
 * whose zero fill is clamped to the room left in the chunk. The bytes the
 * loop writes are modelled in md5.dfy; this module only counts.
 */
module Md5Chunking {
  import opened Rfc1321

  /** The `min` macro. */
  function Min(a: int, b: int): int
  {
    if a < b then a else b
  }

  /** The `max` macro. */
  function Max(a: int, b: int): int
  {
    if a > b then a else b
  }

  /** The loop's two counters: `i` in the chunk and `input_index` in the padded stream. */
  datatype Cursor = Cursor(i: int, index: int)

  /**
   * How many bytes one iteration of the pre-processing loop writes, by the
   * four branches: copy data, write 0x80, write a byte of the 32-bit length,
   * fill zeros. `clamped` selects the corrected zero fill, bounded by the
   * room left in the chunk; as written the bound is the whole chunk size.
   */
  function StepSize(len: nat, p: nat, c: Cursor, clamped: bool): (size: int)
    ensures size >= 1
  {
    if c.index < len then Max(Min(64, len - c.index), 1)
    else if c.index == len then 1
    else if p <= c.index < p + 4 then 1
    else Max(Min(if clamped then 64 - c.i else 64, p - c.index), 1)
  }

  /** One iteration of the loop: both counters move by the size written. */
  function Advance(len: nat, p: nat, c: Cursor, clamped: bool): (d: Cursor)
    ensures d.i - c.i == d.index - c.index >= 1
  {
    var size := StepSize(len, p, c, clamped);
    Cursor(c.i + size, c.index + size)
  }

  /** The whole pre-processing loop: iterate until the chunk counter reaches 64. */
  function Fill(len: nat, p: nat, c: Cursor, clamped: bool): (d: Cursor)
    ensures d.i >= 64 && d.i - c.i == d.index - c.index
    decreases 64 - c.i
  {
    if c.i >= 64 then c else Fill(len, p, Advance(len, p, c, clamped), clamped)
  }

  /** The loop as written ends where it ends from the cursor after its next iteration. */
  lemma FillFollows(len: nat, p: nat, c: Cursor, d: Cursor)
    requires c.i < 64 && d == Advance(len, p, c, false)
    ensures Fill(len, p, c, false) == Fill(len, p, d, false)
  {
  }

  /**
   * How many chunks the outer loop compresses, starting at stream position
   * `index`: none once `index` has reached `p`, and otherwise at most one
   * per started 64 bytes still to go, since every pass moves `index` on by
   * at least 64.
   */
  function Passes(len: nat, p: nat, index: int, clamped: bool): (n: nat)
    ensures n == 0 <==> index >= p
    ensures index < p ==> 64 * n < p - index + 64
    decreases p - index
  {
    if index >= p then 0
    else 1 + Passes(len, p, Fill(len, p, Cursor(0, index), clamped).index, clamped)
  }

  /** The lengths for which the unclamped zero fill runs past the chunk. */
  predicate Overruns(len: nat)
  {
    56 <= len % 64 <= 62
  }

  /**
   * The loop's invariant inside one pass that starts at stream position
   * `start`: the counters move together; once the data has been copied
   * (part way into the chunk) the stream position is at or past the data;
   * and in a pass that starts past the data, once the first zero fill is
   * done (part way into the chunk) the position is at or past the padded length.
   */
  predicate InPass(len: nat, p: nat, start: int, c: Cursor)
  {
    && start >= 0 && start % 64 == 0 && start + 64 <= p + 8
    && 0 <= c.i <= 64 && c.index == start + c.i
    && (0 < c.i < 64 ==> len <= c.index)
    && (len < start && 0 < c.i < 64 ==> p <= c.index)
  }

  /** Where the zero fill of the pass holding the end of the data can end: 56 or 120 bytes past the pass's start. */
  lemma PaddedLenFromBlockStart(len: nat)
    ensures len % 64 <= 55 ==> PaddedLen(len) == len - len % 64 + 56
    ensures len % 64 >= 56 ==> PaddedLen(len) == len - len % 64 + 120
  {
    var q, r := len / 64, len % 64;
    assert len == 64 * q + r;
    if r <= 55 {
      assert (len + 8) / 64 == q;
    } else {
      assert (len + 8) / 64 == q + 1;
    }
  }

  /**
   * When the fill is clamped, or the length is not one that overruns, one
   * iteration keeps the pass invariant: in particular it never moves the
   * chunk counter past 64.
   */
  lemma AdvanceInPass(len: nat, start: int, c: Cursor, clamped: bool)
    requires clamped || !Overruns(len)
    requires InPass(len, PaddedLen(len), start, c) && c.i < 64
    ensures InPass(len, PaddedLen(len), start, Advance(len, PaddedLen(len), c, clamped))
  {
    var p := PaddedLen(len);
    if len < c.index && c.index < p && !clamped && 0 < c.i {
      PaddedLenFromBlockStart(len);
      assert start == len - len % 64 by {
        assert start <= len < start + 64;
        var q := len / 64;
        assert len == 64 * q + len % 64;
        assert start / 64 == q;
      }
    }
  }

  /**
   * For a length that does not overrun, the zero fill as written and the
   * clamped one write the same number of bytes at every point of a pass:
   * the loop as written is the corrected loop for those lengths.
   */
  lemma ClampAgrees(len: nat, start: int, c: Cursor)
    requires !Overruns(len)
    requires InPass(len, PaddedLen(len), start, c) && c.i < 64
    ensures Advance(len, PaddedLen(len), c, false) == Advance(len, PaddedLen(len), c, true)
  {
    var p := PaddedLen(len);
    if len < c.index && c.index < p && 0 < c.i {
      PaddedLenFromBlockStart(len);
      assert start == len - len % 64 by {
        assert start <= len < start + 64;
        var q := len / 64;
        assert len == 64 * q + len % 64;
        assert start / 64 == q;
      }
    }
  }

  /** Under the same condition every pass fills exactly one 64-byte chunk and ends 64 bytes further on. */
  lemma {:induction false} FillCompletes(len: nat, start: int, c: Cursor, clamped: bool)
    requires clamped || !Overruns(len)
    requires InPass(len, PaddedLen(len), start, c)
    ensures Fill(len, PaddedLen(len), c, clamped) == Cursor(64, start + 64)
    decreases 64 - c.i
  {
    if c.i < 64 {
      AdvanceInPass(len, start, c, clamped);
      FillCompletes(len, start, Advance(len, PaddedLen(len), c, clamped), clamped);
    }
  }

  /** Passes left from a block boundary: one per remaining block of the padded stream. */
  lemma {:induction false} PassesFrom(len: nat, start: int, clamped: bool)
    requires clamped || !Overruns(len)
    requires start >= 0 && start % 64 == 0 && start <= PaddedLen(len) + 8
    ensures Passes(len, PaddedLen(len), start, clamped) == (PaddedLen(len) + 8 - start) / 64
    decreases PaddedLen(len) + 8 - start
  {
    var p := PaddedLen(len);
    if start < p {
      FillCompletes(len, start, Cursor(0, start), clamped);
      PassesFrom(len, start + 64, clamped);
    } else {
      assert start == p + 8 by {
        var m := (p + 8) / 64;
        assert p + 8 == 64 * m;
        assert start / 64 >= m;
      }
    }
  }

  /**
   * With the clamped fill, and as written for every length that does not
   * overrun, the outer loop compresses exactly the blocks of the padded
   * stream: |Pad(msg)| / 64 of them.
   */
  lemma PassesCoverPadding(msg: seq<Byte>, clamped: bool)
    requires clamped || !Overruns(|msg|)
    ensures Passes(|msg|, PaddedLen(|msg|), 0, clamped) == |Pad(msg)| / 64
  {
    PassesFrom(|msg|, 0, clamped);
  }

  /**
   * As written, for a length with 56..62 bytes in its last block the pass
   * holding the end of the data writes 0x80 and then zeros up to chunk
   * position 120, 56 bytes past the end of the 64-byte chunk, and leaves the
   * stream counter at the padded length, where the outer loop stops.
   */
  lemma OverrunAsWritten(len: nat)
    requires Overruns(len)
    ensures var start := len - len % 64;
      Fill(len, PaddedLen(len), Cursor(0, start), false) == Cursor(120, PaddedLen(len))
  {
    PaddedLenFromBlockStart(len);
    var p, start := PaddedLen(len), len - len % 64;
    var c0 := Cursor(0, start);
    var c1 := Advance(len, p, c0, false);
    assert c1 == Cursor(len % 64, len);
    var c2 := Advance(len, p, c1, false);
    assert c2 == Cursor(len % 64 + 1, len + 1);
    var c3 := Advance(len, p, c2, false);
    assert c3 == Cursor(120, p);
    assert Fill(len, p, c3, false) == c3;
    assert Fill(len, p, c2, false) == c3;
    assert Fill(len, p, c1, false) == c3;
    assert Fill(len, p, c0, false) == c3;
  }

  /** As written, passes over whole data blocks: one per block left before the overrunning pass, plus that pass. */
  lemma {:induction false} PassesBeforeOverrun(len: nat, start: int)
    requires Overruns(len)
    requires start >= 0 && start % 64 == 0 && start <= len - len % 64
    ensures Passes(len, PaddedLen(len), start, false) == (len - len % 64 - start) / 64 + 1
    decreases len - start
  {
    PaddedLenFromBlockStart(len);
    var p := PaddedLen(len);
    if start < len - len % 64 {
      var c := Cursor(0, start);
      assert Advance(len, p, c, false) == Cursor(64, start + 64);
      assert Fill(len, p, c, false) == Cursor(64, start + 64);
      PassesBeforeOverrun(len, start + 64);
      assert Passes(len, p, start, false) == 1 + Passes(len, p, start + 64, false);
      assert len - len % 64 - start == (len - len % 64 - (start + 64)) + 64;
    } else {
      OverrunAsWritten(len);
      assert Passes(len, p, p, false) == 0;
    }
  }

  /**
   * As written, a message whose last block holds 56..62 bytes is compressed
   * in one chunk fewer than its padded stream has: the block carrying the
   * length field is never compressed.
   */
  lemma DropsLengthBlock(msg: seq<Byte>)
    requires Overruns(|msg|)
    ensures Passes(|msg|, PaddedLen(|msg|), 0, false) == |msg| / 64 + 1
    ensures |Pad(msg)| / 64 == |msg| / 64 + 2
  {
    PaddedLenFromBlockStart(|msg|);
    PassesBeforeOverrun(|msg|, 0);
    assert |msg| - |msg| % 64 == 64 * (|msg| / 64);
  }
}

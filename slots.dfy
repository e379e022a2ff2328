/**
 * Byte-level writes into one fixed-width slot of the destination buffer:
 * the copy-with-fit rule, the hand-made timestamp and regex layouts, and the
 * `memcpy`/`memset` steps the decoder performs them with.
 */
module Slots {

  import opened Bson

  function Zeros(n: nat): (z: seq<Byte>)
    ensures |z| == n && forall k :: 0 <= k < n ==> z[k] == 0
  {
    seq(n, _ => 0)
  }

  /** `buf` with `bytes` stored from offset `at` on. */
  function WriteAt(buf: seq<Byte>, at: nat, bytes: seq<Byte>): (r: seq<Byte>)
    requires at + |bytes| <= |buf|
    ensures |r| == |buf|
    ensures forall j {:trigger r[j]} :: at <= j < at + |bytes| ==> r[j] == bytes[j - at]
    ensures forall j {:trigger r[j]} :: 0 <= j < |buf| && !(at <= j < at + |bytes|) ==> r[j] == buf[j]
  {
    buf[..at] + bytes + buf[at + |bytes|..]
  }

  /**
   * Copy-with-fit: the `itemsize` bytes a value of `src.len` bytes leaves in a slot of
   * `itemsize` bytes. At most `itemsize` source bytes are copied (a longer value is
   * truncated) and the rest of the slot is zero-filled (a shorter value is padded).
   */
  function FitToSlot(src: seq<Byte>, itemsize: nat): (r: seq<Byte>)
    ensures |r| == itemsize
    ensures forall k :: 0 <= k < itemsize && k < |src| ==> r[k] == src[k]
    ensures forall k :: |src| <= k < itemsize ==> r[k] == 0
  {
    var len := if |src| > itemsize then itemsize else |src|;
    src[..len] + Zeros(itemsize - len)
  }

  /** A 32-bit word in little-endian byte order, the host byte order this model fixes. */
  function Word32(w: bv32): (r: seq<Byte>)
    ensures |r| == 4
  {
    [(w & 0xFF) as Byte, ((w >> 8) & 0xFF) as Byte, ((w >> 16) & 0xFF) as Byte, ((w >> 24) & 0xFF) as Byte]
  }

  /** Reads back a 32-bit word stored by Word32. */
  function ReadWord32(b: seq<Byte>): bv32
    requires |b| == 4
  {
    (b[0] as bv32) | ((b[1] as bv32) << 8) | ((b[2] as bv32) << 16) | ((b[3] as bv32) << 24)
  }

  lemma Word32RoundTrip(w: bv32)
    ensures ReadWord32(Word32(w)) == w
  {
  }

  /** The slot prefix a BSON timestamp is laid out as: the timestamp word, then the increment word. */
  function TimestampBytes(timestamp: bv32, increment: bv32): (r: seq<Byte>)
    ensures |r| == 8
  {
    Word32(timestamp) + Word32(increment)
  }

  /** The slot prefix a BSON regex is laid out as: the pattern, one NUL byte, the options. */
  function RegexBytes(pattern: seq<Byte>, options: seq<Byte>): (r: seq<Byte>)
    ensures |r| == |pattern| + 1 + |options|
    ensures r[..|pattern|] == pattern && r[|pattern|] == 0 && r[|pattern| + 1..] == options
  {
    pattern + [0] + options
  }

  /** Two adjacent writes are one write of the concatenated bytes. */
  lemma WriteAtConcat(buf: seq<Byte>, at: nat, a: seq<Byte>, b: seq<Byte>)
    requires at + |a| + |b| <= |buf|
    ensures WriteAt(WriteAt(buf, at, a), at + |a|, b) == WriteAt(buf, at, a + b)
  {
    var lhs, rhs := WriteAt(WriteAt(buf, at, a), at + |a|, b), WriteAt(buf, at, a + b);
    forall j | 0 <= j < |buf| ensures lhs[j] == rhs[j] {
      if at <= j < at + |a| {
        assert rhs[at + (j - at)] == (a + b)[j - at];
      } else if at + |a| <= j < at + |a| + |b| {
        assert lhs[at + |a| + (j - at - |a|)] == b[j - at - |a|];
        assert rhs[at + (j - at)] == (a + b)[j - at];
      }
    }
  }

  /** Writing a whole buffer's worth of bytes at offset 0 replaces it. */
  lemma WriteAtWhole(buf: seq<Byte>, bytes: seq<Byte>)
    requires |bytes| == |buf|
    ensures WriteAt(buf, 0, bytes) == bytes
  {
    assert buf[..0] == [] && buf[|bytes|..] == [];
  }

  /** Storing a slot's own bytes back leaves the buffer as it was. */
  lemma WriteAtOwnSlot(buf: seq<Byte>, at: nat, width: nat)
    requires at + width <= |buf|
    ensures WriteAt(buf, at, buf[at..at + width]) == buf
  {
  }

  /** Writing into a slot that is then stored back at its offset is a write at the slot's offset. */
  lemma WriteAtSlot(buf: seq<Byte>, at: nat, width: nat, bytes: seq<Byte>)
    requires at + width <= |buf| && |bytes| <= width
    ensures WriteAt(buf, at, WriteAt(buf[at..at + width], 0, bytes)) == WriteAt(buf, at, bytes)
  {
    var slot := WriteAt(buf[at..at + width], 0, bytes);
    var lhs, rhs := WriteAt(buf, at, slot), WriteAt(buf, at, bytes);
    forall j | 0 <= j < |buf| ensures lhs[j] == rhs[j] {
      if at <= j < at + width {
        assert lhs[at + (j - at)] == slot[j - at];
        if j - at < |bytes| {
          assert slot[0 + (j - at)] == bytes[j - at];
        } else {
          assert slot[j - at] == buf[at..at + width][j - at];
        }
      }
    }
  }

  /** The three writes of the regex case store the regex bytes. */
  lemma RegexWrites(buf: seq<Byte>, at: nat, pattern: seq<Byte>, options: seq<Byte>)
    requires at + |pattern| + 1 + |options| <= |buf|
    ensures WriteAt(WriteAt(WriteAt(buf, at, pattern), at + |pattern|, Zeros(1)), at + |pattern| + 1, options)
            == WriteAt(buf, at, RegexBytes(pattern, options))
  {
    WriteAtConcat(buf, at, pattern, Zeros(1));
    WriteAtConcat(buf, at, pattern + Zeros(1), options);
    assert pattern + Zeros(1) + options == RegexBytes(pattern, options);
  }

  /** The two writes of the timestamp case store the timestamp bytes. */
  lemma TimestampWrites(buf: seq<Byte>, at: nat, timestamp: bv32, increment: bv32)
    requires at + 8 <= |buf|
    ensures WriteAt(WriteAt(buf, at, Word32(timestamp)), at + 4, Word32(increment))
            == WriteAt(buf, at, TimestampBytes(timestamp, increment))
  {
    WriteAtConcat(buf, at, Word32(timestamp), Word32(increment));
  }

  /** The copy and the zero fill of the copy-with-fit path store the fitted slot. */
  lemma FitWrites(buf: seq<Byte>, at: nat, width: nat, src: seq<Byte>, len: nat)
    requires len == if |src| > width then width else |src|
    requires at + width <= |buf|
    ensures WriteAt(WriteAt(buf, at, src[..len]), at + len, Zeros(width - len)) == WriteAt(buf, at, FitToSlot(src, width))
  {
    WriteAtConcat(buf, at, src[..len], Zeros(width - len));
  }

  /** `memcpy(dst + at, src, |src|)`. */
  method Memcpy(dst: array<Byte>, at: nat, src: seq<Byte>)
    requires at + |src| <= dst.Length
    modifies dst
    ensures dst[..] == WriteAt(old(dst[..]), at, src)
  {
    forall k | 0 <= k < |src| {
      dst[at + k] := src[k];
    }
    assert dst[..] == WriteAt(old(dst[..]), at, src);
  }

  /** `memset(dst + at, '\0', n)`. */
  method Memset(dst: array<Byte>, at: nat, n: nat)
    requires at + n <= dst.Length
    modifies dst
    ensures dst[..] == WriteAt(old(dst[..]), at, Zeros(n))
  {
    forall j | at <= j < at + n {
      dst[j] := 0;
    }
    assert dst[..] == WriteAt(old(dst[..]), at, Zeros(n));
  }
}

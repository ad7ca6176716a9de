/** The few pieces of Python's semantics the frame decoder relies on: the
    `bytes` element type, the exceptions it can raise, slicing with clamped and
    negative bounds, indexing with negative wrap-around, and
    `struct.unpack("<H", ...)`. */
module Python {

  /** An element of a Python `bytes` object: an int in [0, 256). */
  type byte = x: int | 0 <= x < 256

  datatype Option<+T> = None | Some(value: T)

  /** The exceptions the decoding path can raise. */
  datatype Error =
    | StructError   // struct.unpack on a slice of the wrong size
    | IndexError    // an index outside the sequence, or a missing list item
    | ValueError    // bytes.fromhex on a string that is not hex

  datatype Result<+T> = Ok(value: T) | Err(error: Error)

  /** Where a slice bound `i` lands in a sequence of length `n`: a negative
      bound counts from the end, and the result is clamped to [0, n]. */
  function SliceBound(i: int, n: nat): (r: nat)
    ensures r <= n
  {
    if i < 0 then (if i + n < 0 then 0 else i + n)
    else if i > n then n
    else i
  }

  /** `s[start:stop]`: never fails; an empty range gives an empty slice. */
  function Slice<T>(s: seq<T>, start: int, stop: int): (r: seq<T>)
    ensures var lo, hi := SliceBound(start, |s|), SliceBound(stop, |s|);
      |r| == (if lo < hi then hi - lo else 0) &&
      forall k :: 0 <= k < |r| ==> r[k] == s[lo + k]
  {
    var lo, hi := SliceBound(start, |s|), SliceBound(stop, |s|);
    if lo < hi then s[lo..hi] else []
  }

  /** `s[i]`: a negative index counts from the end; anything outside
      [-len(s), len(s)) raises IndexError. */
  function Index<T>(s: seq<T>, i: int): (r: Option<T>)
    ensures r.Some? <==> -|s| <= i < |s|
    ensures 0 <= i < |s| ==> r == Some(s[i])
    ensures -|s| <= i < 0 ==> r == Some(s[|s| + i])
  {
    if 0 <= i < |s| then Some(s[i])
    else if -|s| <= i < 0 then Some(s[|s| + i])
    else None
  }

  /** `struct.unpack("<H", s)[0]`: an unsigned little-endian 16-bit integer;
      struct.error unless the buffer holds exactly two bytes. */
  function UnpackU16LE(s: seq<byte>): (r: Option<nat>)
    ensures r.Some? <==> |s| == 2
    ensures r.Some? ==> r.value < 0x1_0000 && r.value % 256 == s[0] && r.value / 256 == s[1]
  {
    if |s| == 2 then Some(s[0] as nat + 256 * (s[1] as nat)) else None
  }
}

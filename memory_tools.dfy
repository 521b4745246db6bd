/**
 * Two routines of the demo's pixel-buffer toolkit that work in place on a
 * block of memory: `FadeMul`, which darkens the colour channels of a run of
 * 32-bit pixels by subtracting a fixed amount from every non-zero channel
 * byte, and the doubling fill behind `MemorySet32Dyn`, which writes one
 * 32-bit value into the first slot and then copies the filled prefix onto
 * the following slots, twice as much each time.
 */
module MemoryTools {
  import opened Common

  /** A C# `byte`. */
  newtype byte = x: int | 0 <= x < 256

  /** The low byte of an `int`, as the unchecked `(byte)` cast keeps it. */
  function LowByte(x: int32): (b: byte)
    ensures b as int == (x as int) % 256
  {
    ((x as int) % 256) as byte
  }

  /**
   * A channel byte after one fade step, `c -= d` on a C# `byte`: 0 stays 0,
   * anything else drops by `d` and wraps around below 0.
   */
  function FadeByte(c: byte, d: byte): byte
  {
    if c > 0 then ((c as int - d as int) % 256) as byte else c
  }

  /**
   * The buffer `s` once the first `count` pixels of four bytes have been
   * faded by `d`: bytes 0 to 2 of each of those pixels fade, byte 3 and
   * every byte past them stay as they are.
   */
  function Faded(s: seq<byte>, count: int, d: byte): (r: seq<byte>)
    ensures |r| == |s|
    ensures forall i :: 0 <= i < |s| && (i % 4 == 3 || 4 * count <= i) ==> r[i] == s[i]
    ensures forall i :: 0 <= i < |s| && s[i] == 0 ==> r[i] == 0
    ensures forall i :: 0 <= i < |s| && i < 4 * count && i % 4 != 3 && s[i] != 0 ==>
      r[i] as int == (s[i] as int - d as int) % 256
  {
    seq(|s|, i requires 0 <= i < |s| => if i < 4 * count && i % 4 != 3 then FadeByte(s[i], d) else s[i])
  }

  /** A non-positive count leaves the buffer as it is. */
  lemma FadeNothing(s: seq<byte>, count: int, d: byte)
    requires count <= 0
    ensures Faded(s, count, d) == s
  {
    assert forall i :: 0 <= i < |s| ==> Faded(s, count, d)[i] == s[i];
  }

  /** A fade by 0 leaves the buffer as it is. */
  lemma FadeByZero(s: seq<byte>, count: int)
    ensures Faded(s, count, 0) == s
  {
    assert forall i :: 0 <= i < |s| ==> Faded(s, count, 0)[i] == s[i];
  }

  /** The fade wraps rather than saturating: a channel at 2 faded by 4 ends at 254. */
  lemma FadeWraps()
    ensures FadeByte(2, LowByte(4)) == 254
  {
  }

  /**
   * `FadeMul(target, nCount, nFadeDelta)`: the first `nCount` pixels of
   * `buffer` have their three colour bytes faded by the low byte of
   * `delta`; nothing else changes. The buffer must hold those pixels.
   */
  method FadeMul(buffer: array<byte>, count: int32, delta: int32)
    requires count <= 0 || 4 * count as int <= buffer.Length
    modifies buffer
    ensures buffer[..] == Faded(old(buffer[..]), count as int, LowByte(delta))
  {
    ghost var before := buffer[..];
    var d := LowByte(delta);
    var end := if count <= 0 then 0 else 4 * count as int;
    var p := 0;
    while p < end
      invariant 0 <= p <= end + 3 && p % 4 == 0
      invariant forall i :: 0 <= i < buffer.Length ==>
        buffer[i] == if i < p && i < end && i % 4 != 3 then FadeByte(before[i], d) else before[i]
    {
      buffer[p] := FadeByte(buffer[p], d);
      buffer[p + 1] := FadeByte(buffer[p + 1], d);
      buffer[p + 2] := FadeByte(buffer[p + 2], d);
      p := p + 4;
    }
    assert forall i :: 0 <= i < buffer.Length ==> buffer[i] == Faded(before, count as int, d)[i];
  }

  /** Powers of two: 1, 2, 4, and so on. */
  ghost predicate PowerOfTwo(n: int)
    decreases n
  {
    n == 1 || (n > 1 && n % 2 == 0 && PowerOfTwo(n / 2))
  }

  /**
   * The block copy `cpblk` of `length` slots from `src` to `dst`, one slot
   * at a time from the front: a destination slot receives the source slot's
   * original value when that slot lies before `dst`, and otherwise the value
   * the copy itself wrote there earlier.
   */
  method CopyForward(a: array<int32>, src: int, dst: int, length: int)
    requires 0 <= src < dst && 0 <= length && dst + length <= a.Length
    modifies a
    ensures forall i :: dst <= i < dst + length && i < 2 * dst - src ==> a[i] == old(a[i - (dst - src)])
    ensures forall i :: 2 * dst - src <= i < dst + length ==> a[i] == a[i - (dst - src)]
    ensures forall i :: 0 <= i < a.Length && !(dst <= i < dst + length) ==> a[i] == old(a[i])
  {
    var k := 0;
    while k < length
      invariant 0 <= k <= length
      invariant forall i :: dst <= i < dst + k && i < 2 * dst - src ==> a[i] == old(a[i - (dst - src)])
      invariant forall i :: 2 * dst - src <= i < dst + k ==> a[i] == a[i - (dst - src)]
      invariant forall i :: 0 <= i < a.Length && !(dst <= i < dst + k) ==> a[i] == old(a[i])
    {
      ghost var prev := a[..];
      a[dst + k] := a[src + k];
      assert forall i :: 0 <= i < a.Length && i != dst + k ==> a[i] == prev[i];
      k := k + 1;
    }
  }

  /**
   * `MemorySet32Dyn(dst, value, nCount)`: slot 0 receives `value`; while the
   * filled prefix is shorter than half of `count` it is copied onto the slots
   * right after it, doubling it; a last copy fills the rest. Every one of
   * the first `count` slots then holds `value`, and no other slot changes.
   */
  method MemorySet32(a: array<int32>, value: int32, count: int32)
    requires 1 <= count as int <= a.Length
    modifies a
    ensures forall i :: 0 <= i < count as int ==> a[i] == value
    ensures forall i :: count as int <= i < a.Length ==> a[i] == old(a[i])
  {
    var half := count / 2;
    var length := 1;
    a[0] := value;
    while length < half as int
      invariant 1 <= length <= count as int && PowerOfTwo(length)
      invariant forall i :: 0 <= i < length ==> a[i] == value
      invariant forall i :: count as int <= i < a.Length ==> a[i] == old(a[i])
    {
      CopyForward(a, 0, length, length);
      length := 2 * length;
    }
    // The last copy overlaps its source by at most one slot.
    assert 0 <= count as int - length <= length + 1;
    CopyForward(a, 0, length, count as int - length);
    if count as int == 2 * length + 1 {
      // the one overlapping slot was filled by this same copy before it was read
      assert a[2 * length] == a[length] == value;
    }
  }
}

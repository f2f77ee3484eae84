/** The start-code scanner of libobs/obs-nal.c: a byte-at-a-time search up to the first
    word boundary, a word-at-a-time search behind a zero-byte test, and a byte-at-a-time
    tail. The buffer is a byte sequence whose first byte lives at address `base`. */
module NalScan {

  type byte = bv8

  /** The three bytes of a start code stand at position i. */
  predicate CodeAt(s: seq<byte>, i: nat)
    requires i + 3 <= |s|
  {
    s[i] == 0 && s[i + 1] == 0 && s[i + 2] == 1
  }

  /** The plain search: the first start code that has a byte after it, else the length. */
  function FirstCode(s: seq<byte>): (r: nat)
    ensures r <= |s|
  {
    if |s| <= 3 then |s| else if CodeAt(s, 0) then 0 else 1 + FirstCode(s[1..])
  }

  /** A position is the answer of the plain search exactly when it is the least match that
      leaves a byte behind it, or the length when there is no such match. */
  lemma {:induction false} FirstCodeIsLeast(s: seq<byte>, r: nat)
    requires r <= |s|
    ensures r == FirstCode(s) <==>
            && (forall i: nat :: i < r && i + 3 < |s| ==> !CodeAt(s, i))
            && (r < |s| ==> r + 3 < |s| && CodeAt(s, r))
  {
    if |s| > 3 {
      assert forall i: nat :: i + 4 <= |s| - 1 ==> CodeAt(s[1..], i) == CodeAt(s, i + 1);
      if CodeAt(s, 0) {
        if r > 0 { assert CodeAt(s, 0); }
      } else if r > 0 {
        FirstCodeIsLeast(s[1..], r - 1);
        if r == FirstCode(s) {
          forall i: nat | i < r && i + 3 < |s| ensures !CodeAt(s, i) {
            if i > 0 { assert !CodeAt(s[1..], i - 1); }
          }
        }
        if forall i: nat :: i < r && i + 3 < |s| ==> !CodeAt(s, i) {
          forall i: nat | i < r - 1 && i + 3 < |s[1..]| ensures !CodeAt(s[1..], i) {
            assert !CodeAt(s, i + 1);
          }
        }
      }
    }
  }

  /** No code starts in [from, to), for a scan that ends at limit. */
  ghost predicate NoneIn(d: seq<byte>, from: nat, to: nat, limit: nat)
    requires limit <= |d|
  {
    forall i: nat :: from <= i < to && i + 3 < limit ==> !CodeAt(d, i)
  }

  ghost predicate IsFirst(d: seq<byte>, from: nat, limit: nat, r: nat)
    requires limit <= |d|
  {
    from <= r <= limit && NoneIn(d, from, r, limit) && (r < limit ==> r + 3 < limit && CodeAt(d, r))
  }

  /** FirstCodeIsLeast, for a cursor and an end inside a larger buffer. */
  lemma FirstCodeInWindow(d: seq<byte>, p: nat, end: nat, r: nat)
    requires p <= end <= |d| && IsFirst(d, p, end, r)
    ensures r == p + FirstCode(d[p..end])
  {
    var s := d[p..end];
    forall i: nat | i < r - p && i + 3 < |s| ensures !CodeAt(s, i) {
      assert !CodeAt(d, p + i);
    }
    FirstCodeIsLeast(s, r - p);
  }

  /** The 32-bit load, on a little-endian machine. */
  function Word(b0: byte, b1: byte, b2: byte, b3: byte): bv32 {
    (b0 as bv32) | ((b1 as bv32) << 8) | ((b2 as bv32) << 16) | ((b3 as bv32) << 24)
  }

  predicate MayHoldZero(x: bv32) {
    (x - 0x01010101) & !x & 0x80808080 != 0
  }

  /** The bit trick is exact: it fires just when one of the four bytes is zero. */
  lemma MayHoldZeroIsExact(b0: byte, b1: byte, b2: byte, b3: byte)
    ensures MayHoldZero(Word(b0, b1, b2, b3)) <==> b0 == 0 || b1 == 0 || b2 == 0 || b3 == 0
  {
    var x := Word(b0, b1, b2, b3);
    assert x & 0xff == b0 as bv32;
  }

  /** The test of one aligned word. */
  method WordMayHoldZero(d: seq<byte>, base: nat, p: nat) returns (b: bool)
    requires p + 4 <= |d| && (base + p) % 4 == 0
    ensures b <==> d[p] == 0 || d[p + 1] == 0 || d[p + 2] == 0 || d[p + 3] == 0
  {
    MayHoldZeroIsExact(d[p], d[p + 1], d[p + 2], d[p + 3]);
    b := MayHoldZero(Word(d[p], d[p + 1], d[p + 2], d[p + 3]));
  }

  /** The three loops; every index is shown to stay before `end`, and every word load to
      be aligned. */
  method FindStartcodeInternal(d: seq<byte>, base: nat, start: nat, limit: nat) returns (r: nat)
    requires start <= limit <= |d|
    ensures IsFirst(d, start, limit, r)
  {
    var p := start;
    var a := p + 4 - (base + p) % 4;
    var end: int := limit - 3;
    while p < a && p < end
      invariant start <= p <= limit && p <= a
      invariant NoneIn(d, start, p, limit)
    {
      if d[p] == 0 && d[p + 1] == 0 && d[p + 2] == 1 {
        return p;
      }
      p := p + 1;
    }
    end := end - 3;
    while p < end
      invariant start <= p <= limit
      invariant p < end ==> (base + p) % 4 == 0
      invariant NoneIn(d, start, p, limit)
      decreases end - p
    {
      var x := WordMayHoldZero(d, base, p);
      if x {
        if d[p + 1] == 0 {
          if d[p] == 0 && d[p + 2] == 1 {
            return p;
          }
          if d[p + 2] == 0 && d[p + 3] == 1 {
            return p + 1;
          }
        }
        if d[p + 3] == 0 {
          if d[p + 2] == 0 && d[p + 4] == 1 {
            return p + 2;
          }
          if d[p + 4] == 0 && d[p + 5] == 1 {
            return p + 3;
          }
        }
      }
      p := p + 4;
    }
    end := end + 3;
    while p < end
      invariant start <= p <= limit
      invariant NoneIn(d, start, p, limit)
      decreases end - p
    {
      if d[p] == 0 && d[p + 1] == 0 && d[p + 2] == 1 {
        return p;
      }
      p := p + 1;
    }
    r := end + 3;
  }

  /** The plain search, moved back over one zero byte that precedes the match. */
  function FindCode(s: seq<byte>): (r: nat)
    ensures r <= |s|
  {
    var k := FirstCode(s);
    if 0 < k < |s| && s[k - 1] == 0 then k - 1 else k
  }

  method FindStartcode(d: seq<byte>, base: nat, p: nat, end: nat) returns (out: nat)
    requires p <= end <= |d|
    ensures out == p + FindCode(d[p..end])
  {
    out := FindStartcodeInternal(d, base, p, end);
    FirstCodeInWindow(d, p, end, out);
    if p < out && out < end && d[out - 1] == 0 {
      out := out - 1;
    }
  }

  /** What a found position looks like: a three-byte code, or a four-byte one, that has at
      least one byte after it. */
  predicate AtCode(s: seq<byte>) {
    |s| > 3 && (CodeAt(s, 0) || (|s| > 4 && s[0] == 0 && CodeAt(s, 1)))
  }

  lemma FoundIsAtCode(s: seq<byte>)
    ensures FindCode(s) < |s| ==> AtCode(s[FindCode(s)..])
  {
    FirstCodeIsLeast(s, FirstCode(s));
  }
}

/** Encoded packets and the order in which libobs/obs-output.c keeps them. */
module Packets {
  import opened Basics

  datatype PacketType = Video | Audio

  /** `id` stands for the payload. */
  datatype Packet = Packet(id: int, kind: PacketType, track: nat, pts: int, dts: int, dtsUsec: int, timebaseNum: int,
                           timebaseDen: pos, keyframe: bool)

  /** Signed 64-bit division, which truncates towards zero. */
  function TruncDiv(a: int, b: pos): int {
    if a >= 0 then a / b else -((-a) / b)
  }

  /** packet_dts_usec */
  function Usec(dts: int, den: pos): int {
    TruncDiv(dts * 1_000_000, den)
  }

  /** The output order: by time, video before audio, then by video track. */
  predicate Before(a: Packet, b: Packet) {
    || a.dtsUsec < b.dtsUsec
    || (a.dtsUsec == b.dtsUsec && a.kind.Video? && (b.kind.Audio? || a.track < b.track))
  }

  ghost predicate Sorted(s: seq<Packet>) {
    forall i, j :: 0 <= i < j < |s| ==> !Before(s[j], s[i])
  }

  ghost predicate Strict(s: seq<Packet>) {
    forall i, j :: 0 <= i < j < |s| ==> Before(s[i], s[j])
  }

  /** The two packets come from one encoder stream; all audio tracks count as one, because
      the gate keeps one audio mark. */
  predicate SameStream(a: Packet, b: Packet) {
    a.kind == b.kind && (a.kind.Video? ==> a.track == b.track)
  }

  /** The loop of insert_interleaved_packet stops at cur. */
  predicate StopsAt(out: Packet, cur: Packet) {
    || out.dtsUsec < cur.dtsUsec
    || (out.dtsUsec == cur.dtsUsec && out.kind.Video? && !(cur.kind.Video? && out.track > cur.track))
  }

  function InsertIdx(buf: seq<Packet>, out: Packet): (idx: nat)
    ensures idx <= |buf|
    ensures forall j :: 0 <= j < idx ==> !StopsAt(out, buf[j])
    ensures idx < |buf| ==> StopsAt(out, buf[idx])
  {
    if buf == [] || StopsAt(out, buf[0]) then 0 else 1 + InsertIdx(buf[1..], out)
  }

  function Insert(buf: seq<Packet>, out: Packet): seq<Packet> {
    var i := InsertIdx(buf, out);
    buf[..i] + [out] + buf[i..]
  }

  /** Insertion of a whole list, one by one into an empty array. */
  function Resort(ps: seq<Packet>): seq<Packet> {
    if ps == [] then [] else Insert(Resort(ps[..|ps| - 1]), ps[|ps| - 1])
  }

  lemma InsertIdxUnique(buf: seq<Packet>, out: Packet, i: nat)
    requires i <= |buf|
    requires forall j :: 0 <= j < i ==> !StopsAt(out, buf[j])
    requires i < |buf| ==> StopsAt(out, buf[i])
    ensures i == InsertIdx(buf, out)
  {
  }

  lemma InsertAt(buf: seq<Packet>, out: Packet, k: nat)
    requires k <= |buf|
    ensures var i := InsertIdx(buf, out);
            Insert(buf, out)[k] == (if k < i then buf[k] else if k == i then out else buf[k - 1])
  {
  }

  /** Insertion keeps a sorted buffer sorted. */
  lemma InsertSorted(buf: seq<Packet>, out: Packet)
    requires Sorted(buf)
    ensures Sorted(Insert(buf, out))
  {
    var i, s := InsertIdx(buf, out), Insert(buf, out);
    forall a, b | 0 <= a < b < |s| ensures !Before(s[b], s[a]) {
      InsertAt(buf, out, a);
      InsertAt(buf, out, b);
      if a == i && b > i + 1 {
        assert !Before(buf[b - 1], buf[i]);
      }
    }
  }

  /** Insertion keeps a strictly ordered buffer so, when the packet's stream has no packet at
      its time. */
  lemma InsertStrict(buf: seq<Packet>, out: Packet)
    requires Strict(buf)
    requires forall x <- buf :: SameStream(x, out) ==> x.dtsUsec != out.dtsUsec
    ensures Strict(Insert(buf, out))
  {
    StrictIsSorted(buf);
    InsertSorted(buf, out);
    var i, s := InsertIdx(buf, out), Insert(buf, out);
    forall a, b | 0 <= a < b < |s| ensures Before(s[a], s[b]) {
      InsertAt(buf, out, a);
      InsertAt(buf, out, b);
      assert !Before(s[b], s[a]);
    }
  }

  lemma StrictConcat(a: seq<Packet>, b: seq<Packet>)
    ensures Strict(a + b) <==> Strict(a) && Strict(b) && forall x <- a, y <- b :: Before(x, y)
  {
    var s := a + b;
    if Strict(s) {
      forall i, j | 0 <= i < j < |a| ensures Before(a[i], a[j]) {
        assert Before(s[i], s[j]);
      }
      forall i, j | 0 <= i < j < |b| ensures Before(b[i], b[j]) {
        assert Before(s[|a| + i], s[|a| + j]);
      }
      forall x <- a, y <- b ensures Before(x, y) {
        var i :| 0 <= i < |a| && a[i] == x;
        var j :| 0 <= j < |b| && b[j] == y;
        assert Before(s[i], s[|a| + j]);
      }
    }
  }

  lemma SortedConcat(a: seq<Packet>, b: seq<Packet>)
    ensures Sorted(a + b) <==> Sorted(a) && Sorted(b) && forall x <- a, y <- b :: !Before(y, x)
  {
    var s := a + b;
    if Sorted(s) {
      forall i, j | 0 <= i < j < |a| ensures !Before(a[j], a[i]) {
        assert !Before(s[j], s[i]);
      }
      forall i, j | 0 <= i < j < |b| ensures !Before(b[j], b[i]) {
        assert !Before(s[|a| + j], s[|a| + i]);
      }
      forall x <- a, y <- b ensures !Before(y, x) {
        var i :| 0 <= i < |a| && a[i] == x;
        var j :| 0 <= j < |b| && b[j] == y;
        assert !Before(s[|a| + j], s[i]);
      }
    }
  }

  lemma InsertMembers(buf: seq<Packet>, out: Packet)
    ensures forall x :: x in Insert(buf, out) <==> x == out || x in buf
  {
    var i := InsertIdx(buf, out);
    assert buf == buf[..i] + buf[i..];
  }

  lemma InsertBag(buf: seq<Packet>, out: Packet)
    ensures multiset(Insert(buf, out)) == multiset(buf) + multiset{out}
    ensures |Insert(buf, out)| == |buf| + 1
  {
    var i := InsertIdx(buf, out);
    assert buf == buf[..i] + buf[i..];
  }

  lemma {:induction false} ResortBag(ps: seq<Packet>)
    ensures Sorted(Resort(ps)) && multiset(Resort(ps)) == multiset(ps)
  {
    if ps != [] {
      var init := ps[..|ps| - 1];
      assert ps == init + [ps[|ps| - 1]];
      ResortBag(init);
      InsertSorted(Resort(init), ps[|ps| - 1]);
      InsertBag(Resort(init), ps[|ps| - 1]);
    }
  }

  /** No two packets of one stream carry the same time. */
  ghost predicate DistinctTimes(s: seq<Packet>) {
    forall i, j :: 0 <= i < j < |s| && SameStream(s[i], s[j]) ==> s[i].dtsUsec != s[j].dtsUsec
  }

  lemma StrictIsSorted(s: seq<Packet>)
    requires Strict(s)
    ensures Sorted(s) && DistinctTimes(s)
  {
    forall i, j | 0 <= i < j < |s| ensures !Before(s[j], s[i]) {
      assert Before(s[i], s[j]);
    }
    forall i, j | 0 <= i < j < |s| && SameStream(s[i], s[j]) ensures s[i].dtsUsec != s[j].dtsUsec {
      assert Before(s[i], s[j]);
    }
  }

  lemma TailBags<T>(a: seq<T>, b: seq<T>)
    requires a != [] && b != [] && a[0] == b[0] && multiset(a) == multiset(b)
    ensures multiset(a[1..]) == multiset(b[1..])
  {
    assert a == [a[0]] + a[1..] && b == [b[0]] + b[1..];
    assert multiset(a) == multiset{a[0]} + multiset(a[1..]);
    assert multiset(b) == multiset{b[0]} + multiset(b[1..]);
    assert multiset(a[1..]) == multiset(a) - multiset{a[0]};
  }

  lemma EmptyBag<T>(a: seq<T>)
    requires multiset(a) == multiset{}
    ensures a == []
  {
    assert |multiset(a)| == |a|;
  }

  lemma TailIsOrdered(s: seq<Packet>)
    requires s != []
    ensures Strict(s) ==> Strict(s[1..])
    ensures Sorted(s) ==> Sorted(s[1..])
  {
    assert forall i :: 0 <= i < |s| - 1 ==> s[1..][i] == s[i + 1];
  }

  lemma SameLeast(a: seq<Packet>, b: seq<Packet>)
    requires Strict(a) && Sorted(b) && multiset(a) == multiset(b) && a != []
    ensures b != [] && a[0] == b[0]
  {
    assert a[0] in multiset(a) && a[0] in multiset(b);
    assert b[0] in multiset(b) && b[0] in multiset(a);
    var j :| 0 <= j < |b| && b[j] == a[0];
    var i :| 0 <= i < |a| && a[i] == b[0];
    assert i > 0 ==> Before(a[0], a[i]);
    assert j > 0 ==> !Before(b[j], b[0]);
  }

  /** A strictly ordered list is determined by its packets: however they are sorted, it is
      the result. */
  lemma {:induction false} SortedUnique(a: seq<Packet>, b: seq<Packet>)
    requires Strict(a) && Sorted(b) && multiset(a) == multiset(b)
    ensures a == b
  {
    if a == [] {
      EmptyBag(b);
    } else {
      SameLeast(a, b);
      TailBags(a, b);
      TailIsOrdered(a);
      TailIsOrdered(b);
      SortedUnique(a[1..], b[1..]);
      assert a == [a[0]] + a[1..] && b == [b[0]] + b[1..];
    }
  }

  // ----- Microseconds -----

  lemma DivAdd(a: nat, b: nat, d: pos)
    ensures a / d + b / d <= (a + b) / d <= a / d + b / d + 1
  {
    var qa, qb, ra, rb := a / d, b / d, a % d, b % d;
    assert a + b == (qa + qb) * d + (ra + rb);
    DivBetween(a + b, qa + qb, d, ra + rb);
  }

  /** x is q whole divisors and a rest below two of them. */
  lemma DivBetween(x: int, q: int, d: pos, r: nat)
    requires x == q * d + r && r < 2 * d
    ensures q <= x / d <= q + 1
  {
    var y := x / d;
    assert x == y * d + x % d;
    assert y < q ==> (y + 1) * d <= q * d;
    assert y > q + 1 ==> (q + 2) * d <= y * d;
  }

  /** Rebasing after conversion and converting after rebasing differ by at most a microsecond. */
  lemma UsecDifference(a: int, b: int, den: pos)
    requires a >= b
    ensures Usec(a - b, den) <= Usec(a, den) - Usec(b, den) + 1
    ensures Usec(a, den) - Usec(b, den) <= Usec(a - b, den) + 1
  {
    var m := 1_000_000;
    if b >= 0 {
      DivAdd((a - b) * m, b * m, den);
    } else if a <= 0 {
      DivAdd((a - b) * m, (-a) * m, den);
    } else {
      DivAdd(a * m, (-b) * m, den);
    }
  }

  /** One tick is at least k microseconds, so k microseconds pass with every tick. */
  lemma UsecGrows(a: int, b: int, den: pos, k: nat)
    requires a < b && den * k <= 1_000_000
    ensures Usec(a, den) + k <= Usec(b, den)
  {
    var m := 1_000_000;
    if a >= 0 {
      GrowsBy(a * m, b * m, den, k);
    } else if b <= 0 {
      GrowsBy((-b) * m, (-a) * m, den, k);
    } else {
      GrowsBy(0, b * m, den, k);
      GrowsBy(0, (-a) * m, den, k);
    }
  }

  lemma GrowsBy(x: nat, y: int, d: pos, k: nat)
    requires x + d * k <= y
    ensures x / d + k <= y / d
  {
    var q := x / d;
    assert x == q * d + x % d;
    assert (q + k) * d <= y;
    var z := y / d;
    assert y == z * d + y % d;
    assert z < q + k ==> (z + 1) * d <= (q + k) * d;
  }
}

/** What the byte-stream loops promise: framing and parsing are inverse exactly on the
    well-framed streams, the length-prefixed form decodes to the same units, and pulling
    headers out loses no byte, and changes no unit exactly when the chunks that come to stand
    next to one another keep their distance. */
module NalRoundTrip {
  import opened Basics
  import opened NalScan
  import opened NalUnits
  import opened Seqs

  const Code3: seq<byte> := [0, 0, 1]
  const Code4: seq<byte> := [0, 0, 0, 1]

  /** Every chunk is led by a three-byte or a four-byte start code. */
  ghost predicate Framed(cs: seq<Chunk>) {
    forall i :: 0 <= i < |cs| ==> cs[i].code == Code3 || cs[i].code == Code4
  }

  predicate NoCode(u: seq<byte>) {
    forall i: nat :: i + 3 <= |u| ==> !CodeAt(u, i)
  }

  predicate EndsInZero(u: seq<byte>) {
    u != [] && u[|u| - 1] == 0
  }

  /** When a framing can be read back. No unit holds a start code (in the last unit one may
      hide in the final three bytes, which the scanner never reports); a unit that ends in a
      zero is followed by a four-byte code; and the last unit is not empty. */
  ghost predicate WellFramed(cs: seq<Chunk>) {
    if cs == [] then true
    else if |cs| == 1 then
      cs[0].unit != [] && forall i: nat :: i + 3 < |cs[0].unit| ==> !CodeAt(cs[0].unit, i)
    else
      && NoCode(cs[0].unit)
      && (EndsInZero(cs[0].unit) ==> cs[1].code == Code4)
      && WellFramed(cs[1..])
  }

  lemma SkipOfCode(c: seq<byte>, t: seq<byte>)
    requires c == Code3 || c == Code4
    ensures Skip(c + t) == |c|
  {
    var one := [1] + t;
    var two := [0] + one;
    var three := [0] + two;
    assert one[1..] == t && two[1..] == one && three[1..] == two;
    assert Skip(one) == 1 && Skip(two) == 2 && Skip(three) == 3;
    if c == Code3 {
      assert c + t == three;
    } else {
      assert c + t == [0] + three && ([0] + three)[1..] == three;
    }
  }

  /** Where the scanner stops behind a unit u that is followed by code c and bytes t. */
  lemma FindAfterUnit(u: seq<byte>, c: seq<byte>, t: seq<byte>)
    requires c == Code3 || c == Code4
    ensures FindCode(u + (c + t)) == |u| <==> NoCode(u) && (EndsInZero(u) ==> c == Code4) && t != []
  {
    var s := u + (c + t);
    var r := FirstCode(s);
    FirstCodeIsLeast(s, r);
    var j := |u| + |c| - 3;
    assert CodeAt(s, j);
    assert forall i: nat :: i + 3 <= |u| ==> CodeAt(s, i) == CodeAt(u, i);
    assert forall i: nat :: |u| < i + 3 && i < j ==> !CodeAt(s, i);
    if NoCode(u) {
      if t != [] {
        assert j + 3 < |s|;
        assert r == j;
        assert |c| == 4 ==> s[j - 1] == 0;
        assert |c| == 3 && u != [] ==> s[j - 1] == u[|u| - 1];
      } else {
        assert r == |s|;
      }
    } else {
      var i: nat :| i + 3 <= |u| && CodeAt(u, i);
      assert CodeAt(s, i) && i + 3 < |s|;
      assert r <= i;
    }
  }

  lemma FindInLastUnit(u: seq<byte>)
    ensures FindCode(u) == |u| <==> forall i: nat :: i + 3 < |u| ==> !CodeAt(u, i)
  {
    FirstCodeIsLeast(u, FirstCode(u));
  }

  lemma SlicesOfConcat(c: seq<byte>, t: seq<byte>, k: nat)
    requires k <= |t|
    ensures (c + t)[..|c|] == c && (c + t)[|c|..] == t
    ensures (c + t)[|c|..|c| + k] == t[..k] && (c + t)[|c| + k..] == t[k..]
  {
  }

  lemma UnfoldInto(s: seq<byte>, n: nat, m: nat, code: seq<byte>, unit: seq<byte>, rest: seq<byte>)
    requires n == Skip(s) < |s| && m == n + FindCode(s[n..])
    requires code == s[..n] && unit == s[n..m] && rest == s[m..]
    ensures Chunks(s) == [Chunk(code, unit)] + Chunks(rest)
  {
    UnfoldChunks(s, n, m);
  }

  lemma UnfoldConcat(c: seq<byte>, t: seq<byte>)
    requires Skip(c + t) == |c| && t != []
    ensures Chunks(c + t) == [Chunk(c, t[..FindCode(t)])] + Chunks(t[FindCode(t)..])
  {
    SlicesOfConcat(c, t, FindCode(t));
    UnfoldInto(c + t, |c|, |c| + FindCode(t), c, t[..FindCode(t)], t[FindCode(t)..]);
  }

  /** The first chunk that parsing finds in a framed stream. */
  lemma FirstChunk(c: Chunk, rest: seq<byte>)
    requires c.code == Code3 || c.code == Code4
    requires c.unit + rest != []
    ensures var k := FindCode(c.unit + rest);
            Chunks(c.code + (c.unit + rest)) == [Chunk(c.code, (c.unit + rest)[..k])] + Chunks((c.unit + rest)[k..])
  {
    SkipOfCode(c.code, c.unit + rest);
    UnfoldConcat(c.code, c.unit + rest);
  }

  lemma FlattenCons(cs: seq<Chunk>)
    requires cs != []
    ensures Flatten(cs) == cs[0].code + (cs[0].unit + Flatten(cs[1..]))
  {
    Assoc(cs[0].code, cs[0].unit, Flatten(cs[1..]));
  }

  /** A framed stream parses back to its chunks exactly when it is well framed. */
  lemma {:induction false} ChunksRoundTrip(cs: seq<Chunk>)
    requires Framed(cs)
    ensures Chunks(Flatten(cs)) == cs <==> WellFramed(cs)
  {
    if cs != [] {
      var c, rest := cs[0], Flatten(cs[1..]);
      FlattenCons(cs);
      var t := c.unit + rest;
      if t == [] {
        EmptyFrame(cs);
      } else {
        FirstChunk(c, rest);
        var k := FindCode(t);
        assert (Chunks(Flatten(cs)) == cs) <==> (k == |c.unit| && Chunks(rest) == cs[1..]) by {
          SplitAt(c.unit, rest, k);
          assert cs == [c] + cs[1..];
        }
        ChunksRoundTrip(cs[1..]);
        if |cs| == 1 {
          assert t == c.unit;
          FindInLastUnit(c.unit);
        } else {
          FlattenCons(cs[1..]);
          var t1 := cs[1].unit + Flatten(cs[1..][1..]);
          FindAfterUnit(c.unit, cs[1].code, t1);
          if t1 == [] {
            EmptyFrame(cs[1..]);
          }
        }
      }
    }
  }

  lemma SplitAt(u: seq<byte>, rest: seq<byte>, k: nat)
    requires k <= |u + rest|
    ensures (u + rest)[..k] == u <==> k == |u|
    ensures k == |u| ==> (u + rest)[k..] == rest
  {
  }

  /** A lone start code parses to nothing. */
  lemma EmptyFrame(cs: seq<Chunk>)
    requires Framed(cs) && cs != [] && cs[0].unit + Flatten(cs[1..]) == []
    ensures |cs| == 1 && cs[0].unit == [] && Chunks(Flatten(cs)) == []
  {
    var c := cs[0];
    if |cs| > 1 {
      FlattenCons(cs[1..]);
      assert cs[1..][0].code == cs[1].code;
    }
    FlattenCons(cs);
    SkipOfCode(c.code, []);
    assert c.code + (c.unit + Flatten(cs[1..])) == c.code + [];
  }

  /** A framed stream that has a byte behind its first code starts at a found position. */
  lemma FoundAtStart(c: seq<byte>, t: seq<byte>)
    requires c == Code3 || c == Code4
    ensures FindCode(c + t) == if t == [] then |c| else 0
  {
    var s := c + t;
    assert s == [] + (c + t);
    FindAfterUnit([], c, t);
    FirstCodeIsLeast(s, FirstCode(s));
  }

  /** The framing theorem: reading a framed stream back gives its chunks, units and all,
      if and only if the stream is well framed. */
  lemma FramingRoundTrip(cs: seq<Chunk>)
    requires Framed(cs)
    ensures Parse(Flatten(cs)) == cs <==> WellFramed(cs)
  {
    ChunksRoundTrip(cs);
    var d := Flatten(cs);
    if cs == [] {
      assert d[FindCode(d)..] == d;
    } else {
      FlattenCons(cs);
      var t := cs[0].unit + Flatten(cs[1..]);
      FoundAtStart(cs[0].code, t);
      if t == [] {
        EmptyFrame(cs);
        assert d[FindCode(d)..] == [];
      } else {
        assert d[0..] == d;
      }
    }
  }

  // ----- Every buffer parses to a well-framed list that covers it -----

  lemma AtCodeSkips(s: seq<byte>)
    requires AtCode(s)
    ensures Skip(s) < |s| && (s[..Skip(s)] == Code3 || s[..Skip(s)] == Code4)
  {
    var c := if CodeAt(s, 0) then Code3 else Code4;
    var t := s[|c|..];
    assert s == c + t;
    SkipOfCode(c, t);
  }

  lemma PrependChunk(c: Chunk, rest: seq<Chunk>)
    requires (c.code == Code3 || c.code == Code4) && Framed(rest)
    ensures Framed([c] + rest) && Flatten([c] + rest) == c.Bytes() + Flatten(rest)
  {
    assert ([c] + rest)[1..] == rest;
  }

  /** Behind a chunk there is nothing, or the next start code. */
  lemma NextIsAtCode(s: seq<byte>, q: nat)
    requires q < |s|
    ensures var e := q + FindCode(s[q..]); s[e..] == [] || AtCode(s[e..])
  {
    var e := q + FindCode(s[q..]);
    FoundIsAtCode(s[q..]);
    SliceOfDrop(s, q, 0, e - q);
  }

  lemma ChunkThenRest(s: seq<byte>, q: nat, e: nat)
    requires q <= e <= |s|
    ensures Chunk(s[..q], s[q..e]).Bytes() + s[e..] == s
  {
    assert s[..q] + s[q..e] == s[..e];
  }

  lemma {:induction false} ChunksCover(s: seq<byte>)
    requires s == [] || AtCode(s)
    ensures Framed(Chunks(s)) && Flatten(Chunks(s)) == s
    decreases |s|
  {
    if s != [] {
      AtCodeSkips(s);
      var q := Skip(s);
      var e := q + FindCode(s[q..]);
      NextIsAtCode(s, q);
      ChunksCover(s[e..]);
      UnfoldChunks(s, q, e);
      PrependChunk(Chunk(s[..q], s[q..e]), Chunks(s[e..]));
      ChunkThenRest(s, q, e);
    }
  }

  /** For every byte buffer the chunks are well framed, and laid end to end they are the
      buffer from its first start code on. */
  lemma ParseCovers(d: seq<byte>)
    ensures Flatten(Parse(d)) == d[FindCode(d)..]
    ensures Framed(Parse(d)) && WellFramed(Parse(d))
  {
    FoundIsAtCode(d);
    var s := d[FindCode(d)..];
    ChunksCover(s);
    ChunksRoundTrip(Chunks(s));
  }

  // ----- Length-prefixed form -----

  function FromBe32(s: seq<byte>): nat
    requires |s| == 4
  {
    (s[0] as int) * 0x100_0000 + (s[1] as int) * 0x1_0000 + (s[2] as int) * 256 + s[3] as int
  }

  function Decode(s: seq<byte>): (r: Option<seq<seq<byte>>>) {
    if s == [] then Some([])
    else if |s| < 4 then None
    else
      var n := FromBe32(s[..4]);
      if |s| - 4 < n then None
      else
        match Decode(s[4 + n..])
        case None => None
        case Some(us) => Some([s[4..4 + n]] + us)
  }

  /** In sixteen ranges, each of which leaves four bits open. */
  lemma ByteRoundTrip(n: int)
    requires 0 <= n < 256
    ensures (n as bv8) as int == n
  {
    if n < 16 {
    } else if n < 32 {
    } else if n < 48 {
    } else if n < 64 {
    } else if n < 80 {
    } else if n < 96 {
    } else if n < 112 {
    } else if n < 128 {
    } else if n < 144 {
    } else if n < 160 {
    } else if n < 176 {
    } else if n < 192 {
    } else if n < 208 {
    } else if n < 224 {
    } else if n < 240 {
    }
  }

  lemma DigitsSum(n: nat)
    requires n < 0x1_0000_0000
    ensures (n / 0x100_0000 % 256) * 0x100_0000 + (n / 0x1_0000 % 256) * 0x1_0000 + (n / 256 % 256) * 256 + n % 256 == n
  {
    var h := n / 256;
    var g := h / 256;
    assert g == n / 0x1_0000;
    assert g / 256 == n / 0x100_0000;
  }

  lemma FromBytes(a: int, b: int, c: int, e: int)
    requires 0 <= a < 256 && 0 <= b < 256 && 0 <= c < 256 && 0 <= e < 256
    ensures FromBe32([a as bv8, b as bv8, c as bv8, e as bv8]) == a * 0x100_0000 + b * 0x1_0000 + c * 256 + e
  {
    ByteRoundTrip(a);
    ByteRoundTrip(b);
    ByteRoundTrip(c);
    ByteRoundTrip(e);
  }

  lemma Be32RoundTrip(n: nat)
    requires n < 0x1_0000_0000
    ensures FromBe32(Be32(n)) == n
  {
    FromBytes(n / 0x100_0000 % 256, n / 0x1_0000 % 256, n / 256 % 256, n % 256);
    DigitsSum(n);
  }

  lemma {:induction false} DecodeEncode(us: seq<seq<byte>>)
    requires forall i :: 0 <= i < |us| ==> |us[i]| < 0x1_0000_0000
    ensures Decode(Encode(us)) == Some(us)
  {
    if us != [] {
      var u, rest := us[0], Encode(us[1..]);
      var head := Be32(|u|);
      var s := Encode(us);
      assert s == head + u + rest;
      Be32RoundTrip(|u|);
      assert s[..4] == head && s[4..4 + |u|] == u && s[4 + |u|..] == rest;
      DecodeEncode(us[1..]);
      assert us == [u] + us[1..];
    }
  }

  /** The standard's promises about units (sections 7.3.1 and 7.4.1 of ITU-T H.264): a unit
      is not empty, holds no start code, and does not end in a zero byte. */
  ghost predicate StandardUnits(cs: seq<Chunk>) {
    forall i :: 0 <= i < |cs| ==> cs[i].unit != [] && NoCode(cs[i].unit) && !EndsInZero(cs[i].unit)
  }

  lemma {:induction false} StandardIsWellFramed(cs: seq<Chunk>)
    requires StandardUnits(cs)
    ensures WellFramed(cs)
  {
    if |cs| > 1 {
      assert forall i :: 0 <= i < |cs[1..]| ==> cs[1..][i] == cs[i + 1];
      StandardIsWellFramed(cs[1..]);
    }
  }

  /** Annex B in, length-prefixed out: under any mix of start codes the rewritten packet
      decodes to exactly the units that were framed. */
  lemma SerializeRoundTrip(cs: seq<Chunk>)
    requires Framed(cs) && WellFramed(cs)
    requires forall i :: 0 <= i < |cs| ==> |cs[i].unit| < 0x1_0000_0000
    ensures Decode(Encode(Units(Parse(Flatten(cs))))) == Some(Units(cs))
  {
    FramingRoundTrip(cs);
    DecodeEncode(Units(cs));
  }

  // ----- Header extraction -----

  lemma SelectStep(codec: Codec, kind: Kind, cs: seq<Chunk>)
    requires cs != []
    ensures multiset(Flatten(Select(codec, kind, cs)))
            == (if codec.Kind(cs[0].Lead()) == kind then multiset(cs[0].Bytes()) else multiset{})
               + multiset(Flatten(Select(codec, kind, cs[1..])))
  {
    var rest := Select(codec, kind, cs[1..]);
    if codec.Kind(cs[0].Lead()) == kind {
      assert ([cs[0]] + rest)[1..] == rest;
    }
  }

  lemma {:induction false} SelectPartition(codec: Codec, cs: seq<Chunk>)
    ensures multiset(Flatten(Select(codec, Picture, cs))) + multiset(Flatten(Select(codec, Header, cs)))
            + multiset(Flatten(Select(codec, Sei, cs))) == multiset(Flatten(cs))
  {
    if cs != [] {
      SelectPartition(codec, cs[1..]);
      SelectStep(codec, Picture, cs);
      SelectStep(codec, Header, cs);
      SelectStep(codec, Sei, cs);
      assert multiset(Flatten(cs)) == multiset(cs[0].Bytes()) + multiset(Flatten(cs[1..]));
    }
  }

  lemma SizeFromMultiset(a: seq<byte>, b: seq<byte>, c: seq<byte>, whole: seq<byte>)
    requires multiset(a) + multiset(b) + multiset(c) == multiset(whole)
    ensures |a| + |b| + |c| == |whole|
  {
    assert |multiset(a) + multiset(b) + multiset(c)| == |a| + |b| + |c|;
  }

  /** Header extraction is a partition: the three outputs together hold every byte from the
      first start code to the end, once each. */
  lemma ExtractionIsPartition(codec: Codec, d: seq<byte>, packet: seq<byte>, header: seq<byte>,
                              sei: seq<byte>)
    requires Dealt(codec, Parse(d), packet, header, sei)
    ensures multiset(packet) + multiset(header) + multiset(sei) == multiset(d[FindCode(d)..])
    ensures |packet| + |header| + |sei| == |d| - FindCode(d)
  {
    SelectPartition(codec, Parse(d));
    ParseCovers(d);
    SizeFromMultiset(packet, header, sei, d[FindCode(d)..]);
  }

  /** Units that can be moved next to any start code. */
  ghost predicate Movable(cs: seq<Chunk>) {
    forall i :: 0 <= i < |cs| ==> cs[i].unit != [] && (i < |cs| - 1 ==> !EndsInZero(cs[i].unit))
  }

  lemma {:induction false} SelectIsFramed(codec: Codec, kind: Kind, cs: seq<Chunk>)
    requires Framed(cs)
    ensures Framed(Select(codec, kind, cs))
  {
    if cs != [] {
      SelectIsFramed(codec, kind, cs[1..]);
    }
  }

  lemma {:induction false} SelectIsWellFramed(codec: Codec, kind: Kind, cs: seq<Chunk>)
    requires WellFramed(cs) && Movable(cs)
    ensures WellFramed(Select(codec, kind, cs))
  {
    if cs != [] {
      assert forall i :: 0 <= i < |cs[1..]| ==> cs[1..][i] == cs[i + 1];
      SelectIsWellFramed(codec, kind, cs[1..]);
      var rest := Select(codec, kind, cs[1..]);
      if codec.Kind(cs[0].Lead()) == kind {
        assert ([cs[0]] + rest)[1..] == rest;
        if |cs| > 1 && rest != [] {
          assert NoCode(cs[0].unit) && !EndsInZero(cs[0].unit);
        }
      }
    }
  }

  /** What taking chunks out of a well-framed stream can spoil: a unit that ends in a zero may
      come to stand before a three-byte code, and an empty unit may become the last one. */
  ghost predicate Spaced(cs: seq<Chunk>) {
    if cs == [] then true
    else if |cs| == 1 then cs[0].unit != []
    else (EndsInZero(cs[0].unit) ==> cs[1].code == Code4) && Spaced(cs[1..])
  }

  lemma {:induction false} SelectWellFramedIff(codec: Codec, kind: Kind, cs: seq<Chunk>)
    requires WellFramed(cs)
    ensures WellFramed(Select(codec, kind, cs)) <==> Spaced(Select(codec, kind, cs))
  {
    if cs != [] {
      SelectWellFramedIff(codec, kind, cs[1..]);
      var rest := Select(codec, kind, cs[1..]);
      if codec.Kind(cs[0].Lead()) == kind {
        assert ([cs[0]] + rest)[1..] == rest;
      }
    }
  }

  /** Extraction commutes with parsing, each output giving back the chunks of its kind
      unchanged, if and only if the chunks of that kind are spaced. */
  lemma ExtractionCommutes(codec: Codec, kind: Kind, d: seq<byte>)
    ensures Parse(Flatten(Select(codec, kind, Parse(d)))) == Select(codec, kind, Parse(d))
            <==> Spaced(Select(codec, kind, Parse(d)))
  {
    ParseCovers(d);
    SelectIsFramed(codec, kind, Parse(d));
    SelectWellFramedIff(codec, kind, Parse(d));
    FramingRoundTrip(Select(codec, kind, Parse(d)));
  }

  /** For one, when no unit is empty and only the last one may end in a zero. */
  lemma MovableUnitsCommute(codec: Codec, kind: Kind, d: seq<byte>)
    requires Movable(Parse(d))
    ensures Parse(Flatten(Select(codec, kind, Parse(d)))) == Select(codec, kind, Parse(d))
  {
    ParseCovers(d);
    SelectIsWellFramed(codec, kind, Parse(d));
    SelectWellFramedIff(codec, kind, Parse(d));
    ExtractionCommutes(codec, kind, d);
  }

  /** It can fail: a unit that ends in a zero in front of a four-byte code
      loses the zero once the chunk between it and a three-byte code is taken out. */
  lemma ExtractionCanShortenUnit()
    ensures var cs := [Chunk(Code3, [0x65, 0]), Chunk(Code4, [0x67, 0x42]), Chunk(Code3, [0x41, 0x9a])];
            && Framed(cs) && Parse(Flatten(cs)) == cs
            && Parse(Flatten(Select(Avc, Picture, cs))) != Select(Avc, Picture, cs)
  {
    var a, b, c := Chunk(Code3, [0x65, 0]), Chunk(Code4, [0x67, 0x42]), Chunk(Code3, [0x41, 0x9a]);
    var cs := [a, b, c];
    assert cs[1..] == [b, c] && cs[1..][1..] == [c];
    assert NoCode(a.unit) && NoCode(b.unit);
    assert WellFramed([c]);
    assert WellFramed([b, c]);
    FramingRoundTrip(cs);
    assert Avc.Kind(0x65) == Picture && Avc.Kind(0x67) == Header && Avc.Kind(0x41) == Picture;
    assert [c][1..] == [];
    assert Select(Avc, Picture, [c]) == [c];
    assert Select(Avc, Picture, [b, c]) == [c];
    assert Select(Avc, Picture, cs) == [a, c];
    assert EndsInZero(a.unit) && !WellFramed([a, c]);
    FramingRoundTrip([a, c]);
  }

  /** The keyframe test looks at the first slice, the rewriting loop at every unit, so they
      can differ in one direction only. */
  lemma {:induction false} KeyframeImpliesFlag(codec: Codec, cs: seq<Chunk>)
    requires FirstSliceIsKey(codec, cs)
    ensures AnyKey(codec, cs)
  {
    if codec.IsSlice(cs[0].Lead()) {
      assert codec.IsKey(cs[0].Lead());
    } else {
      KeyframeImpliesFlag(codec, cs[1..]);
      var i :| 0 <= i < |cs[1..]| && codec.IsKey(cs[1..][i].Lead());
      assert cs[i + 1] == cs[1..][i];
    }
  }

  /** A framed AVC packet of parameter sets and the like, then an IDR slice, then anything, is a
      key frame and gets the flag. */
  lemma IdrIsKeyframe(cs: seq<Chunk>, i: nat)
    requires Framed(cs) && WellFramed(cs) && i < |cs| && cs[i].Lead() % 32 == 5
    requires forall j :: 0 <= j < i ==> cs[j].Lead() % 32 != 1
    ensures IsKeyframe(Avc, Parse(Flatten(cs))) && HasKeyUnit(Avc, Parse(Flatten(cs)))
  {
    FramingRoundTrip(cs);
    assert FirstAt(Avc, cs, i, 5, 5, 1, 1);
    assert cs[i] in cs;
  }

  /** One without an IDR slice is neither. */
  lemma PlainIsNoKeyframe(cs: seq<Chunk>)
    requires Framed(cs) && WellFramed(cs) && forall c <- cs :: c.Lead() % 32 != 5
    ensures !IsKeyframe(Avc, Parse(Flatten(cs))) && !HasKeyUnit(Avc, Parse(Flatten(cs)))
  {
    FramingRoundTrip(cs);
  }
}

/** The loops of libobs/obs-avc.c and libobs/obs-hevc.c that walk an Annex B byte stream.
    The two files run the same loops and differ in how they read a unit's first byte, so
    the codec is a parameter. */
module NalUnits {
  import opened NalScan
  import opened Seqs

  datatype Kind = Header | Sei | Picture

  datatype Codec = Avc | Hevc {
    function Type(b: byte): byte {
      if this.Avc? then b & 0x1F else (b & 0x7F) >> 1
    }

    /** The unit is an IDR slice (AVC), or any random access slice (HEVC). */
    predicate IsKey(b: byte) {
      if this.Avc? then Type(b) == 5 else 16 <= Type(b) <= 23
    }

    /** The unit ends the search of the keyframe functions. */
    predicate IsSlice(b: byte) {
      if this.Avc? then Type(b) == 5 || Type(b) == 1 else Type(b) <= 23
    }

    function Kind(b: byte): Kind {
      var t := Type(b);
      if this.Avc? then
        if t == 7 || t == 8 then Header else if t == 6 then Sei else Picture
      else
        if 32 <= t <= 34 then Header else if t == 39 || t == 40 then Sei else Picture
    }

    function Priority(b: byte, priority: int): int {
      if this.Avc? then
        var newPriority := (b >> 5) as int;
        if priority < newPriority then newPriority else priority
      else if IsKey(b) then 3
      else if Type(b) <= 9 && priority < 2 then 2
      else priority
    }
  }

  /** A start code with the unit that follows it. */
  datatype Chunk = Chunk(code: seq<byte>, unit: seq<byte>) {
    /** The byte the C code reads as the unit's first one. Behind an empty unit it is the
        first byte of the next start code. */
    function Lead(): byte {
      if unit == [] then 0 else unit[0]
    }

    function Bytes(): seq<byte> {
      code + unit
    }
  }

  /** How many bytes the loop that skips zeros and then one more byte consumes. */
  function Skip(s: seq<byte>): (n: nat)
    ensures n <= |s| && (s != [] ==> n > 0)
  {
    if s == [] then 0 else if s[0] != 0 then 1 else 1 + Skip(s[1..])
  }

  /** The chunks of a stream whose first byte is the first byte of a start code. */
  function Chunks(s: seq<byte>): seq<Chunk> {
    var q := Skip(s);
    if q == |s| then []
    else
      var k := FindCode(s[q..]);
      [Chunk(s[..q], s[q..q + k])] + Chunks(s[q + k..])
  }

  /** The chunks of any byte buffer. */
  function Parse(d: seq<byte>): seq<Chunk> {
    Chunks(d[FindCode(d)..])
  }

  function Flatten(cs: seq<Chunk>): seq<byte> {
    if cs == [] then [] else cs[0].Bytes() + Flatten(cs[1..])
  }

  function Select(codec: Codec, kind: Kind, cs: seq<Chunk>): seq<Chunk> {
    if cs == [] then []
    else if codec.Kind(cs[0].Lead()) == kind then [cs[0]] + Select(codec, kind, cs[1..])
    else Select(codec, kind, cs[1..])
  }

  function Units(cs: seq<Chunk>): (us: seq<seq<byte>>)
    ensures |us| == |cs| && forall i :: 0 <= i < |us| ==> us[i] == cs[i].unit
  {
    seq(|cs|, i requires 0 <= i < |cs| => cs[i].unit)
  }

  /** A 32-bit big-endian length; longer sizes wrap, as the cast in the source does. */
  function Be32(n: nat): (s: seq<byte>)
    ensures |s| == 4
  {
    [(n / 0x100_0000 % 256) as bv8, (n / 0x1_0000 % 256) as bv8, (n / 256 % 256) as bv8, (n % 256) as bv8]
  }

  /** The length-prefixed form of a list of units. */
  function Encode(us: seq<seq<byte>>): seq<byte> {
    if us == [] then [] else Be32(|us[0]|) + us[0] + Encode(us[1..])
  }

  function TotalPriority(codec: Codec, cs: seq<Chunk>, priority: int): int {
    if cs == [] then priority
    else TotalPriority(codec, cs[1..], codec.Priority(cs[0].Lead(), priority))
  }

  predicate AnyKey(codec: Codec, cs: seq<Chunk>) {
    exists i :: 0 <= i < |cs| && codec.IsKey(cs[i].Lead())
  }

  lemma AnyKeySnoc(codec: Codec, cs: seq<Chunk>, c: Chunk)
    ensures AnyKey(codec, cs + [c]) <==> AnyKey(codec, cs) || codec.IsKey(c.Lead())
  {
    if AnyKey(codec, cs) {
      var i :| 0 <= i < |cs| && codec.IsKey(cs[i].Lead());
      assert (cs + [c])[i] == cs[i];
    }
    assert (cs + [c])[|cs|] == c;
  }

  predicate FirstSliceIsKey(codec: Codec, cs: seq<Chunk>) {
    cs != [] &&
    if codec.IsSlice(cs[0].Lead()) then codec.IsKey(cs[0].Lead()) else FirstSliceIsKey(codec, cs[1..])
  }

  // ----- What the bytes say -----

  /** The type a unit's first byte holds: its low five bits (AVC), or the six above the lowest
      one (HEVC). */
  function TypeBits(codec: Codec, b: byte): byte {
    if codec.Avc? then b % 32 else b % 128 / 2
  }

  predicate TypeIn(codec: Codec, c: Chunk, lo: byte, hi: byte) {
    lo <= TypeBits(codec, c.Lead()) <= hi
  }

  /** Unit i has a type in the first range, and none before it has one in the second. */
  ghost predicate FirstAt(codec: Codec, cs: seq<Chunk>, i: nat, lo: byte, hi: byte, otherLo: byte, otherHi: byte) {
    i < |cs| && TypeIn(codec, cs[i], lo, hi) && forall j :: 0 <= j < i ==> !TypeIn(codec, cs[j], otherLo, otherHi)
  }

  ghost predicate FirstOf(codec: Codec, cs: seq<Chunk>, lo: byte, hi: byte, otherLo: byte, otherHi: byte) {
    exists i: nat :: FirstAt(codec, cs, i, lo, hi, otherLo, otherHi)
  }

  lemma FirstOfCons(codec: Codec, cs: seq<Chunk>, lo: byte, hi: byte, otherLo: byte, otherHi: byte)
    requires cs != []
    ensures FirstOf(codec, cs, lo, hi, otherLo, otherHi)
            <==> TypeIn(codec, cs[0], lo, hi)
                 || (!TypeIn(codec, cs[0], otherLo, otherHi) && FirstOf(codec, cs[1..], lo, hi, otherLo, otherHi))
  {
    if TypeIn(codec, cs[0], lo, hi) {
      assert FirstAt(codec, cs, 0, lo, hi, otherLo, otherHi);
    } else if i: nat :| FirstAt(codec, cs, i, lo, hi, otherLo, otherHi) {
      assert FirstAt(codec, cs[1..], i - 1, lo, hi, otherLo, otherHi);
    }
    if i: nat :| FirstAt(codec, cs[1..], i, lo, hi, otherLo, otherHi) && !TypeIn(codec, cs[0], otherLo, otherHi) {
      assert forall j :: 0 < j <= i + 1 ==> cs[j] == cs[1..][j - 1];
      assert FirstAt(codec, cs, i + 1, lo, hi, otherLo, otherHi);
    }
  }

  /** An AVC packet is a key frame exactly when some unit is an IDR slice (type 5), with no plain
      slice (type 1) before it; an HEVC packet, when some unit is a random access slice (types 16
      to 23), with no other slice (types 0 to 15) before it. */
  ghost predicate IsKeyframe(codec: Codec, cs: seq<Chunk>) {
    if codec.Avc? then FirstOf(codec, cs, 5, 5, 1, 1) else FirstOf(codec, cs, 16, 23, 0, 15)
  }

  lemma {:induction false} FirstSliceIff(codec: Codec, cs: seq<Chunk>)
    ensures FirstSliceIsKey(codec, cs) <==> IsKeyframe(codec, cs)
  {
    if cs != [] {
      FirstSliceIff(codec, cs[1..]);
      FirstOfCons(codec, cs, 5, 5, 1, 1);
      FirstOfCons(codec, cs, 16, 23, 0, 15);
    }
  }

  /** The packet has an IDR slice, or a random access slice. */
  ghost predicate HasKeyUnit(codec: Codec, cs: seq<Chunk>) {
    exists c <- cs :: if codec.Avc? then TypeIn(codec, c, 5, 5) else TypeIn(codec, c, 16, 23)
  }

  lemma AnyKeyIff(codec: Codec, cs: seq<Chunk>)
    ensures AnyKey(codec, cs) <==> HasKeyUnit(codec, cs)
  {
    assert forall i :: 0 <= i < |cs| ==>
        codec.IsKey(cs[i].Lead()) == if codec.Avc? then TypeIn(codec, cs[i], 5, 5) else TypeIn(codec, cs[i], 16, 23);
  }

  /** The priority AVC gives: the highest of the two bits, and the forbidden one, at the top of
      every unit's first byte, and of what the packet had. */
  ghost predicate IsHighest(cs: seq<Chunk>, was: int, r: int) {
    && was <= r && (forall i :: 0 <= i < |cs| ==> (cs[i].Lead() / 32) as int <= r)
    && (r == was || exists i :: 0 <= i < |cs| && r == (cs[i].Lead() / 32) as int)
  }

  lemma {:induction false} AvcPriorityIsHighest(cs: seq<Chunk>, was: int)
    ensures IsHighest(cs, was, TotalPriority(Avc, cs, was))
  {
    if cs != [] {
      var next := Avc.Priority(cs[0].Lead(), was);
      assert cs[0].Lead() >> 5 == cs[0].Lead() / 32;
      AvcPriorityIsHighest(cs[1..], next);
      var r := TotalPriority(Avc, cs, was);
      assert r == TotalPriority(Avc, cs[1..], next);
      assert forall i :: 0 < i < |cs| ==> cs[i] == cs[1..][i - 1];
      if i :| 0 <= i < |cs| - 1 && r == (cs[1..][i].Lead() / 32) as int {
        assert cs[i + 1] == cs[1..][i];
      }
    }
  }

  /** And HEVC: highest (3) with a random access slice, else at least high (2) with one of types
      0 to 9, else what the packet had. */
  ghost predicate IsGraded(cs: seq<Chunk>, was: int, r: int) {
    r == if exists c <- cs :: TypeIn(Hevc, c, 16, 23) then 3
         else if was < 2 && exists c <- cs :: TypeIn(Hevc, c, 0, 9) then 2
         else was
  }

  lemma {:induction false} HevcPriorityIsGraded(cs: seq<Chunk>, was: int)
    ensures IsGraded(cs, was, TotalPriority(Hevc, cs, was))
  {
    if cs != [] {
      var c := cs[0];
      var next := Hevc.Priority(c.Lead(), was);
      HevcPriorityIsGraded(cs[1..], next);
      assert next == if TypeIn(Hevc, c, 16, 23) then 3 else if TypeIn(Hevc, c, 0, 9) && was < 2 then 2 else was;
      assert forall x :: x in cs <==> x == c || x in cs[1..];
    }
  }

  ghost predicate IsPriority(codec: Codec, cs: seq<Chunk>, was: int, r: int) {
    if codec.Avc? then IsHighest(cs, was, r) else IsGraded(cs, was, r)
  }

  lemma PriorityIs(codec: Codec, cs: seq<Chunk>, was: int)
    ensures IsPriority(codec, cs, was, TotalPriority(codec, cs, was))
  {
    AvcPriorityIsHighest(cs, was);
    HevcPriorityIsGraded(cs, was);
  }

  /** The chunks whose unit has one of these types, or none of them. */
  function Pick(codec: Codec, cs: seq<Chunk>, types: set<byte>, one: bool): seq<Chunk> {
    if cs == [] then []
    else
      (if (TypeBits(codec, cs[0].Lead()) in types) == one then [cs[0]] else []) + Pick(codec, cs[1..], types, one)
  }

  /** Sequence, picture and, in HEVC, video parameter sets. */
  function HeaderTypes(codec: Codec): set<byte> {
    if codec.Avc? then {7, 8} else {32, 33, 34}
  }

  function SeiTypes(codec: Codec): set<byte> {
    if codec.Avc? then {6} else {39, 40}
  }

  /** The chunks of each kind, told by the types alone. */
  lemma {:induction false} SelectIsPick(codec: Codec, cs: seq<Chunk>)
    ensures Select(codec, Header, cs) == Pick(codec, cs, HeaderTypes(codec), true)
    ensures Select(codec, Sei, cs) == Pick(codec, cs, SeiTypes(codec), true)
    ensures Select(codec, Picture, cs) == Pick(codec, cs, HeaderTypes(codec) + SeiTypes(codec), false)
  {
    if cs != [] {
      SelectIsPick(codec, cs[1..]);
    }
  }

  // ----- The walk the loops share -----

  method SkipStartCode(d: seq<byte>, p: nat) returns (q: nat)
    requires p <= |d|
    ensures q == p + Skip(d[p..])
  {
    q := p;
    while q < |d|
      invariant p <= q <= |d|
      invariant q + Skip(d[q..]) == p + Skip(d[p..])
    {
      assert d[q..][1..] == d[q + 1..];
      if d[q] != 0 {
        return q + 1;
      }
      q := q + 1;
    }
  }

  lemma {:induction false} UnfoldChunks(s: seq<byte>, n: nat, m: nat)
    requires n == Skip(s) < |s| && m == n + FindCode(s[n..])
    ensures Chunks(s) == [Chunk(s[..n], s[n..m])] + Chunks(s[m..])
  {
  }

  /** One turn of the walk: the chunk between two cursors is the next chunk. */
  lemma NextChunk(d: seq<byte>, p: nat, q: nat, e: nat)
    requires p <= |d| && q == p + Skip(d[p..]) && q < |d| && e == q + FindCode(d[q..])
    ensures Chunks(d[p..]) == [Chunk(d[p..q], d[q..e])] + Chunks(d[e..])
    ensures Chunk(d[p..q], d[q..e]).Lead() == d[q]
  {
    var s, n, m := d[p..], q - p, e - p;
    assert s[..n] == d[p..q] && s[n..] == d[q..] by { SliceOfDrop(d, p, 0, n); }
    assert s[n..m] == d[q..e] && s[m..] == d[e..] by { SliceOfDrop(d, p, n, m); }
    UnfoldChunks(s, n, m);
    LeadIsNextByte(d, q, e);
  }

  lemma LeadIsNextByte(d: seq<byte>, q: nat, e: nat)
    requires q < |d| && e == q + FindCode(d[q..])
    ensures (if d[q..e] == [] then 0 else d[q..e][0]) == d[q]
  {
    if e == q {
      FoundIsAtCode(d[q..]);
      assert d[q..][0..][0] == d[q];
    }
  }

  /** Appending at the back what the specifications consume at the front. */
  lemma {:induction false} EncodeSnoc(us: seq<seq<byte>>, u: seq<byte>)
    ensures Encode(us + [u]) == Encode(us) + (Be32(|u|) + u)
  {
    if us == [] {
      assert us + [u] == [u];
      assert [u][1..] == [];
      assert Encode([u]) == Be32(|u|) + u + [];
    } else {
      EncodeSnoc(us[1..], u);
      assert (us + [u])[1..] == us[1..] + [u];
      Assoc(Be32(|us[0]|) + us[0], Encode(us[1..]), Be32(|u|) + u);
    }
  }

  /** The bookkeeping of one turn. */
  lemma Advance(all: seq<Chunk>, done: seq<Chunk>, c: Chunk, rest: seq<Chunk>)
    requires all == done + ([c] + rest)
    ensures all == (done + [c]) + rest && ([c] + rest)[1..] == rest
    ensures Encode(Units(done + [c])) == Encode(Units(done)) + (Be32(|c.unit|) + c.unit)
  {
    Assoc(done, [c], rest);
    EncodeSnoc(Units(done), c.unit);
    assert Units(done + [c]) == Units(done) + [c.unit];
  }

  /** One turn of the rewriting loop, over one chunk. */
  lemma WalkOne(codec: Codec, all: seq<Chunk>, done: seq<Chunk>, c: Chunk, rest: seq<Chunk>, out: seq<byte>,
                priority: int)
    requires all == done + ([c] + rest) && out == Encode(Units(done))
    ensures all == (done + [c]) + rest
    ensures out + (Be32(|c.unit|) + c.unit) == Encode(Units(done + [c]))
    ensures AnyKey(codec, done + [c]) <==> AnyKey(codec, done) || codec.IsKey(c.Lead())
    ensures TotalPriority(codec, [c] + rest, priority) == TotalPriority(codec, rest, codec.Priority(c.Lead(), priority))
  {
    Advance(all, done, c, rest);
    AnyKeySnoc(codec, done, c);
  }

  lemma {:induction false} FlattenAppend(a: seq<Chunk>, b: seq<Chunk>)
    ensures Flatten(a + b) == Flatten(a) + Flatten(b)
  {
    if a == [] {
      assert a + b == b;
    } else {
      FlattenAppend(a[1..], b);
      assert (a + b)[1..] == a[1..] + b;
      Assoc(a[0].Bytes(), Flatten(a[1..]), Flatten(b));
    }
  }

  lemma {:induction false} SelectAppend(codec: Codec, kind: Kind, a: seq<Chunk>, b: seq<Chunk>)
    ensures Select(codec, kind, a + b) == Select(codec, kind, a) + Select(codec, kind, b)
  {
    if a == [] {
      assert a + b == b;
    } else {
      SelectAppend(codec, kind, a[1..], b);
      assert (a + b)[1..] == a[1..] + b;
      Assoc([a[0]], Select(codec, kind, a[1..]), Select(codec, kind, b));
    }
  }

  // ----- The operations -----

  /** Rewrites the stream with length prefixes, and folds the flags of every unit. */
  method Serialize(codec: Codec, d: seq<byte>, base: nat, wasKey: bool, was: int)
    returns (out: seq<byte>, isKeyframe: bool, priority: int)
    ensures out == Encode(Units(Parse(d)))
    ensures isKeyframe <==> wasKey || HasKeyUnit(codec, Parse(d))
    ensures priority == TotalPriority(codec, Parse(d), was) && IsPriority(codec, Parse(d), was, priority)
  {
    ghost var all := Parse(d);
    AnyKeyIff(codec, all);
    PriorityIs(codec, all, was);
    ghost var done, todo := [], all;
    out, isKeyframe, priority := [], wasKey, was;
    assert d[0..|d|] == d;
    var nalStart := FindStartcode(d, base, 0, |d|);
    while true
      invariant nalStart <= |d| && todo == Chunks(d[nalStart..])
      invariant all == done + todo
      invariant out == Encode(Units(done))
      invariant isKeyframe <==> wasKey || AnyKey(codec, done)
      invariant TotalPriority(codec, all, was) == TotalPriority(codec, todo, priority)
      decreases |d| - nalStart
    {
      var q := SkipStartCode(d, nalStart);
      if q == |d| {
        assert todo == [] && all == done;
        break;
      }
      assert d[q..|d|] == d[q..];
      var nalEnd := FindStartcode(d, base, q, |d|);
      ghost var c, rest := Chunk(d[nalStart..q], d[q..nalEnd]), Chunks(d[nalEnd..]);
      NextChunk(d, nalStart, q, nalEnd);
      WalkOne(codec, all, done, c, rest, out, priority);
      isKeyframe, priority := isKeyframe || codec.IsKey(d[q]), codec.Priority(d[q], priority);
      var unit := d[q..nalEnd];
      out := out + (Be32(|unit|) + unit);
      done, todo := done + [c], rest;
      nalStart := nalEnd;
    }
  }

  /** The priority alone, from a packet that keeps its own start codes. */
  method ParsePriority(codec: Codec, d: seq<byte>, base: nat, was: int) returns (priority: int)
    ensures priority == TotalPriority(codec, Parse(d), was) && IsPriority(codec, Parse(d), was, priority)
  {
    PriorityIs(codec, Parse(d), was);
    priority := was;
    var nalStart := FindStartcode(d, base, 0, |d|);
    assert d[0..|d|] == d;
    while true
      invariant nalStart <= |d|
      invariant TotalPriority(codec, Parse(d), was) == TotalPriority(codec, Chunks(d[nalStart..]), priority)
      decreases |d| - nalStart
    {
      var q := SkipStartCode(d, nalStart);
      if q == |d| {
        break;
      }
      priority := codec.Priority(d[q], priority);
      var nalEnd := FindStartcode(d, base, q, |d|);
      assert d[q..|d|] == d[q..];
      NextChunk(d, nalStart, q, nalEnd);
      assert Chunks(d[nalStart..])[1..] == Chunks(d[nalEnd..]);
      nalStart := nalEnd;
    }
  }

  method Keyframe(codec: Codec, d: seq<byte>, base: nat) returns (key: bool)
    ensures key <==> IsKeyframe(codec, Parse(d))
  {
    FirstSliceIff(codec, Parse(d));
    var nalStart := FindStartcode(d, base, 0, |d|);
    assert d[0..|d|] == d;
    while true
      invariant nalStart <= |d|
      invariant FirstSliceIsKey(codec, Parse(d)) <==> FirstSliceIsKey(codec, Chunks(d[nalStart..]))
      decreases |d| - nalStart
    {
      var q := SkipStartCode(d, nalStart);
      if q == |d| {
        break;
      }
      var nalEnd := FindStartcode(d, base, q, |d|);
      assert d[q..|d|] == d[q..];
      NextChunk(d, nalStart, q, nalEnd);
      if codec.IsSlice(d[q]) {
        return codec.IsKey(d[q]);
      }
      assert Chunks(d[nalStart..])[1..] == Chunks(d[nalEnd..]);
      nalStart := nalEnd;
    }
    key := false;
  }

  /** The three buffers hold the chunks of their kind, in order. */
  ghost predicate Dealt(codec: Codec, cs: seq<Chunk>, packet: seq<byte>, header: seq<byte>, sei: seq<byte>) {
    && packet == Flatten(Select(codec, Picture, cs))
    && header == Flatten(Select(codec, Header, cs))
    && sei == Flatten(Select(codec, Sei, cs))
  }

  lemma SelectSnoc(codec: Codec, kind: Kind, done: seq<Chunk>, c: Chunk)
    ensures codec.Kind(c.Lead()) != kind ==> Select(codec, kind, done + [c]) == Select(codec, kind, done)
    ensures codec.Kind(c.Lead()) == kind
            ==> Flatten(Select(codec, kind, done + [c])) == Flatten(Select(codec, kind, done)) + c.Bytes()
  {
    SelectAppend(codec, kind, done, [c]);
    assert [c][1..] == [];
    if codec.Kind(c.Lead()) == kind {
      assert Select(codec, kind, [c]) == [c] + Select(codec, kind, []) == [c];
      FlattenAppend(Select(codec, kind, done), [c]);
      assert Flatten([c]) == c.Bytes() + [];
    }
  }

  lemma DealOne(codec: Codec, done: seq<Chunk>, c: Chunk, packet: seq<byte>, header: seq<byte>,
                sei: seq<byte>)
    requires Dealt(codec, done, packet, header, sei)
    ensures match codec.Kind(c.Lead())
            case Header => Dealt(codec, done + [c], packet, header + c.Bytes(), sei)
            case Sei => Dealt(codec, done + [c], packet, header, sei + c.Bytes())
            case Picture => Dealt(codec, done + [c], packet + c.Bytes(), header, sei)
  {
    SelectSnoc(codec, Header, done, c);
    SelectSnoc(codec, Sei, done, c);
    SelectSnoc(codec, Picture, done, c);
  }

  /** Deals the chunks out to three buffers by kind. */
  method ExtractHeaders(codec: Codec, d: seq<byte>, base: nat)
    returns (packet: seq<byte>, header: seq<byte>, sei: seq<byte>)
    ensures Dealt(codec, Parse(d), packet, header, sei)
    ensures header == Flatten(Pick(codec, Parse(d), HeaderTypes(codec), true))
    ensures sei == Flatten(Pick(codec, Parse(d), SeiTypes(codec), true))
    ensures packet == Flatten(Pick(codec, Parse(d), HeaderTypes(codec) + SeiTypes(codec), false))
  {
    SelectIsPick(codec, Parse(d));
    ghost var all := Parse(d);
    ghost var done: seq<Chunk> := [];
    packet, header, sei := [], [], [];
    assert d[0..|d|] == d;
    var nalStart := FindStartcode(d, base, 0, |d|);
    var nalEnd: int := -1;
    while nalEnd != |d|
      invariant nalStart <= |d| && (nalEnd == -1 || nalEnd == nalStart)
      invariant all == done + Chunks(d[nalStart..])
      invariant Dealt(codec, done, packet, header, sei)
      decreases |d| - nalStart, if nalEnd == -1 then 1 else 0
    {
      var codeStart := nalStart;
      nalStart := SkipStartCode(d, codeStart);
      if nalStart == |d| {
        assert all == done;
        return;
      }
      assert d[nalStart..|d|] == d[nalStart..];
      nalEnd := FindStartcode(d, base, nalStart, |d|);
      NextChunk(d, codeStart, nalStart, nalEnd);
      ghost var c := Chunk(d[codeStart..nalStart], d[nalStart..nalEnd]);
      Advance(all, done, c, Chunks(d[nalEnd..]));
      DealOne(codec, done, c, packet, header, sei);
      var bytes := d[codeStart..nalEnd];
      SliceJoin(d, codeStart, nalStart, nalEnd);
      match codec.Kind(d[nalStart]) {
        case Header => header := header + bytes;
        case Sei => sei := sei + bytes;
        case Picture => packet := packet + bytes;
      }
      done := done + [c];
      nalStart := nalEnd;
    }
    assert all == done;
  }
}

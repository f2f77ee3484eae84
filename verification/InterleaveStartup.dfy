/** How an output comes to be started: from a reset output with one video and one audio
    encoder to the state InterleaveRuns begins with, and where that link breaks. */
module InterleaveStartup {
  import opened Basics
  import opened Packets
  import opened InterleaveSpec
  import opened InterleaveRuns

  /** What an encoder stamps its packets with before the output rebases them: system time
      at some base, plus its own dts. `last` is its latest dts. */
  datatype Feed = Feed(base: int, den: pos, seen: bool, last: int) {
    /** A next packet. A tick lasts at least a microsecond. */
    predicate Brings(p: Packet) {
      && den <= 1_000_000
      && p.timebaseDen == den && p.dtsUsec == base + Usec(p.dts, den) && 0 <= p.dtsUsec
      && (seen ==> last < p.dts)
    }

    /** An earlier packet. */
    predicate Brought(p: Packet) {
      && den <= 1_000_000
      && p.timebaseDen == den && p.dtsUsec == base + Usec(p.dts, den) && 0 <= p.dtsUsec
      && seen && p.dts <= last
    }

    predicate Live() {
      seen && den <= 1_000_000 && 0 <= base + Usec(last, den)
    }

    function Next(p: Packet): Feed {
      this.(seen := true, last := p.dts)
    }

    function Top(): int {
      if seen then base + Usec(last, den) else 0
    }
  }

  datatype Feeds = Feeds(video: Feed, audio: Feed) {
    function Of(kind: PacketType): Feed {
      if kind.Video? then video else audio
    }

    function Next(p: Packet): Feeds {
      if p.kind.Video? then this.(video := video.Next(p)) else this.(audio := audio.Next(p))
    }
  }

  /** One video encoder, in slot 0, and one audio encoder. */
  ghost predicate Single(cfg: Config) {
    && cfg.Valid() && cfg.video[0] && (forall i :: 0 < i < MaxVideo ==> !cfg.video[i])
    && true in cfg.audio && forall i :: 0 <= i < MaxAudio && i != FirstSlot(cfg.audio) ==> !cfg.audio[i]
  }

  /** A run in which each encoder's dts strictly increases. */
  predicate Fed(cfg: Config, fs: Feeds, ps: seq<Packet>)
    requires cfg.Valid()
    decreases |ps|
  {
    ps != [] ==>
      && Belongs(cfg, ps[0]) && fs.Of(ps[0].kind).Brings(ps[0])
      && Fed(cfg, fs.Next(ps[0]), ps[1..])
  }

  /** What holds of an output that has not started: its buffer is in order and holds packets
      the feeds brought, and no highest mark is ahead of its feed. */
  ghost predicate Core(cfg: Config, s: State, fs: Feeds)
    requires Single(cfg)
  {
    && s.Valid(cfg) && s.sent == [] && Strict(s.buf)
    && (forall p <- s.buf :: fs.Of(p.kind).Brought(p))
    && s.highestVideo[0] <= fs.video.Top() && s.highestAudio <= fs.audio.Top()
  }

  ghost predicate Waiting(cfg: Config, s: State, fs: Feeds)
    requires Single(cfg)
  {
    && Core(cfg, s, fs) && !AllReceived(cfg, s)
    && (s.receivedVideo[0] ==> FirstIdx(s.buf, Video, 0) >= 0)
  }

  /** The marks of a started output, from how far the feeds have come. */
  function MarksOf(cfg: Config, s: State, fs: Feeds): Marks
    requires Single(cfg) && s.Valid(cfg)
  {
    Marks([Usec(fs.video.last - s.videoOffset[0], fs.video.den), 0, 0, 0, 0, 0],
          Usec(fs.audio.last - s.audioOffset[FirstSlot(cfg.audio)], fs.audio.den))
  }

  ghost predicate Running(cfg: Config, s: State, fs: Feeds)
    requires Single(cfg)
  {
    && s.Valid(cfg) && fs.video.Live() && fs.audio.Live()
    && Inv(cfg, s, MarksOf(cfg, s, fs))
  }

  lemma UsecMonotone(a: int, b: int, den: pos)
    requires a <= b
    ensures Usec(a, den) <= Usec(b, den)
  {
    if a < b {
      UsecGrows(a, b, den, 0);
    }
  }

  /** The slot of a packet of a single-encoder output. */
  lemma SlotOf(cfg: Config, p: Packet)
    requires Single(cfg) && Belongs(cfg, p)
    ensures p.track == if p.kind.Video? then 0 else FirstSlot(cfg.audio)
  {
  }

  // ----- Waiting for both streams -----

  lemma SuffixKeepsCore(cfg: Config, s: State, fs: Feeds, idx: nat)
    requires Single(cfg) && Core(cfg, s, fs) && idx <= |s.buf|
    ensures Core(cfg, Discard(s, idx), fs)
  {
    StrictConcat(s.buf[..idx], s.buf[idx..]);
    assert s.buf == s.buf[..idx] + s.buf[idx..];
  }

  lemma FeedGrows(f: Feed, p: Packet)
    requires f.Brings(p)
    ensures f.Next(p).Brought(p) && p.dtsUsec == f.Next(p).Top()
    ensures f.seen ==> f.Top() < p.dtsUsec
    ensures !f.seen ==> f.Top() <= p.dtsUsec
  {
    if f.seen {
      UsecGrows(f.last, p.dts, f.den, 1);
    }
  }

  lemma CoreGrows(cfg: Config, s: State, fs: Feeds, p: Packet)
    requires Single(cfg) && Core(cfg, s, fs) && fs.Of(p.kind).Brings(p)
    ensures Core(cfg, s, fs.Next(p))
  {
    FeedGrows(fs.Of(p.kind), p);
  }

  lemma StillFirst(buf: seq<Packet>, p: Packet, kind: PacketType, i: nat)
    requires FirstIdx(buf, kind, i) >= 0 || Is(p, kind, i)
    ensures FirstIdx(Insert(buf, p), kind, i) >= 0
  {
    var x := if Is(p, kind, i) then p else buf[FirstIdx(buf, kind, i)];
    InsertMembers(buf, p);
    assert x in Insert(buf, p);
    var j :| 0 <= j < |Insert(buf, p)| && Insert(buf, p)[j] == x;
  }

  lemma AcceptKeepsCore(cfg: Config, s: State, fs: Feeds, p: Packet)
    requires Single(cfg) && Core(cfg, s, fs) && Belongs(cfg, p) && fs.Of(p.kind).Brings(p)
    ensures Core(cfg, Accept(cfg, s, p), fs.Next(p))
  {
    FeedGrows(fs.Of(p.kind), p);
    SlotOf(cfg, p);
    forall x <- s.buf | SameStream(x, p) ensures x.dtsUsec != p.dtsUsec {
      UsecGrows(x.dts, p.dts, p.timebaseDen, 1);
    }
    InsertStrict(s.buf, p);
    InsertMembers(s.buf, p);
    CoreGrows(cfg, s, fs, p);
  }

  // ----- Start -----

  lemma {:induction false} ResortStrict(ps: seq<Packet>)
    requires DistinctTimes(ps)
    ensures Strict(Resort(ps)) && forall x :: x in Resort(ps) <==> x in ps
  {
    if ps != [] {
      var n := |ps| - 1;
      ResortStrict(ps[..n]);
      forall x <- Resort(ps[..n]) | SameStream(x, ps[n]) ensures x.dtsUsec != ps[n].dtsUsec {
        assert x in ps[..n];
      }
      InsertStrict(Resort(ps[..n]), ps[n]);
      InsertMembers(Resort(ps[..n]), ps[n]);
      assert ps == ps[..n] + [ps[n]];
    }
  }

  lemma SingleFirsts(cfg: Config, s: State)
    requires Single(cfg) && s.Valid(cfg) && Complete(cfg, s.buf)
    ensures var a := FirstSlot(cfg.audio);
            && a < MaxAudio && cfg.audio[a]
            && FirstIdx(s.buf, Video, 0) >= 0 && FirstIdx(s.buf, Audio, a) >= 0
            && StartMarks(cfg, s).videoOffset[0] == First(s.buf, Video, 0).pts
            && StartMarks(cfg, s).audioOffset[a] == First(s.buf, Audio, a).dts
            && StartMarks(cfg, s).highestVideo[0] == s.highestVideo[0] - First(s.buf, Video, 0).dtsUsec
            && StartMarks(cfg, s).highestAudio == s.highestAudio - First(s.buf, Audio, a).dtsUsec
  {
    assert HasFirst(s.buf, cfg.video, Video, 0);
    assert HasFirst(s.buf, cfg.audio, Audio, FirstSlot(cfg.audio));
  }

  lemma OffsetOfFirst(cfg: Config, s: State, kind: PacketType, i: nat)
    requires cfg.Valid() && s.Valid(cfg) && Complete(cfg, s.buf) && i < MaxVideo
    requires if kind.Video? then cfg.video[i] else cfg.audio[i]
    ensures FirstIdx(s.buf, kind, i) >= 0
    ensures if kind.Video? then StartMarks(cfg, s).videoOffset[i] == First(s.buf, kind, i).pts
            else StartMarks(cfg, s).audioOffset[i] == First(s.buf, kind, i).dts
  {
    assert HasFirst(s.buf, cfg.video, Video, i) && HasFirst(s.buf, cfg.audio, Audio, i);
  }

  /** Every stream begins at zero once the start times are applied: its first video packet is
      shown, and its first audio packet decoded, at time zero. In any configuration. */
  lemma StreamsStartAtZero(cfg: Config, s: State, kind: PacketType, i: nat)
    requires cfg.Valid() && s.Valid(cfg) && Complete(cfg, s.buf) && i < MaxVideo
    requires if kind.Video? then cfg.video[i] else cfg.audio[i]
    ensures var buf := StartTimes(cfg, s).buf;
            && FirstIdx(buf, kind, i) >= 0
            && (if kind.Video? then First(buf, kind, i).pts else First(buf, kind, i).dts) == 0
  {
    FirstIsRebased(cfg, s, kind, i);
    OffsetOfFirst(cfg, s, kind, i);
  }

  lemma FirstIsRebased(cfg: Config, s: State, kind: PacketType, i: nat)
    requires cfg.Valid() && s.Valid(cfg) && Complete(cfg, s.buf) && i < MaxVideo
    requires if kind.Video? then cfg.video[i] else cfg.audio[i]
    ensures var buf := StartTimes(cfg, s).buf;
            && FirstIdx(s.buf, kind, i) >= 0 && FirstIdx(buf, kind, i) >= 0
            && Belongs(cfg, First(s.buf, kind, i))
            && First(buf, kind, i) == Rebase(cfg, StartMarks(cfg, s), First(s.buf, kind, i))
    ensures HasFirst(s.buf, cfg.video, Video, i) && HasFirst(s.buf, cfg.audio, Audio, i)
  {
    assert HasFirst(s.buf, cfg.video, Video, i) && HasFirst(s.buf, cfg.audio, Audio, i);
    RebaseKeepsFirst(cfg, StartMarks(cfg, s), s.buf, kind, i);
  }

  lemma RebaseKeepsFirst(cfg: Config, s: State, ps: seq<Packet>, kind: PacketType, i: nat)
    requires cfg.Valid() && s.Valid(cfg) && forall p <- ps :: Belongs(cfg, p)
    ensures FirstIdx(RebaseAll(cfg, s, ps), kind, i) == FirstIdx(ps, kind, i)
  {
    SameFirst(ps, RebaseAll(cfg, s, ps), kind, i);
  }

  lemma SameFirst(a: seq<Packet>, b: seq<Packet>, kind: PacketType, i: nat)
    requires |a| == |b| && forall j :: 0 <= j < |a| ==> Is(a[j], kind, i) == Is(b[j], kind, i)
    ensures FirstIdx(a, kind, i) == FirstIdx(b, kind, i)
  {
    var x, y := FirstIdx(a, kind, i), FirstIdx(b, kind, i);
    assert x >= 0 ==> Is(b[x], kind, i);
    assert y >= 0 ==> Is(a[y], kind, i);
  }

  /** A rebased mark runs at most one microsecond ahead of its stream. */
  lemma RebasedMark(f: Feed, highest: int, first: Packet)
    requires f.Brought(first) && highest <= f.Top()
    ensures highest - first.dtsUsec <= Usec(f.last - first.dts, f.den) + 1
  {
    UsecDifference(f.last, first.dts, f.den);
  }

  lemma RebasedDistinct(cfg: Config, s: State, fs: Feeds, t: State)
    requires Single(cfg) && Core(cfg, s, fs) && t.Valid(cfg)
    requires t.buf == RebaseAll(cfg, t.(buf := s.buf), s.buf)
    ensures DistinctTimes(t.buf)
  {
    StrictIsSorted(s.buf);
    forall i, j | 0 <= i < j < |t.buf| && SameStream(t.buf[i], t.buf[j]) ensures t.buf[i].dtsUsec != t.buf[j].dtsUsec {
      var x, y := s.buf[i], s.buf[j];
      assert x in s.buf && y in s.buf;
      SlotOf(cfg, x);
      SlotOf(cfg, y);
      assert SameStream(x, y);
      var off := if x.kind.Video? then t.videoOffset[x.track] else t.audioOffset[x.track];
      if x.dts < y.dts {
        UsecGrows(x.dts - off, y.dts - off, x.timebaseDen, 1);
      } else {
        UsecGrows(y.dts - off, x.dts - off, x.timebaseDen, 1);
      }
    }
  }

  lemma RebasedBelowMark(cfg: Config, s: State, fs: Feeds, t: State, x: Packet)
    requires Single(cfg) && Core(cfg, s, fs) && t.Valid(cfg) && x in s.buf
    ensures var p := Rebase(cfg, t, x); Belongs(cfg, p) && p.dtsUsec <= MarksOf(cfg, t, fs).Of(p)
  {
    SlotOf(cfg, x);
    var off := if x.kind.Video? then t.videoOffset[x.track] else t.audioOffset[x.track];
    UsecMonotone(x.dts - off, fs.Of(x.kind).last - off, x.timebaseDen);
  }

  lemma RebasedBelowMarks(cfg: Config, s: State, fs: Feeds, t: State)
    requires Single(cfg) && Core(cfg, s, fs) && t.Valid(cfg)
    requires t.buf == RebaseAll(cfg, t.(buf := s.buf), s.buf)
    ensures forall p <- t.buf :: Belongs(cfg, p) && p.dtsUsec <= MarksOf(cfg, t, fs).Of(p)
  {
    forall p <- t.buf ensures Belongs(cfg, p) && p.dtsUsec <= MarksOf(cfg, t, fs).Of(p) {
      var i :| 0 <= i < |t.buf| && t.buf[i] == p;
      RebasedBelowMark(cfg, s, fs, t, s.buf[i]);
    }
  }

  /** A mark runs at most one microsecond ahead of its stream when the offset is not past the
      dts that the mark is lowered by. */
  lemma StartMarksSound(cfg: Config, s: State, fs: Feeds)
    requires Single(cfg) && Core(cfg, s, fs) && Complete(cfg, s.buf)
    requires FirstIdx(s.buf, Video, 0) >= 0 && First(s.buf, Video, 0).pts <= First(s.buf, Video, 0).dts
    ensures GateSound(cfg, StartMarks(cfg, s), MarksOf(cfg, StartMarks(cfg, s), fs))
  {
    SingleFirsts(cfg, s);
    var v, a := First(s.buf, Video, 0), First(s.buf, Audio, FirstSlot(cfg.audio));
    RebasedMark(fs.video, s.highestVideo[0], v);
    UsecMonotone(fs.video.last - v.dts, fs.video.last - v.pts, fs.video.den);
    RebasedMark(fs.audio, s.highestAudio, a);
  }

  /** Both feeds have brought something. */
  lemma BothFeedsLive(cfg: Config, s: State, fs: Feeds)
    requires Single(cfg) && Core(cfg, s, fs) && Complete(cfg, s.buf)
    ensures fs.video.Live() && fs.audio.Live()
  {
    SingleFirsts(cfg, s);
    var v, a := First(s.buf, Video, 0), First(s.buf, Audio, FirstSlot(cfg.audio));
    UsecMonotone(v.dts, fs.video.last, fs.video.den);
    UsecMonotone(a.dts, fs.audio.last, fs.audio.den);
  }

  lemma FreshInv(cfg: Config, u: State, m: Marks)
    requires cfg.Valid() && u.Valid(cfg) && |m.video| == MaxVideo && AllReceived(cfg, u) && u.sent == []
    requires Strict(u.buf) && (forall p <- u.buf :: Belongs(cfg, p) && p.dtsUsec <= m.Of(p)) && GateSound(cfg, u, m)
    ensures Inv(cfg, u, m)
  {
    assert Line(u) == u.buf;
  }

  lemma RebasedBuffer(cfg: Config, s: State, fs: Feeds, t: State)
    requires Single(cfg) && Core(cfg, s, fs) && t.Valid(cfg)
    requires t.buf == RebaseAll(cfg, t.(buf := s.buf), s.buf)
    ensures Strict(Resort(t.buf))
    ensures forall p <- Resort(t.buf) :: Belongs(cfg, p) && p.dtsUsec <= MarksOf(cfg, t, fs).Of(p)
  {
    RebasedDistinct(cfg, s, fs, t);
    RebasedBelowMarks(cfg, s, fs, t);
    ResortStrict(t.buf);
  }

  lemma SortedStartRuns(cfg: Config, s: State, fs: Feeds, marks: State, t: State)
    requires Single(cfg) && Core(cfg, s, fs) && AllReceived(cfg, s)
    requires fs.video.Live() && fs.audio.Live()
    requires marks.Valid(cfg) && marks == s.(videoOffset := marks.videoOffset, audioOffset := marks.audioOffset,
                                             highestVideo := marks.highestVideo, highestAudio := marks.highestAudio)
    requires GateSound(cfg, marks, MarksOf(cfg, marks, fs))
    requires t.Valid(cfg) && t == marks.(buf := RebaseAll(cfg, marks, s.buf))
    ensures Running(cfg, t.(buf := Resort(t.buf)), fs)
  {
    assert marks == t.(buf := s.buf);
    RebasedBuffer(cfg, s, fs, t);
    var u := t.(buf := Resort(t.buf));
    SameMarks(cfg, marks, t, fs);
    SameMarks(cfg, t, u, fs);
    FreshInv(cfg, u, MarksOf(cfg, u, fs));
  }

  /** Starting the clocks and sorting again gives the state InterleaveRuns starts from, when
      the packet the video offset is taken from is not shown later than it is decoded. */
  lemma StartTimesSound(cfg: Config, s: State, fs: Feeds, t: State)
    requires Single(cfg) && Core(cfg, s, fs) && AllReceived(cfg, s) && Complete(cfg, s.buf) && t == StartTimes(cfg, s)
    requires FirstIdx(s.buf, Video, 0) >= 0 && First(s.buf, Video, 0).pts <= First(s.buf, Video, 0).dts
    ensures Running(cfg, t.(buf := Resort(t.buf)), fs)
  {
    StartMarksSound(cfg, s, fs);
    BothFeedsLive(cfg, s, fs);
    SortedStartRuns(cfg, s, fs, StartMarks(cfg, s), t);
  }

  /** A failed look at the streams leaves the output waiting. */
  lemma CheckFailsWaiting(cfg: Config, s: State, fs: Feeds)
    requires Single(cfg) && Core(cfg, s, fs) && AllReceived(cfg, s)
    ensures var (t, ok) := CheckStreams(cfg, s); if ok then t == s && Complete(cfg, s.buf) else Waiting(cfg, t, fs)
  {
    var v := MissingSlot(s.buf, cfg.video, Video, 0);
    if v < MaxVideo {
      assert !HasFirst(s.buf, cfg.video, Video, v);
    } else {
      assert HasFirst(s.buf, cfg.video, Video, 0);
      var a := MissingSlot(s.buf, cfg.audio, Audio, 0);
      assert a == MaxAudio ==> forall i :: 0 <= i < MaxAudio ==> HasFirst(s.buf, cfg.audio, Audio, i);
    }
  }

  lemma SameMarks(cfg: Config, s: State, t: State, fs: Feeds)
    requires Single(cfg) && s.Valid(cfg) && t.Valid(cfg)
    requires t.videoOffset == s.videoOffset && t.audioOffset == s.audioOffset
    ensures MarksOf(cfg, s, fs) == MarksOf(cfg, t, fs)
  {
  }

  // ----- Where the link breaks -----

  /** The video mark after start-up is sound exactly when the first video packet is not
      shown later than it is decoded: the offset is taken from its pts, the mark is lowered
      by its dts. (Ticks of at least three microseconds, so that rounding cannot decide.) */
  lemma VideoMarkSoundIff(cfg: Config, s: State, f: Feed)
    requires Single(cfg) && s.Valid(cfg) && Complete(cfg, s.buf) && FirstIdx(s.buf, Video, 0) >= 0
    requires f.Brought(First(s.buf, Video, 0)) && s.highestVideo[0] == f.Top() && f.den * 3 <= 1_000_000
    ensures var first, t := First(s.buf, Video, 0), StartTimes(cfg, s);
            t.highestVideo[0] <= Usec(f.last - t.videoOffset[0], f.den) + 1 <==> first.pts <= first.dts
  {
    SingleFirsts(cfg, s);
    var p := First(s.buf, Video, 0);
    MarkSoundIff(f, p.pts, p.dts);
  }

  lemma MarkSoundIff(f: Feed, pts: int, dts: int)
    requires f.seen && dts <= f.last && f.den * 3 <= 1_000_000
    ensures f.Top() - (f.base + Usec(dts, f.den)) <= Usec(f.last - pts, f.den) + 1 <==> pts <= dts
  {
    UsecDifference(f.last, dts, f.den);
    if pts <= dts {
      UsecMonotone(f.last - dts, f.last - pts, f.den);
    } else {
      UsecGrows(f.last - pts, f.last - dts, f.den, 3);
    }
  }
}

/** Any number of video encoders and one audio encoder, from a reset output on: each video
    track is a stream of its own, from its own feed and with its own offset and mark. */
module InterleaveMany {
  import opened Packets
  import opened InterleaveSpec
  import opened InterleaveRuns
  import opened InterleaveStartup
  import InterleaveReset
  import InterleaveSkips

  /** One feed for each video slot, and one for the audio encoder. */
  datatype Streams = Streams(video: seq<Feed>, audio: Feed) {
    predicate Valid() {
      |video| == MaxVideo
    }

    function Of(p: Packet): Feed
      requires Valid() && (p.kind.Video? ==> p.track < MaxVideo)
    {
      if p.kind.Video? then video[p.track] else audio
    }

    function Next(p: Packet): (r: Streams)
      requires Valid() && (p.kind.Video? ==> p.track < MaxVideo)
      ensures r.Valid() && r.Of(p) == Of(p).Next(p)
    {
      if p.kind.Video? then this.(video := video[p.track := video[p.track].Next(p)])
      else this.(audio := audio.Next(p))
    }
  }

  ghost predicate OneAudio(cfg: Config) {
    && cfg.Valid() && true in cfg.audio
    && forall i :: 0 <= i < MaxAudio && i != FirstSlot(cfg.audio) ==> !cfg.audio[i]
  }

  /** A run in which each encoder's dts strictly increases. */
  predicate Supplied(cfg: Config, fs: Streams, ps: seq<Packet>)
    requires cfg.Valid() && fs.Valid()
    decreases |ps|
  {
    ps != [] ==> Belongs(cfg, ps[0]) && fs.Of(ps[0]).Brings(ps[0]) && Supplied(cfg, fs.Next(ps[0]), ps[1..])
  }

  /** The marks of a started output, from how far the feeds have come. */
  function MarkOf(off: int, f: Feed): int {
    Usec(f.last - off, f.den)
  }

  function StreamMarks(cfg: Config, s: State, fs: Streams): (m: Marks)
    requires OneAudio(cfg) && s.Valid(cfg) && fs.Valid()
    ensures |m.video| == MaxVideo
  {
    Marks(seq(MaxVideo, i requires 0 <= i < MaxVideo => MarkOf(s.videoOffset[i], fs.video[i])),
          MarkOf(s.audioOffset[FirstSlot(cfg.audio)], fs.audio))
  }

  // ----- Before the start -----

  /** The buffer is in order and holds what the feeds brought, and no highest mark is ahead of
      its feed. */
  ghost predicate Held(cfg: Config, s: State, fs: Streams) {
    && OneAudio(cfg) && s.Valid(cfg) && fs.Valid() && s.sent == [] && Strict(s.buf)
    && (forall p <- s.buf :: fs.Of(p).Brought(p))
    && (forall i :: 0 <= i < MaxVideo && cfg.video[i] ==> s.highestVideo[i] <= fs.video[i].Top())
    && s.highestAudio <= fs.audio.Top()
  }

  lemma SuffixIsHeld(cfg: Config, s: State, fs: Streams, idx: nat)
    requires Held(cfg, s, fs) && idx <= |s.buf|
    ensures Held(cfg, Discard(s, idx), fs)
  {
    StrictConcat(s.buf[..idx], s.buf[idx..]);
    assert s.buf == s.buf[..idx] + s.buf[idx..];
  }

  lemma NextHolds(cfg: Config, s: State, fs: Streams, p: Packet)
    requires Held(cfg, s, fs) && Belongs(cfg, p) && fs.Of(p).Brings(p)
    ensures Held(cfg, s, fs.Next(p))
  {
    FeedGrows(fs.Of(p), p);
  }

  lemma AcceptIsHeld(cfg: Config, s: State, fs: Streams, p: Packet)
    requires Held(cfg, s, fs) && Belongs(cfg, p) && fs.Of(p).Brings(p)
    ensures Held(cfg, Accept(cfg, s, p), fs.Next(p))
  {
    FeedGrows(fs.Of(p), p);
    forall x <- s.buf | SameStream(x, p) ensures x.dtsUsec != p.dtsUsec {
      UsecGrows(x.dts, p.dts, p.timebaseDen, 1);
    }
    InsertStrict(s.buf, p);
    InsertMembers(s.buf, p);
    NextHolds(cfg, s, fs, p);
  }

  lemma FailedStartIsHeld(cfg: Config, s: State, fs: Streams)
    requires Held(cfg, s, fs) && !Ready(cfg, s)
    ensures Held(cfg, Start(cfg, s), fs)
  {
    var prune := PrunePremature(cfg, s).1;
    if prune != -1 {
      var idx := if prune != 0 then prune else StartIdx(s.buf);
      SuffixIsHeld(cfg, s, fs, idx);
      FailedInitializeIsHeld(cfg, Discard(s, idx), fs);
    }
  }

  lemma FailedInitializeIsHeld(cfg: Config, s: State, fs: Streams)
    requires Held(cfg, s, fs) && cfg.video[0] && !Initialize(cfg, s).1
    ensures Held(cfg, Initialize(cfg, s).0, fs)
  {
    if CheckStreams(cfg, s).1 {
      assert HasFirst(s.buf, cfg.video, Video, 0);
      if !AudioTooEarly(cfg, s) {
        FailedTrimIsHeld(cfg, s, fs);
      }
    }
  }

  lemma FailedTrimIsHeld(cfg: Config, s: State, fs: Streams)
    requires Held(cfg, s, fs) && FirstIdx(s.buf, Video, 0) >= 0 && !TrimAndStart(cfg, s).1
    ensures Held(cfg, TrimAndStart(cfg, s).0, fs)
  {
    SuffixIsHeld(cfg, s, fs, StartIdx(s.buf));
    CheckIsHeld(cfg, Discard(s, StartIdx(s.buf)), fs);
  }

  lemma CheckIsHeld(cfg: Config, s: State, fs: Streams)
    requires Held(cfg, s, fs)
    ensures Held(cfg, CheckStreams(cfg, s).0, fs)
  {
  }

  lemma TrimmedIsHeld(cfg: Config, s: State, fs: Streams)
    requires Held(cfg, s, fs) && AllReceived(cfg, s) && Ready(cfg, s)
    ensures Held(cfg, Trimmed(cfg, s), fs) && AllReceived(cfg, Trimmed(cfg, s))
  {
    var prune := PrunePremature(cfg, s).1;
    SuffixIsHeld(cfg, s, fs, if prune != 0 then prune else StartIdx(s.buf));
    var s1 := Prune(cfg, s).0;
    SuffixIsHeld(cfg, s1, fs, StartIdx(s1.buf));
  }

  /** A callback before the start keeps the output so, or starts it from such a state. */
  lemma UnstartedStep(cfg: Config, s: State, fs: Streams, p: Packet)
    requires Held(cfg, s, fs) && !AllReceived(cfg, s) && Belongs(cfg, p) && fs.Of(p).Brings(p)
    ensures if StartsAt(cfg, s, p)
            then var b := Trimmed(cfg, Arrived(cfg, s, p));
                 && Held(cfg, b, fs.Next(p)) && AllReceived(cfg, b)
                 && Step(cfg, s, p) == ResortAndSend(cfg, StartTimes(cfg, b))
            else Held(cfg, Step(cfg, s, p), fs.Next(p))
  {
    if Unwanted(cfg, s, p) {
      SuffixIsHeld(cfg, s, fs, UnusedIdx(s.buf, p.dtsUsec));
      NextHolds(cfg, Discard(s, UnusedIdx(s.buf, p.dtsUsec)), fs, p);
    } else {
      AcceptIsHeld(cfg, CheckReceived(cfg, s, p), fs, p);
      var t := Arrived(cfg, s, p);
      if AllReceived(cfg, t) {
        if Ready(cfg, t) {
          TrimmedIsHeld(cfg, t, fs.Next(p));
        } else {
          FailedStartIsHeld(cfg, t, fs.Next(p));
        }
      }
    }
  }

  /** The marks of the streams that count as received are right at their feeds. */
  ghost predicate Exact(cfg: Config, s: State, fs: Streams)
    requires OneAudio(cfg) && s.Valid(cfg) && fs.Valid()
  {
    && (forall i :: 0 <= i < MaxVideo && cfg.video[i] && s.receivedVideo[i] ==> s.highestVideo[i] == fs.video[i].Top())
    && s.highestAudio == fs.audio.Top()
  }

  /** The same marks, and no stream received that was not. */
  predicate SameMarked(s: State, t: State)
    requires |s.receivedVideo| == |t.receivedVideo| == MaxVideo
  {
    && t.highestVideo == s.highestVideo && t.highestAudio == s.highestAudio
    && forall i :: 0 <= i < MaxVideo && t.receivedVideo[i] ==> s.receivedVideo[i]
  }

  lemma FailedStartSameMarked(cfg: Config, s: State)
    requires cfg.Valid() && s.Valid(cfg) && !Ready(cfg, s)
    ensures SameMarked(s, Start(cfg, s))
  {
    var (s1, pruned) := Prune(cfg, s);
    if pruned {
      FailedInitializeSameMarked(cfg, s1);
    }
  }

  lemma FailedInitializeSameMarked(cfg: Config, s: State)
    requires cfg.Valid() && s.Valid(cfg) && cfg.video[0] && !Initialize(cfg, s).1
    ensures SameMarked(s, Initialize(cfg, s).0)
  {
    if true in cfg.audio && CheckStreams(cfg, s).1 {
      assert HasFirst(s.buf, cfg.video, Video, 0);
    }
  }

  lemma TrimmedSameMarked(cfg: Config, s: State)
    requires cfg.Valid() && s.Valid(cfg) && Ready(cfg, s)
    ensures SameMarked(s, Trimmed(cfg, s))
  {
  }

  lemma ArrivalIsExact(cfg: Config, s: State, fs: Streams, p: Packet)
    requires Held(cfg, s, fs) && Exact(cfg, s, fs) && Belongs(cfg, p) && fs.Of(p).Brings(p)
    ensures Exact(cfg, Arrived(cfg, s, p), fs.Next(p))
  {
    FeedGrows(fs.Of(p), p);
  }

  lemma ExactStep(cfg: Config, s: State, fs: Streams, p: Packet)
    requires Held(cfg, s, fs) && Exact(cfg, s, fs) && !AllReceived(cfg, s) && Belongs(cfg, p) && fs.Of(p).Brings(p)
    ensures if StartsAt(cfg, s, p) then Exact(cfg, Trimmed(cfg, Arrived(cfg, s, p)), fs.Next(p))
            else Exact(cfg, Step(cfg, s, p), fs.Next(p))
  {
    if !Unwanted(cfg, s, p) {
      var t := Arrived(cfg, s, p);
      ArrivalIsExact(cfg, s, fs, p);
      if AllReceived(cfg, t) {
        if Ready(cfg, t) {
          TrimmedSameMarked(cfg, t);
        } else {
          FailedStartSameMarked(cfg, t);
        }
      }
    }
  }

  // ----- The start -----

  /** No offset is taken from a packet that is shown later than it is decoded. */
  predicate ShownByDecode(cfg: Config, b: State)
    requires cfg.Valid() && b.Valid(cfg) && Complete(cfg, b.buf)
  {
    forall i :: 0 <= i < MaxVideo && cfg.video[i] ==>
      && HasFirst(b.buf, cfg.video, Video, i)
      && First(b.buf, Video, i).pts <= First(b.buf, Video, i).dts
  }

  /** The feeds of all filled slots have brought something. */
  ghost predicate Live(cfg: Config, fs: Streams)
    requires cfg.Valid() && fs.Valid()
  {
    fs.audio.Live() && forall i :: 0 <= i < MaxVideo && cfg.video[i] ==> fs.video[i].Live()
  }

  lemma BroughtIsLive(f: Feed, p: Packet)
    requires f.Brought(p)
    ensures f.Live()
  {
    UsecMonotone(p.dts, f.last, f.den);
  }

  lemma StartIsLive(cfg: Config, b: State, fs: Streams)
    requires Held(cfg, b, fs) && Complete(cfg, b.buf)
    ensures Live(cfg, fs)
  {
    forall i | 0 <= i < MaxVideo && cfg.video[i] ensures fs.video[i].Live() {
      assert HasFirst(b.buf, cfg.video, Video, i);
      BroughtIsLive(fs.video[i], First(b.buf, Video, i));
    }
    assert HasFirst(b.buf, cfg.audio, Audio, FirstSlot(cfg.audio));
    BroughtIsLive(fs.audio, First(b.buf, Audio, FirstSlot(cfg.audio)));
  }

  lemma StartMarkFields(cfg: Config, b: State, i: nat)
    requires OneAudio(cfg) && b.Valid(cfg) && Complete(cfg, b.buf) && i < MaxVideo && cfg.video[i]
    ensures HasFirst(b.buf, cfg.video, Video, i) && HasFirst(b.buf, cfg.audio, Audio, FirstSlot(cfg.audio))
    ensures var m, v, a := StartMarks(cfg, b), First(b.buf, Video, i), First(b.buf, Audio, FirstSlot(cfg.audio));
            && m.videoOffset[i] == v.pts && m.highestVideo[i] == b.highestVideo[i] - v.dtsUsec
            && m.audioOffset[FirstSlot(cfg.audio)] == a.dts && m.highestAudio == b.highestAudio - a.dtsUsec
  {
    assert HasFirst(b.buf, cfg.video, Video, i) && HasFirst(b.buf, cfg.audio, Audio, FirstSlot(cfg.audio));
  }

  /** The mark of one video track, against how far its stream has come. */
  lemma TrackMarkSound(f: Feed, highest: int, first: Packet)
    requires f.Brought(first) && highest <= f.Top() && first.pts <= first.dts
    ensures highest - first.dtsUsec <= MarkOf(first.pts, f) + 1
  {
    RebasedMark(f, highest, first);
    UsecMonotone(f.last - first.dts, f.last - first.pts, f.den);
  }

  lemma VideoMarkAtStart(cfg: Config, b: State, fs: Streams, i: nat)
    requires Held(cfg, b, fs) && Complete(cfg, b.buf) && ShownByDecode(cfg, b) && i < MaxVideo && cfg.video[i]
    ensures var m := StartMarks(cfg, b); m.highestVideo[i] <= MarkOf(m.videoOffset[i], fs.video[i]) + 1
  {
    StartMarkFields(cfg, b, i);
    TrackMarkSound(fs.video[i], b.highestVideo[i], First(b.buf, Video, i));
  }

  lemma AudioMarkAtStart(cfg: Config, b: State, fs: Streams)
    requires Held(cfg, b, fs) && Complete(cfg, b.buf)
    ensures var m := StartMarks(cfg, b); m.highestAudio <= MarkOf(m.audioOffset[FirstSlot(cfg.audio)], fs.audio) + 1
  {
    StartMarkFields(cfg, b, FirstSlot(cfg.video));
    RebasedMark(fs.audio, b.highestAudio, First(b.buf, Audio, FirstSlot(cfg.audio)));
  }

  lemma StartGateSound(cfg: Config, b: State, fs: Streams)
    requires Held(cfg, b, fs) && Complete(cfg, b.buf) && ShownByDecode(cfg, b)
    ensures var m := StartMarks(cfg, b); GateSound(cfg, m, StreamMarks(cfg, m, fs))
  {
    forall i | 0 <= i < MaxVideo && cfg.video[i]
      ensures StartMarks(cfg, b).highestVideo[i] <= MarkOf(StartMarks(cfg, b).videoOffset[i], fs.video[i]) + 1 {
      VideoMarkAtStart(cfg, b, fs, i);
    }
    AudioMarkAtStart(cfg, b, fs);
    MarksAreSound(cfg, StartMarks(cfg, b), fs);
  }

  lemma MarksAreSound(cfg: Config, m: State, fs: Streams)
    requires OneAudio(cfg) && m.Valid(cfg) && fs.Valid()
    requires forall i :: 0 <= i < MaxVideo && cfg.video[i] ==>
               m.highestVideo[i] <= MarkOf(m.videoOffset[i], fs.video[i]) + 1
    requires m.highestAudio <= MarkOf(m.audioOffset[FirstSlot(cfg.audio)], fs.audio) + 1
    ensures GateSound(cfg, m, StreamMarks(cfg, m, fs))
  {
  }

  /** A start lowers every mark to how far its stream has come since the packet its time begins
      with, within a microsecond. */
  lemma StartMarksFollow(cfg: Config, b: State, fs: Streams, i: nat)
    requires Held(cfg, b, fs) && Exact(cfg, b, fs) && AllReceived(cfg, b) && Complete(cfg, b.buf)
    requires i < MaxVideo && cfg.video[i]
    ensures Follow(cfg, b, fs, i)
  {
    StartMarkFields(cfg, b, i);
    LoweredFollows(fs.video[i], First(b.buf, Video, i));
    LoweredFollows(fs.audio, First(b.buf, Audio, FirstSlot(cfg.audio)));
  }

  lemma LoweredFollows(f: Feed, first: Packet)
    requires f.Brought(first)
    ensures -1 <= f.Top() - first.dtsUsec - MarkOf(first.dts, f) <= 1
  {
    UsecDifference(f.last, first.dts, f.den);
  }

  function OffsetOf(cfg: Config, s: State, p: Packet): int
    requires cfg.Valid() && s.Valid(cfg) && Belongs(cfg, p)
  {
    if p.kind.Video? then s.videoOffset[p.track] else s.audioOffset[p.track]
  }

  lemma MarkIsOf(cfg: Config, s: State, fs: Streams, p: Packet)
    requires OneAudio(cfg) && s.Valid(cfg) && fs.Valid() && Belongs(cfg, p)
    ensures StreamMarks(cfg, s, fs).Of(p) == MarkOf(OffsetOf(cfg, s, p), fs.Of(p))
    ensures StreamMarks(cfg, s, fs).Of(p) == StreamMarks(cfg, s, fs).Of(Rebase(cfg, s, p))
  {
  }

  lemma StartBufferBelowMarks(cfg: Config, b: State, fs: Streams, m: State)
    requires Held(cfg, b, fs) && m.Valid(cfg)
    ensures forall x <- RebaseAll(cfg, m, b.buf) :: Belongs(cfg, x) && x.dtsUsec <= StreamMarks(cfg, m, fs).Of(x)
  {
    var ps := RebaseAll(cfg, m, b.buf);
    forall x <- ps ensures Belongs(cfg, x) && x.dtsUsec <= StreamMarks(cfg, m, fs).Of(x) {
      var i :| 0 <= i < |ps| && ps[i] == x;
      var p := b.buf[i];
      MarkIsOf(cfg, m, fs, p);
      UsecMonotone(p.dts - OffsetOf(cfg, m, p), fs.Of(p).last - OffsetOf(cfg, m, p), p.timebaseDen);
    }
  }

  lemma StartBufferDistinct(cfg: Config, b: State, fs: Streams, m: State)
    requires Held(cfg, b, fs) && m.Valid(cfg)
    ensures DistinctTimes(RebaseAll(cfg, m, b.buf))
  {
    var ps := RebaseAll(cfg, m, b.buf);
    forall i, j | 0 <= i < j < |ps| && SameStream(ps[i], ps[j]) ensures ps[i].dtsUsec != ps[j].dtsUsec {
      var x, y := b.buf[i], b.buf[j];
      assert x in b.buf && y in b.buf && Before(x, y) && x.track == y.track;
      var off := OffsetOf(cfg, m, x);
      if x.dts < y.dts {
        UsecGrows(x.dts - off, y.dts - off, x.timebaseDen, 1);
      } else {
        UsecGrows(y.dts - off, x.dts - off, x.timebaseDen, 1);
      }
    }
  }

  lemma BeginFields(cfg: Config, b: State)
    requires OneAudio(cfg) && b.Valid(cfg) && Complete(cfg, b.buf)
    ensures var m, u := StartMarks(cfg, b), InterleaveReset.Begin(cfg, b);
            && m == b.(videoOffset := m.videoOffset, audioOffset := m.audioOffset,
                       highestVideo := m.highestVideo, highestAudio := m.highestAudio)
            && u == m.(buf := Resort(RebaseAll(cfg, m, b.buf)))
  {
  }

  /** The sorted state a start leaves is one that the run theorems apply to. */
  lemma ManyStartSound(cfg: Config, b: State, fs: Streams)
    requires Held(cfg, b, fs) && AllReceived(cfg, b) && Complete(cfg, b.buf) && ShownByDecode(cfg, b)
    ensures var u := InterleaveReset.Begin(cfg, b); Inv(cfg, u, StreamMarks(cfg, u, fs)) && Live(cfg, fs)
  {
    var m, u := StartMarks(cfg, b), InterleaveReset.Begin(cfg, b);
    BeginFields(cfg, b);
    StartIsLive(cfg, b, fs);
    StartGateSound(cfg, b, fs);
    StartBufferBelowMarks(cfg, b, fs, m);
    StartBufferDistinct(cfg, b, fs, m);
    ResortStrict(RebaseAll(cfg, m, b.buf));
    assert StreamMarks(cfg, u, fs) == StreamMarks(cfg, m, fs);
    FreshInv(cfg, u, StreamMarks(cfg, u, fs));
  }

  // ----- After the start -----

  lemma NextMark(cfg: Config, s: State, fs: Streams, p: Packet)
    requires OneAudio(cfg) && s.Valid(cfg) && fs.Valid() && Live(cfg, fs) && Belongs(cfg, p) && fs.Of(p).Brings(p)
    ensures var m, q := StreamMarks(cfg, s, fs), Rebase(cfg, s, p);
            m.Of(p) < q.dtsUsec && m.Bump(q) == StreamMarks(cfg, s, fs.Next(p))
    ensures Live(cfg, fs.Next(p))
  {
    MarkIsOf(cfg, s, fs, p);
    var off := OffsetOf(cfg, s, p);
    UsecGrows(fs.Of(p).last - off, p.dts - off, p.timebaseDen, 1);
    var m, q := StreamMarks(cfg, s, fs), Rebase(cfg, s, p);
    assert m.Bump(q).video == StreamMarks(cfg, s, fs.Next(p)).video;
  }

  lemma StartedStep(cfg: Config, s: State, fs: Streams, p: Packet)
    requires OneAudio(cfg) && s.Valid(cfg) && fs.Valid() && Live(cfg, fs) && Belongs(cfg, p) && fs.Of(p).Brings(p)
    requires Inv(cfg, s, StreamMarks(cfg, s, fs))
    ensures var t := Step(cfg, s, p); Inv(cfg, t, StreamMarks(cfg, t, fs.Next(p))) && Live(cfg, fs.Next(p))
  {
    NextMark(cfg, s, fs, p);
    StepKeepsInv(cfg, s, StreamMarks(cfg, s, fs), p);
    assert StreamMarks(cfg, Step(cfg, s, p), fs.Next(p)) == StreamMarks(cfg, s, fs.Next(p));
  }

  // ----- Whole runs -----

  /** The start is not skipped, and takes no offset from a packet shown later than decoded. */
  predicate StartsWell(cfg: Config, s: State, ps: seq<Packet>)
    requires cfg.Valid() && s.Valid(cfg) && forall p <- ps :: Belongs(cfg, p)
    decreases |ps|
  {
    ps != [] ==>
      && !InterleaveSkips.Skips(cfg, s, ps[0])
      && (StartsAt(cfg, s, ps[0]) ==> ShownByDecode(cfg, Trimmed(cfg, Arrived(cfg, s, ps[0]))))
      && StartsWell(cfg, Step(cfg, s, ps[0]), ps[1..])
  }

  ghost predicate Started(cfg: Config, s: State, fs: Streams)
    requires OneAudio(cfg) && s.Valid(cfg) && fs.Valid()
  {
    Live(cfg, fs) && Inv(cfg, s, StreamMarks(cfg, s, fs))
  }

  lemma StartingStep(cfg: Config, s: State, fs: Streams, p: Packet)
    requires Held(cfg, s, fs) && !AllReceived(cfg, s) && Belongs(cfg, p) && fs.Of(p).Brings(p)
    requires StartsAt(cfg, s, p) && ShownByDecode(cfg, Trimmed(cfg, Arrived(cfg, s, p)))
    ensures Started(cfg, Step(cfg, s, p), fs.Next(p))
  {
    UnstartedStep(cfg, s, fs, p);
    var b := Trimmed(cfg, Arrived(cfg, s, p));
    ManyStartSound(cfg, b, fs.Next(p));
    var u := InterleaveReset.Begin(cfg, b);
    SendKeepsInv(cfg, u, StreamMarks(cfg, u, fs.Next(p)));
    assert StreamMarks(cfg, Send(cfg, u), fs.Next(p)) == StreamMarks(cfg, u, fs.Next(p));
  }

  lemma {:induction false} ManyPhase(cfg: Config, s: State, fs: Streams, ps: seq<Packet>)
    requires OneAudio(cfg) && s.Valid(cfg) && fs.Valid() && Supplied(cfg, fs, ps) && forall p <- ps :: Belongs(cfg, p)
    requires (Held(cfg, s, fs) && !AllReceived(cfg, s)) || Started(cfg, s, fs)
    requires StartsWell(cfg, s, ps)
    ensures Strict(Run(cfg, s, ps).sent)
    decreases |ps|
  {
    if ps == [] {
      StrictConcat(s.sent, s.buf);
    } else {
      var p := ps[0];
      if Started(cfg, s, fs) {
        StartedStep(cfg, s, fs, p);
      } else if StartsAt(cfg, s, p) {
        StartingStep(cfg, s, fs, p);
      } else {
        UnstartedStep(cfg, s, fs, p);
      }
      ManyPhase(cfg, Step(cfg, s, p), fs.Next(p), ps[1..]);
    }
  }

  /** From a reset output, with any number of video encoders and one audio encoder, whatever
      order the packets come in: what is sent is strictly ordered, unless the start is skipped
      or takes the offset of some track from a packet that is shown later than it is decoded. */
  lemma ManyTracksOrdered(cfg: Config, fs: Streams, ps: seq<Packet>)
    requires OneAudio(cfg) && fs.Valid() && !fs.audio.seen && (forall f <- fs.video :: !f.seen)
    requires Supplied(cfg, fs, ps) && (forall p <- ps :: Belongs(cfg, p)) && StartsWell(cfg, Reset, ps)
    ensures Strict(Run(cfg, Reset, ps).sent)
  {
    ManyPhase(cfg, Reset, fs, ps);
  }

  lemma {:induction false} RunIsExact(cfg: Config, s: State, fs: Streams, ps: seq<Packet>)
    requires OneAudio(cfg) && s.Valid(cfg) && fs.Valid() && Supplied(cfg, fs, ps) && forall p <- ps :: Belongs(cfg, p)
    requires Held(cfg, s, fs) && Exact(cfg, s, fs) && !AllReceived(cfg, s)
    requires NeverReceived(cfg, s, ps)
    ensures var t, next := Run(cfg, s, ps), AheadOf(fs, cfg, ps); Held(cfg, t, next) && Exact(cfg, t, next)
    decreases |ps|
  {
    if ps != [] {
      UnstartedStep(cfg, s, fs, ps[0]);
      ExactStep(cfg, s, fs, ps[0]);
      if StartsAt(cfg, s, ps[0]) {
        InterleaveSkips.StartKeepsReceived(cfg, Arrived(cfg, s, ps[0]));
      }
      RunIsExact(cfg, Step(cfg, s, ps[0]), fs.Next(ps[0]), ps[1..]);
    }
  }

  /** After none of the packets every stream counts as received. */
  predicate NeverReceived(cfg: Config, s: State, ps: seq<Packet>)
    requires cfg.Valid() && s.Valid(cfg) && forall p <- ps :: Belongs(cfg, p)
    decreases |ps|
  {
    ps != [] ==> !AllReceived(cfg, Step(cfg, s, ps[0])) && NeverReceived(cfg, Step(cfg, s, ps[0]), ps[1..])
  }

  function AheadOf(fs: Streams, cfg: Config, ps: seq<Packet>): (r: Streams)
    requires cfg.Valid() && fs.Valid() && forall p <- ps :: Belongs(cfg, p)
    ensures r.Valid()
    decreases |ps|
  {
    if ps == [] then fs
    else
      assert ps[0] in ps && Belongs(cfg, ps[0]);
      AheadOf(fs.Next(ps[0]), cfg, ps[1..])
  }

  /** The marks of track i and of audio once b has started, to within a microsecond. */
  ghost predicate Follow(cfg: Config, b: State, fs: Streams, i: nat)
    requires OneAudio(cfg) && b.Valid(cfg) && fs.Valid() && Complete(cfg, b.buf) && i < MaxVideo && cfg.video[i]
  {
    && HasFirst(b.buf, cfg.video, Video, i) && HasFirst(b.buf, cfg.audio, Audio, FirstSlot(cfg.audio))
    && var m, v, a := StartMarks(cfg, b), First(b.buf, Video, i), First(b.buf, Audio, FirstSlot(cfg.audio));
       && -1 <= m.highestVideo[i] - MarkOf(v.dts, fs.video[i]) <= 1
       && -1 <= m.highestAudio - MarkOf(a.dts, fs.audio) <= 1
  }

  lemma StartFollows(cfg: Config, s: State, fs: Streams, p: Packet, i: nat)
    requires Held(cfg, s, fs) && Exact(cfg, s, fs) && !AllReceived(cfg, s) && Belongs(cfg, p) && fs.Of(p).Brings(p)
    requires StartsAt(cfg, s, p) && i < MaxVideo && cfg.video[i]
    ensures Follow(cfg, Trimmed(cfg, Arrived(cfg, s, p)), fs.Next(p), i)
  {
    UnstartedStep(cfg, s, fs, p);
    ExactStep(cfg, s, fs, p);
    StartMarksFollow(cfg, Trimmed(cfg, Arrived(cfg, s, p)), fs.Next(p), i);
  }

  lemma ResetIsExact(cfg: Config, fs: Streams)
    requires OneAudio(cfg) && fs.Valid() && !fs.audio.seen && (forall f <- fs.video :: !f.seen)
    ensures Held(cfg, Reset, fs) && Exact(cfg, Reset, fs) && !AllReceived(cfg, Reset)
  {
  }

  /** From a reset output, over any run up to the packet that starts it: every mark is lowered
      to how far its stream has come since the packet its time begins with. */
  lemma MarksFollowStreams(cfg: Config, fs: Streams, ps: seq<Packet>, p: Packet, i: nat)
    requires OneAudio(cfg) && fs.Valid() && !fs.audio.seen && (forall f <- fs.video :: !f.seen)
    requires Supplied(cfg, fs, ps) && (forall q <- ps :: Belongs(cfg, q)) && NeverReceived(cfg, Reset, ps)
    requires Belongs(cfg, p) && AheadOf(fs, cfg, ps).Of(p).Brings(p) && StartsAt(cfg, Run(cfg, Reset, ps), p)
    requires i < MaxVideo && cfg.video[i]
    ensures Follow(cfg, Trimmed(cfg, Arrived(cfg, Run(cfg, Reset, ps), p)), AheadOf(fs, cfg, ps).Next(p), i)
  {
    ResetIsExact(cfg, fs);
    RunIsExact(cfg, Reset, fs, ps);
    StartFollows(cfg, Run(cfg, Reset, ps), AheadOf(fs, cfg, ps), p, i);
  }
}

/** From a reset output with one video and one audio encoder through the start and on: which
    runs are in order depends on the packet the video offset is taken from. */
module InterleaveReset {
  import opened Packets
  import opened InterleaveSpec
  import opened InterleaveRuns
  import opened InterleaveStartup
  import opened InterleaveOrder

  // ----- Waiting for both streams -----

  lemma TrimmedKeepsCore(cfg: Config, s: State, fs: Feeds)
    requires Single(cfg) && Core(cfg, s, fs) && AllReceived(cfg, s) && Ready(cfg, s)
    ensures Core(cfg, Trimmed(cfg, s), fs) && AllReceived(cfg, Trimmed(cfg, s))
  {
    var prune := PrunePremature(cfg, s).1;
    var idx := if prune != 0 then prune else StartIdx(s.buf);
    SuffixKeepsCore(cfg, s, fs, idx);
    var s1 := Prune(cfg, s).0;
    SuffixKeepsCore(cfg, s1, fs, StartIdx(s1.buf));
  }

  /** A start that does not go through leaves the output waiting. */
  lemma NotReadyWaits(cfg: Config, s: State, fs: Feeds)
    requires Single(cfg) && Core(cfg, s, fs) && AllReceived(cfg, s) && FirstIdx(s.buf, Video, 0) >= 0
    requires !Ready(cfg, s)
    ensures Waiting(cfg, Start(cfg, s), fs)
  {
    var prune := PrunePremature(cfg, s).1;
    if prune != -1 {
      var idx := if prune != 0 then prune else StartIdx(s.buf);
      SuffixKeepsCore(cfg, s, fs, idx);
      InitializeWaits(cfg, Discard(s, idx), fs);
    }
  }

  lemma InitializeWaits(cfg: Config, s: State, fs: Feeds)
    requires Single(cfg) && Core(cfg, s, fs) && AllReceived(cfg, s) && !Initialize(cfg, s).1
    ensures Waiting(cfg, Initialize(cfg, s).0, fs)
  {
    CheckFailsWaiting(cfg, s, fs);
    if CheckStreams(cfg, s).1 {
      assert HasFirst(s.buf, cfg.video, Video, 0);
      if !AudioTooEarly(cfg, s) {
        SuffixKeepsCore(cfg, s, fs, StartIdx(s.buf));
        CheckFailsWaiting(cfg, Discard(s, StartIdx(s.buf)), fs);
      }
    }
  }

  lemma ArrivedKeepsCore(cfg: Config, s: State, fs: Feeds, p: Packet)
    requires Single(cfg) && Waiting(cfg, s, fs) && Belongs(cfg, p) && fs.Of(p.kind).Brings(p)
    requires !Unwanted(cfg, s, p)
    ensures var t := Arrived(cfg, s, p);
            Core(cfg, t, fs.Next(p)) && (t.receivedVideo[0] ==> FirstIdx(t.buf, Video, 0) >= 0)
  {
    SlotOf(cfg, p);
    var s1 := CheckReceived(cfg, s, p);
    AcceptKeepsCore(cfg, s1, fs, p);
    if s1.receivedVideo[0] {
      StillFirst(s1.buf, p, Video, 0);
    }
  }

  lemma UnwantedWaits(cfg: Config, s: State, fs: Feeds, p: Packet)
    requires Single(cfg) && Waiting(cfg, s, fs) && Belongs(cfg, p) && fs.Of(p.kind).Brings(p) && Unwanted(cfg, s, p)
    ensures Waiting(cfg, Step(cfg, s, p), fs.Next(p))
  {
    SlotOf(cfg, p);
    SuffixKeepsCore(cfg, s, fs, UnusedIdx(s.buf, p.dtsUsec));
    CoreGrows(cfg, Discard(s, UnusedIdx(s.buf, p.dtsUsec)), fs, p);
  }

  /** A callback before the start: the output waits on, or this one starts it, with sound
      streams behind it. */
  lemma WaitingStep(cfg: Config, s: State, fs: Feeds, p: Packet)
    requires Single(cfg) && Waiting(cfg, s, fs) && Belongs(cfg, p) && fs.Of(p.kind).Brings(p)
    ensures if StartsAt(cfg, s, p)
            then var b := Trimmed(cfg, Arrived(cfg, s, p));
                 && Core(cfg, b, fs.Next(p)) && AllReceived(cfg, b)
                 && Step(cfg, s, p) == ResortAndSend(cfg, StartTimes(cfg, b))
            else Waiting(cfg, Step(cfg, s, p), fs.Next(p))
  {
    if Unwanted(cfg, s, p) {
      UnwantedWaits(cfg, s, fs, p);
    } else {
      var t := Arrived(cfg, s, p);
      ArrivedKeepsCore(cfg, s, fs, p);
      if AllReceived(cfg, t) {
        if Ready(cfg, t) {
          TrimmedKeepsCore(cfg, t, fs.Next(p));
        } else {
          NotReadyWaits(cfg, t, fs.Next(p));
        }
      }
    }
  }

  // ----- The start -----

  /** The state a start leaves, sorted, before the first send. */
  function Begin(cfg: Config, b: State): (u: State)
    requires cfg.Valid() && b.Valid(cfg) && Complete(cfg, b.buf)
    ensures u.Valid(cfg) && |u.buf| == |b.buf|
    ensures StartTimes(cfg, b).buf != [] ==> ResortAndSend(cfg, StartTimes(cfg, b)) == Send(cfg, u)
  {
    var t := StartTimes(cfg, b);
    ResortBag(t.buf);
    assert |multiset(Resort(t.buf))| == |multiset(t.buf)|;
    assert forall p <- Resort(t.buf) :: p in multiset(Resort(t.buf));
    t.(buf := Resort(t.buf))
  }

  /** How much later than it is decoded the packet is shown that the offset is taken from. */
  function Delay(cfg: Config, b: State): int
    requires Single(cfg) && b.Valid(cfg) && Complete(cfg, b.buf)
  {
    assert HasFirst(b.buf, cfg.video, Video, 0);
    First(b.buf, Video, 0).pts - First(b.buf, Video, 0).dts
  }

  lemma SortedStartBegins(cfg: Config, b: State, fs: Feeds, m: State, t: State)
    requires Single(cfg) && Core(cfg, b, fs) && AllReceived(cfg, b) && fs.video.Live() && fs.audio.Live()
    requires m.Valid(cfg) && m == b.(videoOffset := m.videoOffset, audioOffset := m.audioOffset,
                                     highestVideo := m.highestVideo, highestAudio := m.highestAudio)
    requires m.highestAudio <= MarksOf(cfg, m, fs).audio + 1
    requires t.Valid(cfg) && t == m.(buf := RebaseAll(cfg, m, b.buf))
    ensures Begun(cfg, t.(buf := Resort(t.buf)), fs)
  {
    assert m == t.(buf := b.buf);
    RebasedBuffer(cfg, b, fs, t);
    SameMarks(cfg, m, t, fs);
    SameMarks(cfg, t, t.(buf := Resort(t.buf)), fs);
  }

  lemma StartFields(cfg: Config, b: State)
    requires cfg.Valid() && b.Valid(cfg) && Complete(cfg, b.buf)
    ensures var m, t := StartMarks(cfg, b), StartTimes(cfg, b);
            && m == b.(videoOffset := m.videoOffset, audioOffset := m.audioOffset,
                       highestVideo := m.highestVideo, highestAudio := m.highestAudio)
            && t == m.(buf := RebaseAll(cfg, m, b.buf))
  {
  }

  lemma AudioMarkSound(cfg: Config, b: State, fs: Feeds)
    requires Single(cfg) && Core(cfg, b, fs) && Complete(cfg, b.buf)
    ensures StartMarks(cfg, b).highestAudio <= MarksOf(cfg, StartMarks(cfg, b), fs).audio + 1
  {
    SingleFirsts(cfg, b);
    RebasedMark(fs.audio, b.highestAudio, First(b.buf, Audio, FirstSlot(cfg.audio)));
  }

  lemma StartBegins(cfg: Config, b: State, fs: Feeds)
    requires Single(cfg) && Core(cfg, b, fs) && AllReceived(cfg, b) && Complete(cfg, b.buf)
    ensures Begun(cfg, Begin(cfg, b), fs) && Begin(cfg, b).sent == []
  {
    BothFeedsLive(cfg, b, fs);
    StartFields(cfg, b);
    AudioMarkSound(cfg, b, fs);
    SortedStartBegins(cfg, b, fs, StartMarks(cfg, b), StartTimes(cfg, b));
  }

  /** The delay at which order cannot be lost: none for the full order, one tick for times. */
  function MaxDelay(order: Order): int {
    if order.Strictly? then 0 else 1
  }

  /** The lowered mark against the earliest video still to come. */
  lemma MarkAgainstNext(f: Feed, highest: int, first: Packet, d: nat)
    requires f.Live() && f.Brought(first) && highest <= f.Top() && first.pts - first.dts <= d <= 1
    ensures highest - first.dtsUsec <= Usec(f.last + 1 - first.pts, f.den) + d
  {
    UsecDifference(f.last, first.dts, f.den);
    UsecGrows(f.last - first.dts, f.last + 1 - first.dts, f.den, 1);
    UsecMonotone(f.last + 1 - first.dts - d, f.last + 1 - first.pts, f.den);
  }

  lemma NothingExposed(order: Order, cfg: Config, u: State, fs: Feeds)
    requires Single(cfg) && u.Valid(cfg) && fs.audio.den <= 1_000_000
    requires u.highestVideo[0] <= NextVideo(cfg, u, fs) + MaxDelay(order)
    ensures !AtRisk(order, cfg, u, fs)
  {
    assert forall t: int :: !Exposed(order, cfg, u, fs, t);
  }

  lemma RebasedIsSafe(order: Order, cfg: Config, u: State, fs: Feeds, highest: int, first: Packet)
    requires Single(cfg) && u.Valid(cfg) && fs.video.Live() && fs.audio.den <= 1_000_000
    requires fs.video.Brought(first) && highest <= fs.video.Top() && first.pts - first.dts <= MaxDelay(order)
    requires u.videoOffset[0] == first.pts && u.highestVideo[0] == highest - first.dtsUsec
    ensures !AtRisk(order, cfg, u, fs)
  {
    MarkAgainstNext(fs.video, highest, first, MaxDelay(order));
    NothingExposed(order, cfg, u, fs);
  }

  /** What the start does to the video stream. */
  lemma BeginVideo(cfg: Config, b: State)
    requires Single(cfg) && b.Valid(cfg) && Complete(cfg, b.buf)
    ensures FirstIdx(b.buf, Video, 0) >= 0
    ensures var u, first := Begin(cfg, b), First(b.buf, Video, 0);
            && u.videoOffset[0] == first.pts && u.highestVideo[0] == b.highestVideo[0] - first.dtsUsec
            && Delay(cfg, b) == first.pts - first.dts
  {
    SingleFirsts(cfg, b);
  }

  lemma SmallDelayIsSafe(order: Order, cfg: Config, b: State, fs: Feeds)
    requires Single(cfg) && Core(cfg, b, fs) && AllReceived(cfg, b) && Complete(cfg, b.buf)
    requires Delay(cfg, b) <= MaxDelay(order)
    ensures fs.audio.den <= 1_000_000 && !AtRisk(order, cfg, Begin(cfg, b), fs)
  {
    BothFeedsLive(cfg, b, fs);
    BeginVideo(cfg, b);
    RebasedIsSafe(order, cfg, Begin(cfg, b), fs, b.highestVideo[0], First(b.buf, Video, 0));
  }

  lemma SmallDelayIsKept(order: Order, cfg: Config, b: State, fs: Feeds)
    requires Single(cfg) && Core(cfg, b, fs) && AllReceived(cfg, b) && Complete(cfg, b.buf)
    requires Delay(cfg, b) <= MaxDelay(order)
    ensures StartTimes(cfg, b).buf != [] && Kept(order, cfg, ResortAndSend(cfg, StartTimes(cfg, b)), fs)
  {
    assert HasFirst(b.buf, cfg.video, Video, 0);
    StartBegins(cfg, b, fs);
    SmallDelayIsSafe(order, cfg, b, fs);
    SendKeepsOrder(order, cfg, Begin(cfg, b), fs);
  }

  // ----- Whole runs -----

  /** Whenever the run starts the output, it does so with a delay of at most d. */
  predicate Delays(cfg: Config, s: State, ps: seq<Packet>, d: int)
    requires Single(cfg) && s.Valid(cfg) && forall p <- ps :: Belongs(cfg, p)
    decreases |ps|
  {
    ps != [] ==>
      && (StartsAt(cfg, s, ps[0]) ==> Delay(cfg, Trimmed(cfg, Arrived(cfg, s, ps[0]))) <= d)
      && Delays(cfg, Step(cfg, s, ps[0]), ps[1..], d)
  }

  lemma {:induction false} RunPhase(order: Order, cfg: Config, s: State, fs: Feeds, ps: seq<Packet>)
    requires Single(cfg) && Fed(cfg, fs, ps) && forall p <- ps :: Belongs(cfg, p)
    requires Waiting(cfg, s, fs) || Kept(order, cfg, s, fs)
    requires Delays(cfg, s, ps, MaxDelay(order))
    ensures order.InOrder(Run(cfg, s, ps).sent)
    decreases |ps|
  {
    if ps != [] {
      var p := ps[0];
      if Waiting(cfg, s, fs) {
        WaitingStep(cfg, s, fs, p);
        if StartsAt(cfg, s, p) {
          SmallDelayIsKept(order, cfg, Trimmed(cfg, Arrived(cfg, s, p)), fs.Next(p));
        }
      } else {
        StepKeepsOrder(order, cfg, s, fs, p);
      }
      RunPhase(order, cfg, Step(cfg, s, p), fs.Next(p), ps[1..]);
    }
  }

  /** From a reset output, whatever order the packets come in and however the start goes: the
      packets sent are strictly ordered if the offset is taken from a packet that is not shown
      later than it is decoded, and their times never go back if it is at most one tick. */
  lemma WholeRunIsOrdered(order: Order, cfg: Config, video: Feed, audio: Feed, ps: seq<Packet>)
    requires Single(cfg) && !video.seen && !audio.seen
    requires Fed(cfg, Feeds(video, audio), ps) && forall p <- ps :: Belongs(cfg, p)
    requires Delays(cfg, Reset, ps, MaxDelay(order))
    ensures order.InOrder(Run(cfg, Reset, ps).sent)
  {
    ResetWaits(cfg, Feeds(video, audio));
    RunPhase(order, cfg, Reset, Feeds(video, audio), ps);
  }

  lemma {:induction false} RunWaitsOrBegins(cfg: Config, s: State, fs: Feeds, ps: seq<Packet>)
    requires Single(cfg) && Fed(cfg, fs, ps) && forall p <- ps :: Belongs(cfg, p)
    requires Waiting(cfg, s, fs) || Begun(cfg, s, fs)
    ensures Waiting(cfg, Run(cfg, s, ps), Ahead(fs, ps)) || Begun(cfg, Run(cfg, s, ps), Ahead(fs, ps))
    decreases |ps|
  {
    if ps != [] {
      var p := ps[0];
      if Waiting(cfg, s, fs) {
        WaitingStep(cfg, s, fs, p);
        if StartsAt(cfg, s, p) {
          var b := Trimmed(cfg, Arrived(cfg, s, p));
          StartBegins(cfg, b, fs.Next(p));
          SendKeepsBegun(cfg, Begin(cfg, b), fs.Next(p));
        }
      } else {
        StepIsAcceptAndSend(cfg, s, p);
        AcceptKeepsBegun(cfg, s, fs, p);
        SendKeepsBegun(cfg, Accept(cfg, s, Rebase(cfg, s, p)), fs.Next(p));
      }
      RunWaitsOrBegins(cfg, Step(cfg, s, p), fs.Next(p), ps[1..]);
    }
  }

  lemma StartIff(order: Order, cfg: Config, s: State, fs: Feeds, p: Packet)
    requires Single(cfg) && Waiting(cfg, s, fs) && Belongs(cfg, p) && fs.Of(p.kind).Brings(p) && StartsAt(cfg, s, p)
    ensures var next := fs.Next(p);
            && next.audio.den <= 1_000_000
            && (AlwaysInOrder(order, cfg, Step(cfg, s, p), next)
                <==> !AtRisk(order, cfg, Begin(cfg, Trimmed(cfg, Arrived(cfg, s, p))), next))
  {
    WaitingStep(cfg, s, fs, p);
    var b := Trimmed(cfg, Arrived(cfg, s, p));
    StartBegins(cfg, b, fs.Next(p));
    OrderKeptIff(order, cfg, Begin(cfg, b), fs.Next(p));
  }

  lemma ResetWaits(cfg: Config, fs: Feeds)
    requires Single(cfg) && !fs.video.seen && !fs.audio.seen
    ensures Waiting(cfg, Reset, fs)
  {
  }

  lemma UnstartedRunWaits(cfg: Config, s: State, fs: Feeds, ps: seq<Packet>)
    requires Single(cfg) && Waiting(cfg, s, fs) && Fed(cfg, fs, ps) && forall p <- ps :: Belongs(cfg, p)
    requires !AllReceived(cfg, Run(cfg, s, ps))
    ensures Waiting(cfg, Run(cfg, s, ps), Ahead(fs, ps))
  {
    RunWaitsOrBegins(cfg, s, fs, ps);
  }

  /** Any run from a reset output up to the packet that starts it: all that can follow is in
      order if and only if the state it begins with has no exposed audio packet. */
  lemma StartedRunIff(order: Order, cfg: Config, fs: Feeds, ps: seq<Packet>, p: Packet)
    requires Single(cfg) && !fs.video.seen && !fs.audio.seen
    requires Fed(cfg, fs, ps) && (forall q <- ps :: Belongs(cfg, q))
    requires Belongs(cfg, p) && Ahead(fs, ps).Of(p.kind).Brings(p) && StartsAt(cfg, Run(cfg, Reset, ps), p)
    ensures var s, next := Run(cfg, Reset, ps), Ahead(fs, ps).Next(p);
            && next.audio.den <= 1_000_000
            && (AlwaysInOrder(order, cfg, Step(cfg, s, p), next)
                <==> !AtRisk(order, cfg, Begin(cfg, Trimmed(cfg, Arrived(cfg, s, p))), next))
  {
    ResetWaits(cfg, fs);
    UnstartedRunWaits(cfg, Reset, fs, ps);
    StartIff(order, cfg, Run(cfg, Reset, ps), Ahead(fs, ps), p);
  }
}

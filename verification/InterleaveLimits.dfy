/** Inputs on which the interleaver does not keep its promise, found while proving the rest. */
module InterleaveLimits {
  import opened Packets
  import opened InterleaveSpec
  import opened InterleaveRuns
  import opened InterleaveStartup
  import opened InterleaveOrder
  import opened InterleaveReset
  import opened InterleaveSkips
  import opened InterleavePruning

  const OneEach := Config([true, false, false, false, false, false], [true, false, false, false, false, false],
                          [21_333, 0, 0, 0, 0, 0])

  /** A 25 Hz video packet. */
  function Frame(id: int, track: nat, pts: int, dts: int, key: bool): Packet {
    Packet(id, Video, track, pts, dts, dts * 40_000, 1, 25, key)
  }

  /** An audio packet on a millisecond clock. */
  function Sound(id: int, track: nat, ms: int): Packet {
    Packet(id, Audio, track, ms, ms, ms * 1000, 1, 1000, false)
  }

  function Started(buf: seq<Packet>, videoOffset: int, highestVideo: int, highestAudio: int, sent: seq<Packet>): State {
    State(buf, [true, false, false, false, false, false], true, [videoOffset, 0, 0, 0, 0, 0], [0, 0, 0, 0, 0, 0],
          [highestVideo, 0, 0, 0, 0, 0], highestAudio, sent, [])
  }

  function Later(a: int, b: int): int {
    if a < b then b else a
  }

  /** A started output with a packet just accepted, and the marks raised by it. */
  function Accepted(s: State, q: Packet, i: nat): (t: State)
    requires i <= |s.buf| && |s.videoOffset| > 0 && |s.highestVideo| > 0
    ensures |t.buf| == |s.buf| + 1
  {
    Started(s.buf[..i] + [q] + s.buf[i..], s.videoOffset[0],
            if q.kind.Video? then Later(s.highestVideo[0], q.dtsUsec) else s.highestVideo[0],
            if q.kind.Audio? then Later(s.highestAudio, q.dtsUsec) else s.highestAudio, s.sent)
  }

  lemma OneAccept(cfg: Config, s: State, raw: Packet, i: nat, q: Packet)
    requires cfg.Valid() && cfg.video == OneEach.video && s.Valid(cfg) && Belongs(cfg, raw)
    requires s == Started(s.buf, s.videoOffset[0], s.highestVideo[0], s.highestAudio, s.sent)
    requires var off := if raw.kind.Video? then s.videoOffset[0] else 0;
             q == raw.(dts := raw.dts - off, pts := raw.pts - off, dtsUsec := Usec(raw.dts - off, raw.timebaseDen))
    requires i <= |s.buf| && (forall j :: 0 <= j < i ==> !StopsAt(q, s.buf[j]))
             && (i < |s.buf| ==> StopsAt(q, s.buf[i]))
    ensures Rebase(cfg, s, raw) == q && Belongs(cfg, q) && Accept(cfg, s, q) == Accepted(s, q, i)
  {
    InsertIdxUnique(s.buf, q, i);
  }

  /** One callback of a started output: the rebased packet q goes to position i, and the
      packet then in front is sent because the other stream is past it. */
  lemma OneSend(cfg: Config, s: State, raw: Packet, i: nat, q: Packet)
    requires cfg.Valid() && cfg.video == OneEach.video && s.Valid(cfg) && Belongs(cfg, raw)
    requires s == Started(s.buf, s.videoOffset[0], s.highestVideo[0], s.highestAudio, s.sent)
    requires var off := if raw.kind.Video? then s.videoOffset[0] else 0;
             q == raw.(dts := raw.dts - off, pts := raw.pts - off, dtsUsec := Usec(raw.dts - off, raw.timebaseDen))
    requires i <= |s.buf| && (forall j :: 0 <= j < i ==> !StopsAt(q, s.buf[j]))
             && (i < |s.buf| ==> StopsAt(q, s.buf[i]))
    requires var t := Accepted(s, q, i);
             t.buf[0].dtsUsec < if t.buf[0].kind.Video? then t.highestAudio else t.highestVideo[0]
    ensures var t := Accepted(s, q, i);
            Step(cfg, s, raw) == t.(buf := t.buf[1..], sent := s.sent + [t.buf[0]])
  {
    OneAccept(cfg, s, raw, i, q);
    var t := Accept(cfg, s, q);
    assert t.buf[0] in t.buf && Belongs(cfg, t.buf[0]);
    assert forall k :: 0 < k < MaxVideo ==> !OneEach.video[k];
    assert Gate(cfg, t, t.buf[0]);
  }

  // ----- Three arrivals that start an output with one encoder of each kind -----

  /** Two video packets, the first of them a keyframe, and an audio packet at its time. */
  predicate Openers(v0: Packet, v1: Packet, a0: Packet) {
    && Is(v0, Video, 0) && v0.keyframe && v0.timebaseNum >= 0 && Is(v1, Video, 0) && Is(a0, Audio, 0)
    && 0 <= v0.dtsUsec == a0.dtsUsec < v1.dtsUsec
  }

  function Unbegun(buf: seq<Packet>, audio: bool, highestVideo: int, highestAudio: int): State {
    State(buf, [true, false, false, false, false, false], audio, [0, 0, 0, 0, 0, 0], [0, 0, 0, 0, 0, 0],
          [highestVideo, 0, 0, 0, 0, 0], highestAudio, [], [])
  }

  lemma FirstOpener(v0: Packet, v1: Packet, a0: Packet)
    requires Openers(v0, v1, a0)
    ensures OneEach.Valid() && Reset.Valid(OneEach) && Belongs(OneEach, v0)
    ensures Step(OneEach, Reset, v0) == Unbegun([v0], false, v0.dtsUsec, 0)
  {
    InsertIdxUnique([], v0, 0);
    assert Reset.receivedVideo[0 := true] == [true, false, false, false, false, false];
    assert Reset.highestVideo[0 := v0.dtsUsec] == [v0.dtsUsec, 0, 0, 0, 0, 0];
    assert v0.dtsUsec == 0 ==> Reset.highestVideo == [v0.dtsUsec, 0, 0, 0, 0, 0];
  }

  lemma SecondOpener(v0: Packet, v1: Packet, a0: Packet)
    requires Openers(v0, v1, a0)
    ensures var s := Unbegun([v0], false, v0.dtsUsec, 0);
            && OneEach.Valid() && s.Valid(OneEach) && Belongs(OneEach, v1)
            && Step(OneEach, s, v1) == Unbegun([v0, v1], false, v1.dtsUsec, 0)
  {
    InsertIdxUnique([v0], v1, 1);
    var s := Unbegun([v0], false, v0.dtsUsec, 0);
    assert s.receivedVideo[0 := true] == s.receivedVideo;
    assert s.highestVideo[0 := v1.dtsUsec] == [v1.dtsUsec, 0, 0, 0, 0, 0];
  }

  /** The third makes every stream received. */
  lemma ThirdOpener(v0: Packet, v1: Packet, a0: Packet)
    requires Openers(v0, v1, a0)
    ensures var s := Unbegun([v0, v1], false, v1.dtsUsec, 0);
            && OneEach.Valid() && s.Valid(OneEach) && Belongs(OneEach, a0) && !AllReceived(OneEach, s)
            && !Unwanted(OneEach, s, a0)
            && Arrived(OneEach, s, a0) == Unbegun([v0, a0, v1], true, v1.dtsUsec, a0.dtsUsec)
            && AllReceived(OneEach, Arrived(OneEach, s, a0))
  {
    InsertIdxUnique([v0, v1], a0, 1);
    assert Insert([v0, v1], a0) == [v0, a0, v1];
  }

  lemma {:induction false} ScanRest(cfg: Config, buf: seq<Packet>, t: int, i: nat, at: PruneScan)
    requires cfg.Valid() && i <= |cfg.audio| && at.Scanned? && 0 <= at.maxIdx < |buf|
    requires forall j :: i <= j < |cfg.audio| ==> !cfg.audio[j]
    ensures ScanAudio(cfg, buf, t, i, at) == at
    decreases |cfg.audio| - i
  {
    if i < |cfg.audio| {
      ScanRest(cfg, buf, t, i + 1, at);
    }
  }

  lemma OpenersFirsts(v0: Packet, v1: Packet, a0: Packet)
    requires Openers(v0, v1, a0)
    ensures var buf := [v0, a0, v1];
            && FirstIdx(buf, Video, 0) == 0 && FirstIdx(buf, Audio, 0) == 1 && LastIdx(buf, Audio, 0) == 1
            && OneEach.Valid() && Complete(OneEach, buf)
            && FirstSlot(OneEach.audio) == 0 && FirstSlot(OneEach.video) == 0
  {
    var buf := [v0, a0, v1];
    assert buf[0] == v0 && buf[1] == a0 && buf[2] == v1;
    assert Is(buf[0], Video, 0) && !Is(buf[0], Audio, 0) && Is(buf[1], Audio, 0) && !Is(buf[2], Audio, 0);
    assert OneEach.video[0] && OneEach.audio[0];
  }

  /** Nothing is pruned and nothing is trimmed: the start goes through, with the first video
      packet for the offset. */
  lemma OpenersStart(v0: Packet, v1: Packet, a0: Packet)
    requires Openers(v0, v1, a0)
    ensures var s := Unbegun([v0, a0, v1], true, v1.dtsUsec, a0.dtsUsec);
            && OneEach.Valid() && s.Valid(OneEach) && Ready(OneEach, s) && Trimmed(OneEach, s) == s
  {
    var s := Unbegun([v0, a0, v1], true, v1.dtsUsec, a0.dtsUsec);
    OpenersFirsts(v0, v1, a0);
    ScanRest(OneEach, s.buf, v0.dtsUsec, 1, Scanned(1, 0, 21_333, 1));
    assert ScanAudio(OneEach, s.buf, v0.dtsUsec, 0, Scanned(0, 0, 0, 0)) == Scanned(1, 0, 21_333, 1);
    assert PrunePremature(OneEach, s) == (s, 0);
    assert StartIdx(s.buf) == 0 && Discard(s, 0) == s;
    assert Prune(OneEach, s) == (s, true);
    assert CheckStreams(OneEach, s) == (s, true);
    assert !AudioTooEarly(OneEach, s);
  }

  // ----- An encoder that reorders frames -----

  lemma {:induction false} StaysReceived(cfg: Config, s: State, ps: seq<Packet>, d: int)
    requires Single(cfg) && s.Valid(cfg) && AllReceived(cfg, s) && forall p <- ps :: Belongs(cfg, p)
    ensures Delays(cfg, s, ps, d)
    decreases |ps|
  {
    if ps != [] {
      StepIsAcceptAndSend(cfg, s, ps[0]);
      StaysReceived(cfg, Step(cfg, s, ps[0]), ps[1..], d);
    }
  }

  /** A run that starts with a delay of at most d and goes out of order. */
  ghost predicate BreaksFrom(order: Order, cfg: Config, s: State, fs: Feeds, ps: seq<Packet>, d: int)
    requires Single(cfg) && s.Valid(cfg)
  {
    Breaks(order, cfg, s, fs, ps) && Delays(cfg, s, ps, d)
  }

  lemma BreaksCons(order: Order, cfg: Config, s: State, fs: Feeds, p: Packet, ps: seq<Packet>, d: int)
    requires Single(cfg) && s.Valid(cfg) && Belongs(cfg, p) && fs.Of(p.kind).Brings(p)
    requires BreaksFrom(order, cfg, Step(cfg, s, p), fs.Next(p), ps, d)
    requires StartsAt(cfg, s, p) ==> Delay(cfg, Trimmed(cfg, Arrived(cfg, s, p))) <= d
    ensures BreaksFrom(order, cfg, s, fs, [p] + ps, d)
  {
    BreaksAfter(order, cfg, s, fs, p, ps);
    assert ([p] + ps)[1..] == ps;
  }

  lemma OneVideoOneAudio()
    ensures Single(OneEach) && AudioSlot(OneEach) == 0
  {
    assert OneEach.audio[0];
  }

  /** What the three arrivals leave an audio packet to be exposed to. */
  lemma OpenersBegin(v0: Packet, v1: Packet, a0: Packet)
    requires Openers(v0, v1, a0)
    ensures Single(OneEach) && AudioSlot(OneEach) == 0
    ensures var b := Unbegun([v0, a0, v1], true, v1.dtsUsec, a0.dtsUsec);
            && b.Valid(OneEach) && Complete(OneEach, b.buf) && Delay(OneEach, b) == v0.pts - v0.dts
            && Begin(OneEach, b).highestVideo[0] == v1.dtsUsec - v0.dtsUsec
            && Begin(OneEach, b).videoOffset[0] == v0.pts && Begin(OneEach, b).audioOffset[0] == a0.dts
  {
    OneVideoOneAudio();
    OpenersFirsts(v0, v1, a0);
    var b := Unbegun([v0, a0, v1], true, v1.dtsUsec, a0.dtsUsec);
    SingleFirsts(OneEach, b);
    BeginVideo(OneEach, b);
  }

  /** The step that starts the output: all that follows has no other start. */
  lemma StartBreaks(order: Order, cfg: Config, s: State, fs: Feeds, p: Packet, ps: seq<Packet>)
    requires Single(cfg) && s.Valid(cfg) && Belongs(cfg, p) && fs.Of(p.kind).Brings(p) && StartsAt(cfg, s, p)
    requires Breaks(order, cfg, Step(cfg, s, p), fs.Next(p), ps)
    ensures BreaksFrom(order, cfg, s, fs, [p] + ps, Delay(cfg, Trimmed(cfg, Arrived(cfg, s, p))))
  {
    var d := Delay(cfg, Trimmed(cfg, Arrived(cfg, s, p)));
    StartKeepsReceived(cfg, Arrived(cfg, s, p));
    StaysReceived(cfg, Step(cfg, s, p), ps, d);
    BreaksCons(order, cfg, s, fs, p, ps, d);
  }

  /** A start that leaves an audio packet exposed. */
  lemma RiskyStart(order: Order, cfg: Config, s: State, fs: Feeds, p: Packet, k: int)
    requires Single(cfg) && Waiting(cfg, s, fs) && Belongs(cfg, p) && fs.Of(p.kind).Brings(p) && StartsAt(cfg, s, p)
    requires fs.Next(p).audio.last < k
    requires var u := Begin(cfg, Trimmed(cfg, Arrived(cfg, s, p)));
             Exposed(order, cfg, u, fs.Next(p), AudioTime(cfg, u, fs.Next(p), k))
    ensures exists ps :: Breaks(order, cfg, Step(cfg, s, p), fs.Next(p), ps)
  {
    StartIff(order, cfg, s, fs, p);
    var u := Begin(cfg, Trimmed(cfg, Arrived(cfg, s, p)));
    if !AtRisk(order, cfg, u, fs.Next(p)) {
      FutureAudioIsNotExposed(order, cfg, u, fs.Next(p), k);
    }
  }

  /** The third arrival is such a step. */
  lemma ThirdStarts(v0: Packet, v1: Packet, a0: Packet)
    requires Openers(v0, v1, a0)
    ensures var s := Unbegun([v0, v1], false, v1.dtsUsec, 0);
            && Single(OneEach) && AudioSlot(OneEach) == 0 && s.Valid(OneEach) && Belongs(OneEach, a0)
            && StartsAt(OneEach, s, a0)
            && var b := Trimmed(OneEach, Arrived(OneEach, s, a0));
            && Delay(OneEach, b) == v0.pts - v0.dts
            && Begin(OneEach, b).highestVideo[0] == v1.dtsUsec - v0.dtsUsec
            && Begin(OneEach, b).videoOffset[0] == v0.pts && Begin(OneEach, b).audioOffset[0] == a0.dts
  {
    OpenersBegin(v0, v1, a0);
    ThirdOpener(v0, v1, a0);
    OpenersStart(v0, v1, a0);
  }

  /** A risky start, and what follows it to the end of the order. */
  lemma RiskyStartBreaks(order: Order, cfg: Config, s: State, fs: Feeds, p: Packet, k: int)
    returns (ps: seq<Packet>)
    requires Single(cfg) && Waiting(cfg, s, fs) && Belongs(cfg, p) && fs.Of(p.kind).Brings(p) && StartsAt(cfg, s, p)
    requires fs.Next(p).audio.last < k
    requires var u := Begin(cfg, Trimmed(cfg, Arrived(cfg, s, p)));
             Exposed(order, cfg, u, fs.Next(p), AudioTime(cfg, u, fs.Next(p), k))
    ensures BreaksFrom(order, cfg, s, fs, [p] + ps, Delay(cfg, Trimmed(cfg, Arrived(cfg, s, p))))
  {
    RiskyStart(order, cfg, s, fs, p, k);
    ps :| Breaks(order, cfg, Step(cfg, s, p), fs.Next(p), ps);
    StartBreaks(order, cfg, s, fs, p, ps);
  }

  /** Two packets that leave the output waiting, and a third whose start is risky. */
  lemma ThreeStepsBreak(order: Order, cfg: Config, fs: Feeds, s1: State, s2: State,
                        p0: Packet, p1: Packet, p2: Packet, u: State, k: int, d: int)
    returns (ps: seq<Packet>)
    requires Single(cfg) && !fs.video.seen && !fs.audio.seen
    requires Belongs(cfg, p0) && fs.Of(p0.kind).Brings(p0) && !StartsAt(cfg, Reset, p0) && s1 == Step(cfg, Reset, p0)
    requires Belongs(cfg, p1) && fs.Next(p0).Of(p1.kind).Brings(p1) && !StartsAt(cfg, s1, p1) && s2 == Step(cfg, s1, p1)
    requires Belongs(cfg, p2) && fs.Next(p0).Next(p1).Of(p2.kind).Brings(p2) && StartsAt(cfg, s2, p2)
    requires var b := Trimmed(cfg, Arrived(cfg, s2, p2)); u == Begin(cfg, b) && d == Delay(cfg, b)
    requires var next := fs.Next(p0).Next(p1).Next(p2);
             next.audio.last < k && Exposed(order, cfg, u, next, AudioTime(cfg, u, next, k))
    ensures BreaksFrom(order, cfg, Reset, fs, ps, d)
  {
    ResetWaits(cfg, fs);
    WaitingStep(cfg, Reset, fs, p0);
    WaitingStep(cfg, s1, fs.Next(p0), p1);
    var more := RiskyStartBreaks(order, cfg, s2, fs.Next(p0).Next(p1), p2, k);
    BreaksCons(order, cfg, s1, fs.Next(p0), p1, [p2] + more, d);
    BreaksCons(order, cfg, Reset, fs, p0, [p1] + ([p2] + more), d);
    ps := [p0] + ([p1] + ([p2] + more));
  }

  lemma OpenersWait(v0: Packet, v1: Packet, a0: Packet)
    requires Openers(v0, v1, a0)
    ensures OneEach.Valid() && Reset.Valid(OneEach) && Belongs(OneEach, v0) && Belongs(OneEach, v1)
    ensures !StartsAt(OneEach, Reset, v0) && Step(OneEach, Reset, v0) == Unbegun([v0], false, v0.dtsUsec, 0)
    ensures var s1 := Unbegun([v0], false, v0.dtsUsec, 0);
            && s1.Valid(OneEach) && !StartsAt(OneEach, s1, v1)
            && Step(OneEach, s1, v1) == Unbegun([v0, v1], false, v1.dtsUsec, 0)
  {
    FirstOpener(v0, v1, a0);
    SecondOpener(v0, v1, a0);
    StillWaiting(OneEach, Reset, v0);
    StillWaiting(OneEach, Unbegun([v0], false, v0.dtsUsec, 0), v1);
  }

  lemma OpenersExposed(order: Order, fs: Feeds, u: State, v0: Packet, v1: Packet, a0: Packet, k: int)
    requires Single(OneEach) && AudioSlot(OneEach) == 0 && u.Valid(OneEach) && fs.video.last == v1.dts
    requires u.highestVideo[0] == v1.dtsUsec - v0.dtsUsec && u.videoOffset[0] == v0.pts && u.audioOffset[0] == a0.dts
    requires Usec(k - a0.dts, fs.audio.den) < v1.dtsUsec - v0.dtsUsec
    requires !order.NotPast(Usec(k - a0.dts, fs.audio.den), Usec(v1.dts + 1 - v0.pts, fs.video.den))
    ensures Exposed(order, OneEach, u, fs, AudioTime(OneEach, u, fs, k))
  {
  }

  /** Any such opening whose mark runs past the next video packet by an audio tick. */
  lemma OpenersBreak(order: Order, cfg: Config, fs: Feeds, v0: Packet, v1: Packet, a0: Packet, k: int,
                     d: int)
    returns (ps: seq<Packet>)
    requires cfg == OneEach && d == v0.pts - v0.dts && Openers(v0, v1, a0) && !fs.video.seen && !fs.audio.seen
    requires fs.video.Brings(v0) && fs.video.Next(v0).Brings(v1) && fs.audio.Brings(a0) && a0.dts < k
    requires Usec(k - a0.dts, fs.audio.den) < v1.dtsUsec - v0.dtsUsec
    requires !order.NotPast(Usec(k - a0.dts, fs.audio.den), Usec(v1.dts + 1 - v0.pts, fs.video.den))
    ensures Single(cfg) && BreaksFrom(order, cfg, Reset, fs, ps, d)
  {
    OpenersWait(v0, v1, a0);
    ThirdStarts(v0, v1, a0);
    var s1, s2 := Unbegun([v0], false, v0.dtsUsec, 0), Unbegun([v0, v1], false, v1.dtsUsec, 0);
    var b := Trimmed(cfg, Arrived(cfg, s2, a0));
    OpenersExposed(order, fs.Next(v0).Next(v1).Next(a0), Begin(cfg, b), v0, v1, a0, k);
    ps := ThreeStepsBreak(order, cfg, fs, s1, s2, v0, v1, a0, Begin(cfg, b), k, d);
  }

  // ----- The delay that is safe -----

  /** Every run from a reset output, of whatever encoders, that starts with a delay of at most d
      is in order. */
  ghost predicate SafeDelay(order: Order, d: int) {
    forall cfg: Config, fs: Feeds, ps: seq<Packet> ::
      Single(cfg) && !fs.video.seen && !fs.audio.seen ==> !BreaksFrom(order, cfg, Reset, fs, ps, d)
  }

  lemma SmallDelaysAreSafe(order: Order, d: int)
    requires d <= MaxDelay(order)
    ensures SafeDelay(order, d)
  {
    forall cfg: Config, fs: Feeds, ps: seq<Packet> | Single(cfg) && !fs.video.seen && !fs.audio.seen
      ensures !BreaksFrom(order, cfg, Reset, fs, ps, d) {
      if BreaksFrom(order, cfg, Reset, fs, ps, d) {
        LargerDelays(cfg, Reset, ps, d, MaxDelay(order));
        WholeRunIsOrdered(order, cfg, fs.video, fs.audio, ps);
      }
    }
  }

  lemma {:induction false} LargerDelays(cfg: Config, s: State, ps: seq<Packet>, d: int, e: int)
    requires Single(cfg) && s.Valid(cfg) && (forall p <- ps :: Belongs(cfg, p)) && Delays(cfg, s, ps, d) && d <= e
    ensures Delays(cfg, s, ps, e)
    decreases |ps|
  {
    if ps != [] {
      LargerDelays(cfg, Step(cfg, s, ps[0]), ps[1..], d, e);
    }
  }

  const NoFeeds := Feeds(Feed(0, 25, false, 0), Feed(0, 1000, false, 0))

  /** Times keep from going back, in every run, if and only if the packet the offset is taken
      from is shown at most one tick later than it is decoded. */
  lemma TimesKeptIff(d: int)
    ensures SafeDelay(ByTime, d) <==> d <= 1
  {
    if d <= 1 {
      SmallDelaysAreSafe(ByTime, d);
    } else {
      // shown at frame 2, and eight frames ahead of the audio: 380 ms of audio goes first
      var ps := OpenersBreak(ByTime, OneEach, NoFeeds, Frame(0, 0, 2, 0, true),
                             Frame(1, 0, 10, 10, false), Sound(2, 0, 0), 380, 2);
      LargerDelays(OneEach, Reset, ps, 2, d);
      assert BreaksFrom(ByTime, OneEach, Reset, NoFeeds, ps, d);
    }
  }

  const ThirdsAndMicros := Feeds(Feed(0, 3, false, 0), Feed(0, 1_000_000, false, 0))

  /** The full order, video before audio at equal times, is kept in every run if and only if
      that packet is not shown later than it is decoded. */
  lemma OrderKeptForDelayIff(d: int)
    ensures SafeDelay(Strictly, d) <==> d <= 0
  {
    if d <= 0 {
      SmallDelaysAreSafe(Strictly, d);
    } else {
      // three frames a second: the mark is rounded to one microsecond past the next frame
      var v0 := Packet(0, Video, 0, 2, 1, 333_333, 1, 3, true);
      var v1 := Packet(1, Video, 0, 3, 3, 1_000_000, 1, 3, false);
      var a0 := Packet(2, Audio, 0, 333_333, 333_333, 333_333, 1, 1_000_000, false);
      var ps := OpenersBreak(Strictly, OneEach, ThirdsAndMicros, v0, v1, a0, 999_999, 1);
      LargerDelays(OneEach, Reset, ps, 1, d);
      assert BreaksFrom(Strictly, OneEach, Reset, ThirdsAndMicros, ps, d);
    }
  }

  lemma {:induction false} RunAppend(cfg: Config, s: State, ps: seq<Packet>, qs: seq<Packet>)
    requires cfg.Valid() && s.Valid(cfg) && (forall p <- ps :: Belongs(cfg, p)) && (forall q <- qs :: Belongs(cfg, q))
    ensures Run(cfg, s, ps + qs) == Run(cfg, Run(cfg, s, ps), qs)
    decreases |ps|
  {
    if ps == [] {
      assert ps + qs == qs;
    } else {
      assert (ps + qs)[1..] == ps[1..] + qs;
      RunAppend(cfg, Step(cfg, s, ps[0]), ps[1..], qs);
    }
  }

  // Three video packets, the first decoded at 0 and shown at frame 5, as encoded and as
  // rebased by that pts; and audio at 0, 300, 350 and 500 ms, which rebasing leaves alone.
  const V0 := Frame(0, 0, 5, 0, true)
  const V1 := Frame(1, 0, 10, 10, false)
  const V2 := Frame(2, 0, 11, 11, false)
  const W0 := V0.(dts := -5, pts := 0, dtsUsec := -200_000)
  const W1 := V1.(dts := 5, pts := 5, dtsUsec := 200_000)
  const W2 := V2.(dts := 6, pts := 6, dtsUsec := 240_000)
  const A0 := Sound(10, 0, 0)
  const A1 := Sound(11, 0, 300)
  const A2 := Sound(12, 0, 350)
  const A3 := Sound(13, 0, 500)

  const BeforeStart := Unbegun([V0, A0, V1], true, 400_000, 0)
  const U0 := Started([A0, W1], 5, 400_000, 0, [W0])
  const U1 := Started([W1, A1], 5, 400_000, 300_000, [W0, A0])
  const U2 := Started([A1, A2], 5, 400_000, 350_000, [W0, A0, W1])
  const U3 := Started([A2, A3], 5, 400_000, 500_000, [W0, A0, W1, A1])
  const U4 := Started([A2, A3], 5, 400_000, 500_000, [W0, A0, W1, A1, W2])

  lemma MarksBeforeStart()
    ensures OneEach.Valid() && BeforeStart.Valid(OneEach) && Complete(OneEach, BeforeStart.buf)
    ensures StartMarks(OneEach, BeforeStart)
            == BeforeStart.(videoOffset := [5, 0, 0, 0, 0, 0], highestVideo := [400_000, 0, 0, 0, 0, 0])
  {
    var s := BeforeStart;
    assert s.buf[0] == V0 && s.buf[1] == A0 && s.buf[2] == V1;
    assert FirstIdx(s.buf, Video, 0) == 0 && FirstIdx(s.buf, Audio, 0) == 1;
    assert OneEach.video[0] && OneEach.audio[0];
    assert FirstSlot(OneEach.audio) == 0;
    assert HasFirst(s.buf, OneEach.video, Video, 0) && HasFirst(s.buf, OneEach.audio, Audio, 0);
    var marks := StartMarks(OneEach, s);
    assert marks.videoOffset == [5, 0, 0, 0, 0, 0];
    assert marks.audioOffset == [0, 0, 0, 0, 0, 0];
    assert marks.highestVideo == [400_000, 0, 0, 0, 0, 0];
  }

  lemma SortedAlready(ps: seq<Packet>)
    requires Strict(ps)
    ensures Resort(ps) == ps
  {
    ResortBag(ps);
    SortedUnique(ps, Resort(ps));
  }

  lemma FirstStates()
    ensures OneEach.Valid() && BeforeStart.Valid(OneEach) && Complete(OneEach, BeforeStart.buf)
    ensures StartTimes(OneEach, BeforeStart).buf != []
    ensures ResortAndSend(OneEach, StartTimes(OneEach, BeforeStart)) == U0
  {
    MarksBeforeStart();
    var t := StartTimes(OneEach, BeforeStart);
    assert t.buf == [W0, A0, W1];
    SortedAlready(t.buf);
    assert Gate(OneEach, t, W0);
  }

  lemma FirstStep()
    ensures OneEach.Valid() && U0.Valid(OneEach) && Belongs(OneEach, A1) && Step(OneEach, U0, A1) == U1
  {
    OneSend(OneEach, U0, A1, 2, A1);
  }

  lemma SecondStep()
    ensures OneEach.Valid() && U1.Valid(OneEach) && Belongs(OneEach, A2) && Step(OneEach, U1, A2) == U2
  {
    OneSend(OneEach, U1, A2, 2, A2);
  }

  lemma ThirdStep()
    ensures OneEach.Valid() && U2.Valid(OneEach) && Belongs(OneEach, A3) && Step(OneEach, U2, A3) == U3
  {
    OneSend(OneEach, U2, A3, 2, A3);
  }

  lemma FourthStep()
    ensures OneEach.Valid() && U3.Valid(OneEach) && Belongs(OneEach, V2) && Step(OneEach, U3, V2) == U4
  {
    OneSend(OneEach, U3, V2, 0, W2);
  }

  lemma RunCons(cfg: Config, s: State, p: Packet, ps: seq<Packet>)
    requires cfg.Valid() && s.Valid(cfg) && Belongs(cfg, p) && forall x <- ps :: Belongs(cfg, x)
    ensures Run(cfg, s, [p] + ps) == Run(cfg, Step(cfg, s, p), ps)
  {
    assert ([p] + ps)[1..] == ps;
  }

  /** The opening, from a reset output. */
  lemma ReorderedOpening()
    ensures OneEach.Valid() && forall p <- VideoOpening :: Belongs(OneEach, p)
    ensures Run(OneEach, Reset, VideoOpening) == U0
  {
    OpenersWait(V0, V1, A0);
    ThirdOpener(V0, V1, A0);
    OpenersStart(V0, V1, A0);
    FirstStates();
    var s1, s2 := Unbegun([V0], false, 0, 0), Unbegun([V0, V1], false, 400_000, 0);
    assert Step(OneEach, s2, A0) == U0;
    RunCons(OneEach, s2, A0, []);
    RunCons(OneEach, s1, V1, [A0] + []);
    RunCons(OneEach, Reset, V0, [V1] + ([A0] + []));
  }

  lemma ReorderedRest()
    ensures OneEach.Valid() && U0.Valid(OneEach) && forall p <- VideoRest :: Belongs(OneEach, p)
    ensures Run(OneEach, U0, VideoRest) == U4
  {
    FirstStep();
    SecondStep();
    ThirdStep();
    FourthStep();
    RunCons(OneEach, U3, V2, []);
    RunCons(OneEach, U2, A3, [V2] + []);
    RunCons(OneEach, U1, A2, [A3] + ([V2] + []));
    RunCons(OneEach, U0, A1, [A2] + ([A3] + ([V2] + [])));
  }

  const VideoOpening := [V0] + ([V1] + ([A0] + []))
  const VideoRest := [A1] + ([A2] + ([A3] + ([V2] + [])))
  const Reordered := [V0, V1, A0, A1, A2, A3, V2]

  lemma ReorderedInParts()
    ensures VideoOpening + VideoRest == Reordered
  {
  }

  /** One run from reset in full: the start lowers the video mark by the dts but the packets by
      the pts, so the gate opens five frames early and the audio at 300 ms goes out before the
      video at 240 ms. */
  lemma ReorderedVideoBreaksOrder()
    ensures OneEach.Valid() && Reset.Valid(OneEach) && forall p <- Reordered :: Belongs(OneEach, p)
    ensures Run(OneEach, Reset, Reordered).sent == [W0, A0, W1, A1, W2] && W2.dtsUsec < A1.dtsUsec
  {
    ReorderedInParts();
    ReorderedOpening();
    ReorderedRest();
    RunAppend(OneEach, Reset, VideoOpening, VideoRest);
  }

  // ----- Two audio encoders -----

  const TwoAudio := Config([true, false, false, false, false, false], [true, true, false, false, false, false],
                           [21_333, 21_333, 0, 0, 0, 0])

  // A keyframe and each track's first packet at time zero; a frame at one second, track 0's
  // audio from 500 ms on, and then track 1's at 400 ms.
  const K := Frame(0, 0, 0, 0, true)
  const B0 := Sound(1, 0, 0)
  const C0 := Sound(2, 1, 0)
  const L := Frame(3, 0, 25, 25, false)
  const B1 := Sound(4, 0, 500)
  const B2 := Sound(5, 0, 510)
  const B3 := Sound(6, 0, 520)
  const B4 := Sound(7, 0, 530)
  const C1 := Sound(8, 1, 400)

  const T0 := Started([K, B0, C0], 0, 0, 0, [])
  const T1 := Started([K, B0, C0, L], 0, 1_000_000, 0, [])
  const T2 := Started([B0, C0, B1, L], 0, 1_000_000, 500_000, [K])
  const T3 := Started([C0, B1, B2, L], 0, 1_000_000, 510_000, [K, B0])
  const T4 := Started([B1, B2, B3, L], 0, 1_000_000, 520_000, [K, B0, C0])
  const T5 := Started([B2, B3, B4, L], 0, 1_000_000, 530_000, [K, B0, C0, B1])

  lemma KeyframeFirst()
    ensures TwoAudio.Valid() && Reset.Valid(TwoAudio) && Belongs(TwoAudio, K)
    ensures Step(TwoAudio, Reset, K) == Unbegun([K], false, 0, 0)
  {
    InsertIdxUnique([], K, 0);
    assert Reset.receivedVideo[0 := true] == [true, false, false, false, false, false];
  }

  /** The start is tried, and finds no packet of audio track 1. */
  lemma OneTrackIsNotEnough()
    ensures var s := Unbegun([K], false, 0, 0);
            && TwoAudio.Valid() && s.Valid(TwoAudio) && Belongs(TwoAudio, B0)
            && Step(TwoAudio, s, B0) == Unbegun([K, B0], false, 0, 0)
  {
    var s := Unbegun([K], false, 0, 0);
    InsertIdxUnique([K], B0, 1);
    assert Insert([K], B0) == [K, B0];
    var t := Unbegun([K, B0], true, 0, 0);
    assert Arrived(TwoAudio, s, B0) == t;
    assert t.buf[0] == K && t.buf[1] == B0;
    assert FirstIdx(t.buf, Video, 0) == 0 && FirstIdx(t.buf, Audio, 0) == 1 && FirstIdx(t.buf, Audio, 1) == -1;
    assert ScanAudio(TwoAudio, t.buf, 0, 1, Scanned(1, 0, 21_333, 1)) == AudioMissing;
    assert PrunePremature(TwoAudio, t) == (t.(receivedAudio := false), -1);
  }

  lemma BothTracksFirsts()
    ensures var buf := [K, B0, C0];
            && FirstIdx(buf, Video, 0) == 0 && FirstIdx(buf, Audio, 0) == 1 && FirstIdx(buf, Audio, 1) == 2
            && LastIdx(buf, Audio, 0) == 1 && LastIdx(buf, Audio, 1) == 2
            && TwoAudio.Valid() && Complete(TwoAudio, buf)
            && FirstSlot(TwoAudio.audio) == 0 && FirstSlot(TwoAudio.video) == 0
  {
    var buf := [K, B0, C0];
    assert buf[0] == K && buf[1] == B0 && buf[2] == C0;
    assert TwoAudio.video[0] && TwoAudio.audio[0];
  }

  lemma BothTracksReady()
    ensures var t := Unbegun([K, B0, C0], true, 0, 0);
            && TwoAudio.Valid() && t.Valid(TwoAudio) && Ready(TwoAudio, t) && Trimmed(TwoAudio, t) == t
  {
    var t := Unbegun([K, B0, C0], true, 0, 0);
    BothTracksFirsts();
    ScanRest(TwoAudio, t.buf, 0, 2, Scanned(2, 0, 21_333, 2));
    assert ScanAudio(TwoAudio, t.buf, 0, 1, Scanned(1, 0, 21_333, 1)) == Scanned(2, 0, 21_333, 2);
    assert ScanAudio(TwoAudio, t.buf, 0, 0, Scanned(0, 0, 0, 0)) == Scanned(2, 0, 21_333, 2);
    assert PrunePremature(TwoAudio, t) == (t, 0);
    assert StartIdx(t.buf) == 0 && Discard(t, 0) == t;
    assert Prune(TwoAudio, t) == (t, true);
    assert CheckStreams(TwoAudio, t) == (t, true);
    assert !AudioTooEarly(TwoAudio, t);
  }

  lemma BothTracksMarks()
    ensures var t := Unbegun([K, B0, C0], true, 0, 0);
            TwoAudio.Valid() && t.Valid(TwoAudio) && Complete(TwoAudio, t.buf) && StartMarks(TwoAudio, t) == t
  {
    var t := Unbegun([K, B0, C0], true, 0, 0);
    BothTracksFirsts();
    var m := StartMarks(TwoAudio, t);
    assert m.videoOffset == [0, 0, 0, 0, 0, 0];
    assert m.audioOffset == [0, 0, 0, 0, 0, 0];
    assert m.highestVideo == [0, 0, 0, 0, 0, 0];
  }

  lemma BothTracksBegin()
    ensures var t := Unbegun([K, B0, C0], true, 0, 0);
            && TwoAudio.Valid() && t.Valid(TwoAudio) && Complete(TwoAudio, t.buf)
            && StartTimes(TwoAudio, t) == t && ResortAndSend(TwoAudio, t) == T0
  {
    var t := Unbegun([K, B0, C0], true, 0, 0);
    BothTracksMarks();
    assert RebaseAll(TwoAudio, t, t.buf) == t.buf;
    ResortThree(K, B0, C0);
  }

  lemma ResortThree(a: Packet, b: Packet, c: Packet)
    requires !StopsAt(b, a) && !StopsAt(c, a) && !StopsAt(c, b)
    ensures Resort([a, b, c]) == [a, b, c]
  {
    InsertIdxUnique([], a, 0);
    InsertIdxUnique([a], b, 1);
    InsertIdxUnique([a, b], c, 2);
    assert [a, b, c][..2] == [a, b] && [a, b][..1] == [a] && [a][..0] == [];
    assert Resort([a]) == [a] && Resort([a, b]) == [a, b];
  }

  lemma BothTracksStart()
    ensures var s := Unbegun([K, B0], false, 0, 0);
            && TwoAudio.Valid() && s.Valid(TwoAudio) && Belongs(TwoAudio, C0) && Step(TwoAudio, s, C0) == T0
  {
    var s := Unbegun([K, B0], false, 0, 0);
    InsertIdxUnique([K, B0], C0, 2);
    assert Insert([K, B0], C0) == [K, B0, C0];
    assert Arrived(TwoAudio, s, C0) == Unbegun([K, B0, C0], true, 0, 0);
    BothTracksReady();
    BothTracksBegin();
  }

  lemma LateFrameWaits()
    ensures TwoAudio.Valid() && T0.Valid(TwoAudio) && Belongs(TwoAudio, L) && Step(TwoAudio, T0, L) == T1
  {
    OneAccept(TwoAudio, T0, L, 3, L);
    assert !Gate(TwoAudio, T1, K);
  }

  lemma FirstGoesOut()
    ensures TwoAudio.Valid() && T1.Valid(TwoAudio) && Belongs(TwoAudio, B1) && Step(TwoAudio, T1, B1) == T2
  {
    OneSend(TwoAudio, T1, B1, 3, B1);
  }

  lemma SecondGoesOut()
    ensures TwoAudio.Valid() && T2.Valid(TwoAudio) && Belongs(TwoAudio, B2) && Step(TwoAudio, T2, B2) == T3
  {
    OneSend(TwoAudio, T2, B2, 3, B2);
  }

  lemma ThirdGoesOut()
    ensures TwoAudio.Valid() && T3.Valid(TwoAudio) && Belongs(TwoAudio, B3) && Step(TwoAudio, T3, B3) == T4
  {
    OneSend(TwoAudio, T3, B3, 3, B3);
  }

  lemma FourthGoesOut()
    ensures TwoAudio.Valid() && T4.Valid(TwoAudio) && Belongs(TwoAudio, B4) && Step(TwoAudio, T4, B4) == T5
  {
    OneSend(TwoAudio, T4, B4, 3, B4);
  }

  lemma TrackZeroGoesOut()
    ensures TwoAudio.Valid() && T1.Valid(TwoAudio) && T5.Valid(TwoAudio)
    ensures forall p <- GoingOut :: Belongs(TwoAudio, p)
    ensures Run(TwoAudio, T1, GoingOut) == T5
  {
    FirstGoesOut();
    SecondGoesOut();
    ThirdGoesOut();
    FourthGoesOut();
    RunCons(TwoAudio, T4, B4, []);
    RunCons(TwoAudio, T3, B3, [B4] + []);
    RunCons(TwoAudio, T2, B2, [B3] + ([B4] + []));
    RunCons(TwoAudio, T1, B1, [B2] + ([B3] + ([B4] + [])));
  }

  lemma TwoTracksOpen()
    ensures TwoAudio.Valid() && Reset.Valid(TwoAudio) && forall p <- Opening :: Belongs(TwoAudio, p)
    ensures Run(TwoAudio, Reset, Opening) == T1
  {
    KeyframeFirst();
    OneTrackIsNotEnough();
    BothTracksStart();
    LateFrameWaits();
    RunCons(TwoAudio, T0, L, []);
    RunCons(TwoAudio, Unbegun([K, B0], false, 0, 0), C0, [L] + []);
    RunCons(TwoAudio, Unbegun([K], false, 0, 0), B0, [C0] + ([L] + []));
    RunCons(TwoAudio, Reset, K, [B0] + ([C0] + ([L] + [])));
  }

  const Opening := [K] + ([B0] + ([C0] + ([L] + [])))
  const GoingOut := [B1] + ([B2] + ([B3] + ([B4] + [])))
  const TwoTracks := [K, B0, C0, L, B1, B2, B3, B4]

  lemma TwoTracksInParts()
    ensures Opening + GoingOut == TwoTracks
  {
  }

  lemma TwoTracksRun()
    ensures TwoAudio.Valid() && Reset.Valid(TwoAudio) && forall p <- TwoTracks :: Belongs(TwoAudio, p)
    ensures Run(TwoAudio, Reset, TwoTracks) == T5
  {
    TwoTracksInParts();
    TwoTracksOpen();
    TrackZeroGoesOut();
    RunAppend(TwoAudio, Reset, Opening, GoingOut);
  }

  lemma TrackOneComesLate()
    ensures TwoAudio.Valid() && T5.Valid(TwoAudio) && Belongs(TwoAudio, C1) && Rebase(TwoAudio, T5, C1) == C1
    ensures Late(T5, C1) && Step(TwoAudio, T5, C1).sent == [K, B0, C0, B1, C1]
  {
    OneAccept(TwoAudio, T5, C1, 0, C1);
    OneSend(TwoAudio, T5, C1, 0, C1);
  }

  /** An audio packet waits for every video track but not for the other audio track, so two
      audio tracks can leave out of order although each of them is in order: from a reset
      output, track 1 is late with 400 ms after track 0 has gone out with 500. */
  lemma TwoAudioTracksBreakOrder()
    ensures TwoAudio.Valid() && Reset.Valid(TwoAudio) && forall p <- TwoTracks + [C1] :: Belongs(TwoAudio, p)
    ensures Run(TwoAudio, Reset, TwoTracks + [C1]).sent == [K, B0, C0, B1, C1] && C1.dtsUsec < B1.dtsUsec
  {
    TwoTracksRun();
    TrackOneComesLate();
    RunSnoc(TwoAudio, Reset, TwoTracks, C1);
  }

  // ----- Two video encoders -----

  const TwoVideo := Config([true, true, false, false, false, false], [true, false, false, false, false, false],
                           [21_333, 0, 0, 0, 0, 0])

  // Keyframes of track 0 and track 1, and before the latter a frame of track 1 that is not one.
  const K0 := Frame(1, 0, 0, 0, true)
  const N1 := Frame(2, 1, 1, 1, false)
  const K1 := Frame(3, 1, 2, 2, true)

  function Unstarted(buf: seq<Packet>, both: bool, audio: bool, high1: int, highA: int, dropped: seq<Packet>): State {
    State(buf, [true, both, false, false, false, false], audio, [0, 0, 0, 0, 0, 0], [0, 0, 0, 0, 0, 0],
          [0, high1, 0, 0, 0, 0], highA, [], dropped)
  }

  /** A keyframe into an empty buffer, while audio is still missing. */
  lemma KeyframeArrives(s: State, p: Packet)
    requires TwoVideo.Valid() && s.Valid(TwoVideo) && Belongs(TwoVideo, p) && s.buf == [] && !s.receivedAudio
    requires p.kind.Video? && p.keyframe && s.highestVideo[p.track] <= p.dtsUsec
    ensures Step(TwoVideo, s, p) == s.(buf := [p], receivedVideo := s.receivedVideo[p.track := true],
                                       highestVideo := s.highestVideo[p.track := p.dtsUsec])
  {
    assert Insert([], p) == [p];
    assert s.highestVideo[p.track := s.highestVideo[p.track]] == s.highestVideo;
  }

  lemma SkippedStartFirst()
    ensures TwoVideo.Valid() && Reset.Valid(TwoVideo) && Belongs(TwoVideo, K0)
    ensures Step(TwoVideo, Reset, K0) == Unstarted([K0], false, false, 0, 0, [])
  {
    KeyframeArrives(Reset, K0);
    assert Reset.receivedVideo[0 := true] == [true, false, false, false, false, false];
    assert Reset.highestVideo[0 := 0] == [0, 0, 0, 0, 0, 0];
  }

  lemma SkippedStartSecond()
    ensures var s := Unstarted([K0], false, false, 0, 0, []);
            && TwoVideo.Valid() && s.Valid(TwoVideo) && Belongs(TwoVideo, N1)
            && Step(TwoVideo, s, N1) == Unstarted([], false, false, 0, 0, [K0, N1])
  {
    assert [K0][1..] == [];
    assert UnusedIdx([K0], 40_000) == 1;
  }

  lemma SkippedStartThird()
    ensures var s := Unstarted([], false, false, 0, 0, [K0, N1]);
            && TwoVideo.Valid() && s.Valid(TwoVideo) && Belongs(TwoVideo, K1)
            && Step(TwoVideo, s, K1) == Unstarted([K1], true, false, 80_000, 0, [K0, N1])
  {
    var s := Unstarted([], false, false, 0, 0, [K0, N1]);
    KeyframeArrives(s, K1);
    assert s.receivedVideo[1 := true] == [true, true, false, false, false, false];
    assert s.highestVideo[1 := 80_000] == [0, 80_000, 0, 0, 0, 0];
  }

  lemma SkippedStartFourth()
    ensures var s := Unstarted([K1], true, false, 80_000, 0, [K0, N1]);
            && TwoVideo.Valid() && s.Valid(TwoVideo) && Belongs(TwoVideo, Sound(4, 0, 80))
            && Step(TwoVideo, s, Sound(4, 0, 80))
               == Unstarted([K1, Sound(4, 0, 80)], true, true, 80_000, 80_000, [K0, N1])
  {
    var a := Sound(4, 0, 80);
    InsertIdxUnique([K1], a, 1);
    assert Insert([K1], a) == [K1, a];
    assert FirstIdx([K1, a], Video, 0) == -1;
  }

  /** With two video encoders a run can end with every stream marked as received although
      the clocks were never started: the frame of track 1 that is not a keyframe throws away
      track 0's only packet and leaves track 0 marked. From there on every packet is treated
      as one of a started output, with all offsets zero. */
  lemma TwoVideoTracksSkipStart()
    ensures var ps := [K0] + ([N1] + ([K1] + ([Sound(4, 0, 80)] + [])));
            && TwoVideo.Valid() && Reset.Valid(TwoVideo) && (forall p <- ps :: Belongs(TwoVideo, p))
            && AllReceived(TwoVideo, Run(TwoVideo, Reset, ps))
            && Run(TwoVideo, Reset, ps).buf == [K1, Sound(4, 0, 80)]
            && Run(TwoVideo, Reset, ps).videoOffset == [0, 0, 0, 0, 0, 0] && K1.pts != 0
  {
    SkippedStartFirst();
    SkippedStartSecond();
    SkippedStartThird();
    SkippedStartFourth();
    RunCons(TwoVideo, Unstarted([K1], true, false, 80_000, 0, [K0, N1]), Sound(4, 0, 80), []);
    RunCons(TwoVideo, Unstarted([], false, false, 0, 0, [K0, N1]), K1, [Sound(4, 0, 80)] + []);
    RunCons(TwoVideo, Unstarted([K0], false, false, 0, 0, []), N1, [K1] + ([Sound(4, 0, 80)] + []));
    RunCons(TwoVideo, Reset, K0, [N1] + ([K1] + ([Sound(4, 0, 80)] + [])));
  }

  // ----- A start behind a cut -----

  // A keyframe of track 0, audio one frame and a quarter behind it, a later frame and later
  // audio; and then the first keyframe of track 1.
  const P0 := Frame(0, 0, 0, 0, true)
  const D0 := Sound(1, 0, 50)
  const P1 := Frame(2, 0, 2, 2, false)
  const D1 := Sound(3, 0, 90)
  const Q0 := Frame(4, 1, 2, 2, true)

  const R1 := Unbegun([P0], false, 0, 0)
  const R2 := Unbegun([P0, D0], true, 0, 50_000)
  const R3 := Unbegun([P0, D0, P1], true, 80_000, 50_000)
  const R4 := Unbegun([P0, D0, P1, D1], true, 80_000, 90_000)

  /** A packet behind all others, while track 1 has not been heard from. */
  lemma ArrivesBehind(s: State, p: Packet)
    requires TwoVideo.Valid() && s.Valid(TwoVideo) && Belongs(TwoVideo, p) && !s.receivedVideo[1]
    requires s == Unbegun(s.buf, s.receivedAudio, s.highestVideo[0], s.highestAudio)
    requires Is(p, Video, 0) || Is(p, Audio, 0)
    requires forall x <- s.buf :: !StopsAt(p, x)
    ensures Step(TwoVideo, s, p)
            == Unbegun(s.buf + [p], s.receivedAudio || p.kind.Audio?,
                       if p.kind.Video? then Later(s.highestVideo[0], p.dtsUsec) else s.highestVideo[0],
                       if p.kind.Audio? then Later(s.highestAudio, p.dtsUsec) else s.highestAudio)
  {
    InsertIdxUnique(s.buf, p, |s.buf|);
    assert Insert(s.buf, p) == s.buf + [p];
    assert TwoVideo.video[1];
  }

  lemma KeyframeOfTrackZero()
    ensures TwoVideo.Valid() && Reset.Valid(TwoVideo) && Belongs(TwoVideo, P0) && Step(TwoVideo, Reset, P0) == R1
  {
    InsertIdxUnique([], P0, 0);
    assert Reset.receivedVideo[0 := true] == [true, false, false, false, false, false];
    assert Reset.highestVideo[0 := 0] == [0, 0, 0, 0, 0, 0];
    assert TwoVideo.video[1];
  }

  lemma UpToTrackOne()
    ensures TwoVideo.Valid() && R1.Valid(TwoVideo) && R2.Valid(TwoVideo) && R3.Valid(TwoVideo)
    ensures Belongs(TwoVideo, D0) && Belongs(TwoVideo, P1) && Belongs(TwoVideo, D1)
    ensures Step(TwoVideo, R1, D0) == R2 && Step(TwoVideo, R2, P1) == R3 && Step(TwoVideo, R3, D1) == R4
  {
    ArrivesBehind(R1, D0);
    ArrivesBehind(R2, P1);
    ArrivesBehind(R3, D1);
  }

  lemma FirstsBeforeCut()
    ensures var buf := [P0, D0, P1, Q0, D1];
            && FirstIdx(buf, Video, 0) == 0 && FirstIdx(buf, Audio, 0) == 1
            && TwoVideo.Valid() && HasFirsts(TwoVideo, buf) && Premature(TwoVideo, buf) && IsCut(TwoVideo, buf, 2)
  {
    var buf := [P0, D0, P1, Q0, D1];
    assert buf[0] == P0 && buf[1] == D0;
    assert TwoVideo.audio[0] && IsLastSlot(TwoVideo, MaxAudio, 0) && !SeveralAudio(TwoVideo, MaxAudio);
    assert First(buf, Audio, 0).dtsUsec - First(buf, Video, 0).dtsUsec == 50_000;
    assert FrameUsec(P0) == 40_000;
  }

  lemma StartableBehindCut()
    ensures var rest := [P1, Q0, D1];
            && TwoVideo.Valid() && Startable(TwoVideo, rest)
            && FirstIdx(rest, Video, 0) == 0 && IsStart(rest, 0)
  {
    var rest := [P1, Q0, D1];
    assert rest[0] == P1 && rest[1] == Q0 && rest[2] == D1;
    assert FirstIdx(rest, Video, 0) == 0 && FirstIdx(rest, Video, 1) == 1 && FirstIdx(rest, Audio, 0) == 2;
    assert LastIdx(rest, Audio, 0) == 2;
    assert TwoVideo.video[0] && TwoVideo.audio[0];
    assert Complete(TwoVideo, rest);
    StartIdxIsStart(rest, StartIdx(rest));
    assert IsStart(rest, 0) && rest[0..] == rest;
  }

  lemma TrackOneArrives()
    ensures TwoVideo.Valid() && R4.Valid(TwoVideo) && Belongs(TwoVideo, Q0) && true in TwoVideo.audio
    ensures Insert(R4.buf, Q0) == [P0, D0, P1, Q0, D1]
    ensures !AllReceived(TwoVideo, R4) && !Unwanted(TwoVideo, R4, Q0)
    ensures AllReceived(TwoVideo, Arrived(TwoVideo, R4, Q0))
  {
    InsertIdxUnique(R4.buf, Q0, 3);
    assert Insert(R4.buf, Q0) == [P0, D0, P1, Q0, D1];
    assert TwoVideo.video[1] && TwoVideo.audio[0] in TwoVideo.audio;
  }

  lemma TrackOneStarts()
    ensures TwoVideo.Valid() && R4.Valid(TwoVideo) && Belongs(TwoVideo, Q0) && StartsAt(TwoVideo, R4, Q0)
    ensures Insert(R4.buf, Q0) == [P0, D0, P1, Q0, D1]
  {
    TrackOneArrives();
    FirstsBeforeCut();
    StartableBehindCut();
    StartsIff(TwoVideo, R4, Q0);
    assert [P0, D0, P1, Q0, D1][2..] == [P1, Q0, D1];
  }

  /** With two video encoders the cut can be followed by a start at once: from a reset output,
      the last stream is heard from, the audio is found 50 ms behind the video where one frame is
      40 ms, the first packets of both are released, and what is behind them starts the output. */
  lemma StartBehindCut()
    ensures var ps := [P0] + ([D0] + ([P1] + ([D1] + [])));
            && TwoVideo.Valid() && Reset.Valid(TwoVideo) && (forall p <- ps :: Belongs(TwoVideo, p))
            && Run(TwoVideo, Reset, ps) == R4 && Belongs(TwoVideo, Q0) && StartsAt(TwoVideo, R4, Q0)
            && HasFirsts(TwoVideo, Insert(R4.buf, Q0)) && Premature(TwoVideo, Insert(R4.buf, Q0))
            && Trimmed(TwoVideo, Arrived(TwoVideo, R4, Q0)).buf == [P1, Q0, D1]
  {
    KeyframeOfTrackZero();
    UpToTrackOne();
    RunCons(TwoVideo, R3, D1, []);
    RunCons(TwoVideo, R2, P1, [D1] + []);
    RunCons(TwoVideo, R1, D0, [P1] + ([D1] + []));
    RunCons(TwoVideo, Reset, P0, [D0] + ([P1] + ([D1] + [])));
    TrackOneStarts();
    FirstsBeforeCut();
    TrimmedBehindCut();
  }

  lemma TrimmedBehindCut()
    ensures TwoVideo.Valid() && R4.Valid(TwoVideo) && Belongs(TwoVideo, Q0) && StartsAt(TwoVideo, R4, Q0)
    ensures Trimmed(TwoVideo, Arrived(TwoVideo, R4, Q0)).buf == [P1, Q0, D1]
  {
    TrackOneStarts();
    FirstsBeforeCut();
    StartableBehindCut();
    var t, rest := Arrived(TwoVideo, R4, Q0), [P1, Q0, D1];
    assert TwoVideo.audio[0] && TwoVideo.audio[0] in TwoVideo.audio;
    PruneIs(TwoVideo, t);
    var n: nat :| IsCut(TwoVideo, t.buf, n) && Prune(TwoVideo, t).0 == Discard(t, n);
    CutIsUnique(TwoVideo, t.buf, n, 2);
    assert Prune(TwoVideo, t).0.buf == rest;
    StartIdxIsStart(rest, 0);
    assert rest[0..] == rest;
  }
}

/** Exactly when an output with one video and one audio encoder keeps its order. The start
    takes the video offset from a pts and lowers the video mark by a dts, so the mark can run
    ahead of the stream; what matters is whether some audio packet can be let go by such a
    mark and be followed by video from before it. */
module InterleaveOrder {
  import opened Basics
  import opened Packets
  import opened InterleaveSpec
  import opened InterleaveRuns
  import opened InterleaveStartup

  /** The two orders that can be asked for: that of the buffer, or that of times alone. */
  datatype Order = Strictly | ByTime {
    predicate Keeps(a: Packet, b: Packet) {
      if Strictly? then Before(a, b) else a.dtsUsec <= b.dtsUsec
    }

    /** A time is not past that of a video packet still to come. */
    predicate NotPast(t: int, video: int) {
      if Strictly? then t < video else t <= video
    }

    ghost predicate InOrder(s: seq<Packet>) {
      forall i, j :: 0 <= i < j < |s| ==> Keeps(s[i], s[j])
    }
  }

  function AudioSlot(cfg: Config): nat
    requires Single(cfg)
  {
    FirstSlot(cfg.audio)
  }

  /** The rebased time of a video packet, or an audio packet, of this dts. */
  function VideoTime(cfg: Config, s: State, fs: Feeds, dts: int): int
    requires Single(cfg) && s.Valid(cfg)
  {
    Usec(dts - s.videoOffset[0], fs.video.den)
  }

  function AudioTime(cfg: Config, s: State, fs: Feeds, dts: int): int
    requires Single(cfg) && s.Valid(cfg)
  {
    TickTime(dts, s.audioOffset[AudioSlot(cfg)], fs.audio.den)
  }

  /** The earliest time the next packet of each stream can have. */
  function NextVideo(cfg: Config, s: State, fs: Feeds): int
    requires Single(cfg) && s.Valid(cfg)
  {
    VideoTime(cfg, s, fs, fs.video.last + 1)
  }

  function NextAudio(cfg: Config, s: State, fs: Feeds): int
    requires Single(cfg) && s.Valid(cfg)
  {
    AudioTime(cfg, s, fs, fs.audio.last + 1)
  }

  /** The state right after a start, whatever the marks are. */
  ghost predicate Begun(cfg: Config, s: State, fs: Feeds)
    requires Single(cfg)
  {
    && s.Valid(cfg) && AllReceived(cfg, s) && fs.video.Live() && fs.audio.Live()
    && Strict(s.buf)
    && (forall p <- s.buf :: Belongs(cfg, p) && p.dtsUsec <= MarksOf(cfg, s, fs).Of(p))
    && s.highestAudio <= MarksOf(cfg, s, fs).audio + 1
  }

  /** An audio packet of this time would be let go although video from before it can come. */
  predicate Exposed(order: Order, cfg: Config, s: State, fs: Feeds, t: int)
    requires Single(cfg) && s.Valid(cfg)
  {
    t < s.highestVideo[0] && !order.NotPast(t, NextVideo(cfg, s, fs))
  }

  function TickTime(k: int, off: int, den: pos): int {
    Usec(k - off, den)
  }

  /** The first tick from k on whose time is not before lo. */
  function FirstTick(k: int, off: int, den: pos, lo: int): (r: int)
    requires den <= 1_000_000
    ensures k <= r && lo <= TickTime(r, off, den)
    ensures forall j :: k <= j < r ==> TickTime(j, off, den) < lo
    decreases if TickTime(k, off, den) < lo then lo - TickTime(k, off, den) else 0
  {
    if TickTime(k, off, den) >= lo then k
    else
      UsecGrows(k - off, k + 1 - off, den, 1);
      FirstTick(k + 1, off, den, lo)
  }

  /** The earliest audio still to come that is past the earliest video still to come. */
  function FirstLateAudio(order: Order, cfg: Config, s: State, fs: Feeds): (k: int)
    requires Single(cfg) && s.Valid(cfg) && fs.audio.den <= 1_000_000
    ensures fs.audio.last < k && !order.NotPast(AudioTime(cfg, s, fs, k), NextVideo(cfg, s, fs))
  {
    FirstTick(fs.audio.last + 1, s.audioOffset[AudioSlot(cfg)], fs.audio.den,
              NextVideo(cfg, s, fs) + if order.Strictly? then 0 else 1)
  }

  /** Some audio packet, of the buffer or still to come, is exposed. */
  predicate AtRisk(order: Order, cfg: Config, s: State, fs: Feeds)
    requires Single(cfg) && s.Valid(cfg) && fs.audio.den <= 1_000_000
  {
    || (exists p <- s.buf :: p.kind.Audio? && Exposed(order, cfg, s, fs, p.dtsUsec))
    || Exposed(order, cfg, s, fs, AudioTime(cfg, s, fs, FirstLateAudio(order, cfg, s, fs)))
  }

  lemma FutureAudioIsNotExposed(order: Order, cfg: Config, s: State, fs: Feeds, k: int)
    requires Single(cfg) && s.Valid(cfg) && fs.audio.den <= 1_000_000 && fs.audio.last < k
    requires !AtRisk(order, cfg, s, fs)
    ensures !Exposed(order, cfg, s, fs, AudioTime(cfg, s, fs, k))
  {
    var off := s.audioOffset[AudioSlot(cfg)];
    var r := FirstLateAudio(order, cfg, s, fs);
    assert k < r ==> TickTime(k, off, fs.audio.den) < NextVideo(cfg, s, fs) + if order.Strictly? then 0 else 1;
    if k >= r {
      UsecMonotone(r - off, k - off, fs.audio.den);
    }
  }

  // ----- Without risk -----

  /** Nothing that can still come has to go before p. */
  ghost predicate Final(order: Order, cfg: Config, s: State, fs: Feeds, p: Packet)
    requires Single(cfg) && s.Valid(cfg)
  {
    p.dtsUsec < NextAudio(cfg, s, fs) && order.NotPast(p.dtsUsec, NextVideo(cfg, s, fs))
  }

  ghost predicate Kept(order: Order, cfg: Config, s: State, fs: Feeds)
    requires Single(cfg)
  {
    && Begun(cfg, s, fs) && !AtRisk(order, cfg, s, fs)
    && order.InOrder(s.sent)
    && (forall x <- s.sent, y <- s.buf :: order.Keeps(x, y))
    && (forall x <- s.sent :: Final(order, cfg, s, fs, x))
  }

  /** The next packet, and what comes after it. */
  lemma NextPacket(cfg: Config, s: State, fs: Feeds, p: Packet)
    requires Single(cfg) && s.Valid(cfg) && fs.video.Live() && fs.audio.Live()
    requires Belongs(cfg, p) && fs.Of(p.kind).Brings(p)
    ensures var q, next := Rebase(cfg, s, p), fs.Next(p);
            && q.dtsUsec == MarksOf(cfg, s, next).Of(q) && MarksOf(cfg, s, fs).Of(q) < q.dtsUsec
            && next.video.Live() && next.audio.Live()
            && (if p.kind.Video?
                then q.dtsUsec >= NextVideo(cfg, s, fs) && q.dtsUsec < NextVideo(cfg, s, next)
                else q.dtsUsec >= NextAudio(cfg, s, fs) && q.dtsUsec < NextAudio(cfg, s, next)
                     && q.dtsUsec == AudioTime(cfg, s, fs, p.dts))
  {
    SlotOf(cfg, p);
    var off := if p.kind.Video? then s.videoOffset[p.track] else s.audioOffset[p.track];
    var last := fs.Of(p.kind).last;
    UsecGrows(last - off, p.dts - off, p.timebaseDen, 1);
    UsecMonotone(last + 1 - off, p.dts - off, p.timebaseDen);
    UsecGrows(p.dts - off, p.dts + 1 - off, p.timebaseDen, 1);
  }

  /** Accepting keeps what an output has begun with. */
  lemma AcceptKeepsBegun(cfg: Config, s: State, fs: Feeds, p: Packet)
    requires Single(cfg) && Begun(cfg, s, fs) && Belongs(cfg, p) && fs.Of(p.kind).Brings(p)
    ensures Begun(cfg, Accept(cfg, s, Rebase(cfg, s, p)), fs.Next(p))
  {
    var q, t := Rebase(cfg, s, p), Accept(cfg, s, Rebase(cfg, s, p));
    NextPacket(cfg, s, fs, p);
    AcceptKeepsBuffer(cfg, s, fs, p);
    SameMarks(cfg, s, t, fs.Next(p));
    assert p.kind.Video? ==> MarksOf(cfg, s, fs.Next(p)).audio == MarksOf(cfg, s, fs).audio;
  }

  lemma AcceptKeepsBuffer(cfg: Config, s: State, fs: Feeds, p: Packet)
    requires Single(cfg) && Begun(cfg, s, fs) && Belongs(cfg, p) && fs.Of(p.kind).Brings(p)
    ensures var buf := Insert(s.buf, Rebase(cfg, s, p));
            Strict(buf) && forall x <- buf :: Belongs(cfg, x) && x.dtsUsec <= MarksOf(cfg, s, fs.Next(p)).Of(x)
  {
    var q := Rebase(cfg, s, p);
    NextPacket(cfg, s, fs, p);
    InsertMembers(s.buf, q);
    forall x <- s.buf | SameStream(x, q) ensures x.dtsUsec != q.dtsUsec {
      SlotOf(cfg, x);
      SlotOf(cfg, q);
    }
    InsertStrict(s.buf, q);
    forall x <- Insert(s.buf, q) ensures Belongs(cfg, x) && x.dtsUsec <= MarksOf(cfg, s, fs.Next(p)).Of(x) {
      if x != q {
        MarksGrow(cfg, s, fs, p, x);
      }
    }
  }

  lemma MarksGrow(cfg: Config, s: State, fs: Feeds, p: Packet, x: Packet)
    requires Single(cfg) && s.Valid(cfg) && Belongs(cfg, p) && fs.Of(p.kind).Brings(p) && fs.Of(p.kind).Live()
    requires Belongs(cfg, x)
    ensures MarksOf(cfg, s, fs).Of(x) <= MarksOf(cfg, s, fs.Next(p)).Of(x)
  {
    SlotOf(cfg, x);
    UsecMonotone(fs.video.last - s.videoOffset[0], fs.Next(p).video.last - s.videoOffset[0], fs.video.den);
    var off := s.audioOffset[AudioSlot(cfg)];
    UsecMonotone(fs.audio.last - off, fs.Next(p).audio.last - off, fs.audio.den);
  }

  lemma NextGrows(cfg: Config, s: State, fs: Feeds, p: Packet)
    requires Single(cfg) && s.Valid(cfg) && fs.Of(p.kind).Brings(p) && fs.Of(p.kind).Live()
    ensures NextVideo(cfg, s, fs) <= NextVideo(cfg, s, fs.Next(p))
    ensures NextAudio(cfg, s, fs) <= NextAudio(cfg, s, fs.Next(p))
  {
    var next := fs.Next(p);
    UsecMonotone(fs.video.last + 1 - s.videoOffset[0], next.video.last + 1 - s.videoOffset[0], fs.video.den);
    var off := s.audioOffset[AudioSlot(cfg)];
    UsecMonotone(fs.audio.last + 1 - off, next.audio.last + 1 - off, fs.audio.den);
  }

  lemma ExposureDoesNotArise(order: Order, cfg: Config, s: State, fs: Feeds, p: Packet, x: int)
    requires Single(cfg) && Begun(cfg, s, fs) && Belongs(cfg, p) && fs.Of(p.kind).Brings(p)
    requires Exposed(order, cfg, Accept(cfg, s, Rebase(cfg, s, p)), fs.Next(p), x)
    ensures Exposed(order, cfg, s, fs, x)
  {
    NextPacket(cfg, s, fs, p);
    NextGrows(cfg, s, fs, p);
    SlotOf(cfg, p);
    assert NextVideo(cfg, Accept(cfg, s, Rebase(cfg, s, p)), fs.Next(p)) == NextVideo(cfg, s, fs.Next(p));
  }

  /** No packet brings the risk about. */
  lemma RiskDoesNotArise(order: Order, cfg: Config, s: State, fs: Feeds, p: Packet)
    requires Single(cfg) && Begun(cfg, s, fs) && Belongs(cfg, p) && fs.Of(p.kind).Brings(p)
    requires !AtRisk(order, cfg, s, fs)
    ensures fs.Next(p).audio.den <= 1_000_000 && !AtRisk(order, cfg, Accept(cfg, s, Rebase(cfg, s, p)), fs.Next(p))
  {
    var q := Rebase(cfg, s, p);
    var t, next := Accept(cfg, s, q), fs.Next(p);
    InsertMembers(s.buf, q);
    forall x <- t.buf | x.kind.Audio? ensures !Exposed(order, cfg, t, next, x.dtsUsec) {
      if Exposed(order, cfg, t, next, x.dtsUsec) {
        ExposureDoesNotArise(order, cfg, s, fs, p, x.dtsUsec);
        if x == q {
          NextPacket(cfg, s, fs, p);
          FutureAudioIsNotExposed(order, cfg, s, fs, p.dts);
        }
      }
    }
    var k := FirstLateAudio(order, cfg, t, next);
    FutureAudioIsNotExposed(order, cfg, s, fs, k);
    if Exposed(order, cfg, t, next, AudioTime(cfg, t, next, k)) {
      ExposureDoesNotArise(order, cfg, s, fs, p, AudioTime(cfg, t, next, k));
    }
  }

  /** A callback of a started output accepts its packet, rebased, and may send one. */
  lemma StepIsAcceptAndSend(cfg: Config, s: State, p: Packet)
    requires cfg.Valid() && s.Valid(cfg) && AllReceived(cfg, s) && Belongs(cfg, p)
    ensures Step(cfg, s, p) == Send(cfg, Accept(cfg, s, Rebase(cfg, s, p)))
  {
  }

  lemma FinalKeeps(order: Order, cfg: Config, s: State, fs: Feeds, x: Packet, q: Packet)
    requires Single(cfg) && s.Valid(cfg) && Final(order, cfg, s, fs, x)
    requires q.dtsUsec >= if q.kind.Video? then NextVideo(cfg, s, fs) else NextAudio(cfg, s, fs)
    ensures order.Keeps(x, q)
  {
  }

  lemma FinalStays(order: Order, cfg: Config, s: State, fs: Feeds, p: Packet, x: Packet)
    requires Single(cfg) && Begun(cfg, s, fs) && Belongs(cfg, p) && fs.Of(p.kind).Brings(p)
    requires Final(order, cfg, s, fs, x)
    ensures Final(order, cfg, Accept(cfg, s, Rebase(cfg, s, p)), fs.Next(p), x)
  {
    var t := Accept(cfg, s, Rebase(cfg, s, p));
    NextGrows(cfg, s, fs, p);
    assert NextVideo(cfg, t, fs.Next(p)) == NextVideo(cfg, s, fs.Next(p));
    assert NextAudio(cfg, t, fs.Next(p)) == NextAudio(cfg, s, fs.Next(p));
  }

  lemma SentBeforeBuffer(order: Order, cfg: Config, s: State, fs: Feeds, p: Packet)
    requires Single(cfg) && Kept(order, cfg, s, fs) && Belongs(cfg, p) && fs.Of(p.kind).Brings(p)
    ensures forall x <- s.sent, y <- Insert(s.buf, Rebase(cfg, s, p)) :: order.Keeps(x, y)
  {
    var q := Rebase(cfg, s, p);
    NextPacket(cfg, s, fs, p);
    InsertMembers(s.buf, q);
    forall x <- s.sent, y <- Insert(s.buf, q) ensures order.Keeps(x, y) {
      if y == q {
        FinalKeeps(order, cfg, s, fs, x, q);
      }
    }
  }

  lemma AcceptKeepsOrder(order: Order, cfg: Config, s: State, fs: Feeds, p: Packet)
    requires Single(cfg) && Kept(order, cfg, s, fs) && Belongs(cfg, p) && fs.Of(p.kind).Brings(p)
    ensures Kept(order, cfg, Accept(cfg, s, Rebase(cfg, s, p)), fs.Next(p))
  {
    var t := Accept(cfg, s, Rebase(cfg, s, p));
    AcceptKeepsBegun(cfg, s, fs, p);
    RiskDoesNotArise(order, cfg, s, fs, p);
    SentBeforeBuffer(order, cfg, s, fs, p);
    forall x <- t.sent ensures Final(order, cfg, t, fs.Next(p), x) {
      FinalStays(order, cfg, s, fs, p, x);
    }
  }

  /** What the gate lets go is final. */
  lemma GateIsFinal(order: Order, cfg: Config, s: State, fs: Feeds, x: Packet)
    requires Single(cfg) && Begun(cfg, s, fs) && !AtRisk(order, cfg, s, fs) && x in s.buf && Gate(cfg, s, x)
    ensures Final(order, cfg, s, fs, x)
  {
    SlotOf(cfg, x);
    var off := s.audioOffset[AudioSlot(cfg)];
    UsecGrows(fs.audio.last - off, fs.audio.last + 1 - off, fs.audio.den, 1);
    UsecGrows(fs.video.last - s.videoOffset[0], fs.video.last + 1 - s.videoOffset[0], fs.video.den, 1);
    assert x.kind.Audio? ==> !Exposed(order, cfg, s, fs, x.dtsUsec);
  }

  lemma SendKeepsOrder(order: Order, cfg: Config, s: State, fs: Feeds)
    requires Single(cfg) && Kept(order, cfg, s, fs) && s.buf != []
    ensures Kept(order, cfg, Send(cfg, s), fs)
  {
    var x, t := s.buf[0], Send(cfg, s);
    if Gate(cfg, s, x) {
      GateIsFinal(order, cfg, s, fs, x);
      assert s.buf == [x] + s.buf[1..];
      StrictConcat([x], s.buf[1..]);
      assert forall y <- t.buf :: Before(x, y);
      SendKeepsBegun(cfg, s, fs);
      assert forall y <- t.sent :: y in s.sent || y == x;
    }
  }

  lemma SendKeepsBegun(cfg: Config, s: State, fs: Feeds)
    requires Single(cfg) && Begun(cfg, s, fs) && s.buf != []
    ensures Begun(cfg, Send(cfg, s), fs)
    ensures forall order: Order :: AtRisk(order, cfg, Send(cfg, s), fs) ==> AtRisk(order, cfg, s, fs)
  {
    TailIsOrdered(s.buf);
    SameMarks(cfg, s, Send(cfg, s), fs);
  }

  lemma StepKeepsOrder(order: Order, cfg: Config, s: State, fs: Feeds, p: Packet)
    requires Single(cfg) && Kept(order, cfg, s, fs) && Belongs(cfg, p) && fs.Of(p.kind).Brings(p)
    ensures Kept(order, cfg, Step(cfg, s, p), fs.Next(p))
  {
    StepIsAcceptAndSend(cfg, s, p);
    AcceptKeepsOrder(order, cfg, s, fs, p);
    SendKeepsOrder(order, cfg, Accept(cfg, s, Rebase(cfg, s, p)), fs.Next(p));
  }

  lemma {:induction false} RunKeepsOrder(order: Order, cfg: Config, s: State, fs: Feeds, ps: seq<Packet>)
    requires Single(cfg) && Kept(order, cfg, s, fs) && Fed(cfg, fs, ps) && forall p <- ps :: Belongs(cfg, p)
    ensures Kept(order, cfg, Run(cfg, s, ps), Ahead(fs, ps))
    decreases |ps|
  {
    if ps != [] {
      StepKeepsOrder(order, cfg, s, fs, ps[0]);
      RunKeepsOrder(order, cfg, Step(cfg, s, ps[0]), fs.Next(ps[0]), ps[1..]);
    }
  }

  function Ahead(fs: Feeds, ps: seq<Packet>): Feeds
    decreases |ps|
  {
    if ps == [] then fs else Ahead(fs.Next(ps[0]), ps[1..])
  }

  // ----- With risk -----

  /** The next audio packet, and the next video packet. */
  function AudioOf(cfg: Config, fs: Feeds, dts: int): Packet
    requires Single(cfg)
  {
    Packet(0, Audio, AudioSlot(cfg), dts, dts, fs.audio.base + Usec(dts, fs.audio.den), 1, fs.audio.den, false)
  }

  function VideoOf(fs: Feeds): Packet {
    var dts := fs.video.last + 1;
    Packet(0, Video, 0, dts, dts, fs.video.base + Usec(dts, fs.video.den), 1, fs.video.den, false)
  }

  lemma TheyAreBrought(cfg: Config, fs: Feeds, dts: int)
    requires Single(cfg) && fs.video.Live() && fs.audio.Live() && fs.audio.last < dts
    ensures Belongs(cfg, AudioOf(cfg, fs, dts)) && fs.audio.Brings(AudioOf(cfg, fs, dts))
    ensures Belongs(cfg, VideoOf(fs)) && fs.video.Brings(VideoOf(fs))
  {
    UsecMonotone(fs.audio.last, dts, fs.audio.den);
    UsecMonotone(fs.video.last, fs.video.last + 1, fs.video.den);
  }

  /** A continuation after which the packets sent are out of order. */
  ghost predicate Breaks(order: Order, cfg: Config, s: State, fs: Feeds, ps: seq<Packet>)
    requires Single(cfg) && s.Valid(cfg)
  {
    Fed(cfg, fs, ps) && (forall p <- ps :: Belongs(cfg, p)) && !order.InOrder(Run(cfg, s, ps).sent)
  }

  lemma BreaksAfter(order: Order, cfg: Config, s: State, fs: Feeds, p: Packet, ps: seq<Packet>)
    requires Single(cfg) && s.Valid(cfg) && Belongs(cfg, p) && fs.Of(p.kind).Brings(p)
    requires Breaks(order, cfg, Step(cfg, s, p), fs.Next(p), ps)
    ensures Breaks(order, cfg, s, fs, [p] + ps)
  {
    assert ([p] + ps)[1..] == ps;
  }

  /** An exposed audio packet, with i packets of the buffer up to it still to be sent. */
  ghost predicate Doomed(order: Order, cfg: Config, s: State, fs: Feeds, a: Packet, i: nat)
    requires Single(cfg)
  {
    && Begun(cfg, s, fs) && a.kind.Audio? && Exposed(order, cfg, s, fs, a.dtsUsec)
    && a.dtsUsec <= MarksOf(cfg, s, fs).audio
    && if i > 0 then i <= |s.buf| && s.buf[i - 1] == a else a in s.sent && forall y <- s.buf :: Before(a, y)
  }

  lemma InsertBehind(buf: seq<Packet>, q: Packet, i: nat)
    requires Strict(buf) && q.kind.Audio? && i <= |buf| && (i > 0 ==> buf[i - 1].dtsUsec < q.dtsUsec)
    ensures |Insert(buf, q)| == |buf| + 1 && Insert(buf, q)[..i] == buf[..i]
  {
    var j := InsertIdx(buf, q);
    if j < i - 1 {
      assert Before(buf[j], buf[i - 1]);
    }
  }

  lemma AcceptKeepsDoom(order: Order, cfg: Config, s: State, fs: Feeds, a: Packet, i: nat, p: Packet)
    requires Single(cfg) && Doomed(order, cfg, s, fs, a, i)
    requires Belongs(cfg, p) && p.kind.Audio? && fs.audio.Brings(p)
    ensures var t := Accept(cfg, s, Rebase(cfg, s, p));
            Doomed(order, cfg, t, fs.Next(p), a, i) && a.dtsUsec < t.highestAudio
  {
    var q := Rebase(cfg, s, p);
    var t := Accept(cfg, s, q);
    NextPacket(cfg, s, fs, p);
    AcceptKeepsBegun(cfg, s, fs, p);
    assert NextVideo(cfg, t, fs.Next(p)) == NextVideo(cfg, s, fs);
    InsertBehind(s.buf, q, i);
    InsertMembers(s.buf, q);
    if i > 0 {
      assert t.buf[i - 1] == t.buf[..i][i - 1] == s.buf[..i][i - 1];
    }
  }

  /** The packet in front goes: it is not past the exposed one, so the gate is open for it. */
  lemma SendAdvances(order: Order, cfg: Config, s: State, fs: Feeds, a: Packet, i: nat)
    requires Single(cfg) && Doomed(order, cfg, s, fs, a, i) && a.dtsUsec < s.highestAudio && s.buf != []
    ensures Doomed(order, cfg, Send(cfg, s), fs, a, if i > 0 then i - 1 else 0)
  {
    var x, t := s.buf[0], Send(cfg, s);
    SendKeepsBegun(cfg, s, fs);
    assert NextVideo(cfg, t, fs) == NextVideo(cfg, s, fs);
    if i > 0 {
      assert i > 1 ==> Before(x, a);
      assert Gate(cfg, s, x);
      assert i == 1 ==> forall y <- t.buf :: Before(a, y);
    }
  }

  /** One more audio packet: it goes behind the exposed one, whose turn comes nearer. */
  lemma AudioAdvances(order: Order, cfg: Config, s: State, fs: Feeds, a: Packet, i: nat)
    requires Single(cfg) && Doomed(order, cfg, s, fs, a, i)
    ensures var p := AudioOf(cfg, fs, fs.audio.last + 1);
            && Belongs(cfg, p) && fs.audio.Brings(p)
            && Doomed(order, cfg, Step(cfg, s, p), fs.Next(p), a, if i > 0 then i - 1 else 0)
            && a.dtsUsec < Step(cfg, s, p).highestAudio
  {
    var p := AudioOf(cfg, fs, fs.audio.last + 1);
    TheyAreBrought(cfg, fs, fs.audio.last + 1);
    StepIsAcceptAndSend(cfg, s, p);
    AcceptKeepsDoom(order, cfg, s, fs, a, i, p);
    SendAdvances(order, cfg, Accept(cfg, s, Rebase(cfg, s, p)), fs.Next(p), a, i);
  }

  /** Once the exposed packet is out, the next video packet goes out behind it. */
  lemma VideoComesLate(order: Order, cfg: Config, s: State, fs: Feeds, a: Packet)
    requires Single(cfg) && Doomed(order, cfg, s, fs, a, 0) && a.dtsUsec < s.highestAudio
    ensures Breaks(order, cfg, s, fs, [VideoOf(fs)])
  {
    var p := VideoOf(fs);
    TheyAreBrought(cfg, fs, fs.audio.last + 1);
    var q := Rebase(cfg, s, p);
    assert q.dtsUsec == NextVideo(cfg, s, fs);
    StepIsAcceptAndSend(cfg, s, p);
    InsertInFront(s.buf, q, a);
    var t := Accept(cfg, s, q);
    assert Gate(cfg, t, q);
    var u := Send(cfg, t);
    assert u.sent == s.sent + [q];
    assert [p][1..] == [];
    assert Run(cfg, s, [p]) == u;
    var j :| 0 <= j < |s.sent| && s.sent[j] == a;
    assert u.sent[j] == a && u.sent[|s.sent|] == q && !order.Keeps(a, q);
  }

  lemma InsertInFront(buf: seq<Packet>, q: Packet, a: Packet)
    requires q.kind.Video? && q.track == 0 && a.kind.Audio? && q.dtsUsec <= a.dtsUsec && forall y <- buf :: Before(a, y)
    ensures Insert(buf, q) == [q] + buf
  {
    assert buf != [] ==> buf[0] in buf && Before(a, buf[0]);
    InsertIdxUnique(buf, q, 0);
  }

  /** An exposed packet in the output's hands: some continuation breaks the order. */
  lemma {:induction false} DoomIsReal(order: Order, cfg: Config, s: State, fs: Feeds, a: Packet, i: nat)
    requires Single(cfg) && Doomed(order, cfg, s, fs, a, i)
    ensures exists ps :: Breaks(order, cfg, s, fs, ps)
    decreases i
  {
    var p := AudioOf(cfg, fs, fs.audio.last + 1);
    AudioAdvances(order, cfg, s, fs, a, i);
    var t, next := Step(cfg, s, p), fs.Next(p);
    if i == 0 {
      VideoComesLate(order, cfg, t, next, a);
      BreaksAfter(order, cfg, s, fs, p, [VideoOf(next)]);
    } else {
      DoomIsReal(order, cfg, t, next, a, i - 1);
      var ps :| Breaks(order, cfg, t, next, ps);
      BreaksAfter(order, cfg, s, fs, p, ps);
    }
  }

  /** An exposed packet of the buffer is in the output's hands after the send, too. */
  lemma BufferedIsDoomed(order: Order, cfg: Config, s: State, fs: Feeds, a: Packet)
    requires Single(cfg) && Begun(cfg, s, fs) && a in s.buf && a.kind.Audio? && Exposed(order, cfg, s, fs, a.dtsUsec)
    ensures exists i: nat :: Doomed(order, cfg, Send(cfg, s), fs, a, i)
  {
    var t := Send(cfg, s);
    SendKeepsBegun(cfg, s, fs);
    assert NextVideo(cfg, t, fs) == NextVideo(cfg, s, fs);
    SameMarks(cfg, s, t, fs);
    var j :| 0 <= j < |s.buf| && s.buf[j] == a;
    if t.buf == s.buf {
      assert Doomed(order, cfg, t, fs, a, j + 1);
    } else {
      assert j == 0 ==> forall y <- t.buf :: Before(a, y);
      assert Doomed(order, cfg, t, fs, a, j);
    }
  }

  /** An exposed packet that is still to come gets into the output's hands. */
  lemma ArrivalIsDoomed(order: Order, cfg: Config, s: State, fs: Feeds, k: int)
    requires Single(cfg) && Begun(cfg, s, fs) && fs.audio.last < k
             && Exposed(order, cfg, s, fs, AudioTime(cfg, s, fs, k))
    ensures var p := AudioOf(cfg, fs, k);
            && Belongs(cfg, p) && fs.audio.Brings(p)
            && exists i: nat :: Doomed(order, cfg, Step(cfg, s, p), fs.Next(p), Rebase(cfg, s, p), i)
  {
    var p := AudioOf(cfg, fs, k);
    TheyAreBrought(cfg, fs, k);
    NextPacket(cfg, s, fs, p);
    var q := Rebase(cfg, s, p);
    var t, next := Accept(cfg, s, q), fs.Next(p);
    StepIsAcceptAndSend(cfg, s, p);
    AcceptKeepsBegun(cfg, s, fs, p);
    InsertMembers(s.buf, q);
    assert NextVideo(cfg, t, next) == NextVideo(cfg, s, fs);
    BufferedIsDoomed(order, cfg, t, next, q);
  }

  // ----- The two together -----

  /** Whatever comes, the packets sent stay in order. */
  ghost predicate AlwaysInOrder(order: Order, cfg: Config, s: State, fs: Feeds)
    requires Single(cfg) && s.Valid(cfg)
  {
    forall ps :: !Breaks(order, cfg, s, fs, ps)
  }

  /** From the state a start leaves, sorted and with nothing sent yet: every continuation keeps
      the order if and only if no audio packet is exposed. */
  lemma OrderKeptIff(order: Order, cfg: Config, s: State, fs: Feeds)
    requires Single(cfg) && Begun(cfg, s, fs) && s.sent == [] && s.buf != []
    ensures AlwaysInOrder(order, cfg, Send(cfg, s), fs) <==> !AtRisk(order, cfg, s, fs)
  {
    var t := Send(cfg, s);
    if !AtRisk(order, cfg, s, fs) {
      SendKeepsOrder(order, cfg, s, fs);
      forall ps | Fed(cfg, fs, ps) && forall p <- ps :: Belongs(cfg, p) ensures order.InOrder(Run(cfg, t, ps).sent) {
        RunKeepsOrder(order, cfg, t, fs, ps);
      }
    } else {
      RiskIsReal(order, cfg, s, fs);
    }
  }

  lemma RiskIsReal(order: Order, cfg: Config, s: State, fs: Feeds)
    requires Single(cfg) && Begun(cfg, s, fs) && s.buf != [] && AtRisk(order, cfg, s, fs)
    ensures exists ps :: Breaks(order, cfg, Send(cfg, s), fs, ps)
  {
    var t := Send(cfg, s);
    SendKeepsBegun(cfg, s, fs);
    if a :| a in s.buf && a.kind.Audio? && Exposed(order, cfg, s, fs, a.dtsUsec) {
      BufferedIsDoomed(order, cfg, s, fs, a);
      var i: nat :| Doomed(order, cfg, t, fs, a, i);
      DoomIsReal(order, cfg, t, fs, a, i);
    } else {
      var k := FirstLateAudio(order, cfg, s, fs);
      assert NextVideo(cfg, t, fs) == NextVideo(cfg, s, fs) && AudioTime(cfg, t, fs, k) == AudioTime(cfg, s, fs, k);
      ArrivalIsDoomed(order, cfg, t, fs, k);
      var p := AudioOf(cfg, fs, k);
      var i: nat :| Doomed(order, cfg, Step(cfg, t, p), fs.Next(p), Rebase(cfg, t, p), i);
      DoomIsReal(order, cfg, Step(cfg, t, p), fs.Next(p), Rebase(cfg, t, p), i);
      var ps :| Breaks(order, cfg, Step(cfg, t, p), fs.Next(p), ps);
      BreaksAfter(order, cfg, t, fs, p, ps);
    }
  }
}

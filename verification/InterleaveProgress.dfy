/** That packets do go out: the marks follow the streams exactly, and once every stream is past
    a time, each callback sends one of the packets up to there. */
module InterleaveProgress {
  import opened Packets
  import opened InterleaveSpec
  import opened InterleaveRuns

  /** The packet raises the mark of this video track, or of audio. */
  predicate Raises(q: Packet, kind: PacketType, track: nat) {
    q.kind == kind && (kind.Video? ==> q.track == track)
  }

  /** The highest time among the packets of one mark, or what it was. */
  ghost predicate IsHighest(was: int, qs: seq<Packet>, kind: PacketType, track: nat, r: int) {
    && was <= r && (forall q <- qs :: Raises(q, kind, track) ==> q.dtsUsec <= r)
    && (r == was || exists q <- qs :: Raises(q, kind, track) && q.dtsUsec == r)
  }

  /** All marks, of both kinds. */
  ghost predicate Raised(cfg: Config, s: State, qs: seq<Packet>, t: State)
    requires cfg.Valid() && s.Valid(cfg) && t.Valid(cfg)
  {
    && (forall i :: 0 <= i < MaxVideo ==> IsHighest(s.highestVideo[i], qs, Video, i, t.highestVideo[i]))
    && IsHighest(s.highestAudio, qs, Audio, 0, t.highestAudio)
  }

  lemma HighestJoins(was: int, q: Packet, mid: int, qs: seq<Packet>, kind: PacketType, track: nat, r: int)
    requires IsHighest(was, [q], kind, track, mid) && IsHighest(mid, qs, kind, track, r)
    ensures IsHighest(was, [q] + qs, kind, track, r)
  {
    assert forall x :: x in [q] + qs <==> x == q || x in qs;
  }

  lemma StepRaises(cfg: Config, s: State, p: Packet)
    requires cfg.Valid() && s.Valid(cfg) && AllReceived(cfg, s) && Belongs(cfg, p)
    ensures AllReceived(cfg, Step(cfg, s, p)) && Raised(cfg, s, [Rebase(cfg, s, p)], Step(cfg, s, p))
    ensures Step(cfg, s, p).videoOffset == s.videoOffset && Step(cfg, s, p).audioOffset == s.audioOffset
  {
    var q, t := Rebase(cfg, s, p), Step(cfg, s, p);
    assert q in [q];
    assert t == Send(cfg, Accept(cfg, s, q));
  }

  /** Over any run of a started output every mark is the highest time its stream has brought,
      or what it was. */
  lemma {:induction false} RunRaises(cfg: Config, s: State, ps: seq<Packet>)
    requires cfg.Valid() && s.Valid(cfg) && AllReceived(cfg, s) && forall p <- ps :: Belongs(cfg, p)
    ensures Raised(cfg, s, RebaseAll(cfg, s, ps), Run(cfg, s, ps))
    decreases |ps|
  {
    if ps != [] {
      var q, u := Rebase(cfg, s, ps[0]), Step(cfg, s, ps[0]);
      StepRaises(cfg, s, ps[0]);
      RunRaises(cfg, u, ps[1..]);
      RebaseTail(cfg, s, u, ps);
      RaisedJoins(cfg, s, q, u, RebaseAll(cfg, u, ps[1..]), Run(cfg, s, ps));
    }
  }

  lemma RaisedJoins(cfg: Config, s: State, q: Packet, u: State, qs: seq<Packet>, t: State)
    requires cfg.Valid() && s.Valid(cfg) && u.Valid(cfg) && t.Valid(cfg)
    requires Raised(cfg, s, [q], u) && Raised(cfg, u, qs, t)
    ensures Raised(cfg, s, [q] + qs, t)
  {
    forall i | 0 <= i < MaxVideo ensures IsHighest(s.highestVideo[i], [q] + qs, Video, i, t.highestVideo[i]) {
      HighestJoins(s.highestVideo[i], q, u.highestVideo[i], qs, Video, i, t.highestVideo[i]);
    }
    HighestJoins(s.highestAudio, q, u.highestAudio, qs, Audio, 0, t.highestAudio);
  }

  // ----- Going out -----

  /** Every stream has come past t, and n packets of the buffer are up to there. */
  ghost predicate Due(cfg: Config, s: State, t: int, n: nat)
    requires cfg.Valid()
  {
    && s.Valid(cfg) && AllReceived(cfg, s) && n <= |s.buf|
    && (forall i :: 0 <= i < MaxVideo && cfg.video[i] ==> t < s.highestVideo[i]) && t < s.highestAudio
    && (forall j :: 0 <= j < n ==> s.buf[j].dtsUsec <= t) && (forall j :: n <= j < |s.buf| ==> t < s.buf[j].dtsUsec)
  }

  lemma AcceptKeepsDue(cfg: Config, s: State, t: int, n: nat, q: Packet)
    requires cfg.Valid() && Due(cfg, s, t, n) && Belongs(cfg, q) && t < q.dtsUsec
    ensures var u := Accept(cfg, s, q); Due(cfg, u, t, n) && u.buf[..n] == s.buf[..n] && u.sent == s.sent
  {
    var u := Accept(cfg, s, q);
    assert InsertIdx(s.buf, q) >= n;
    forall j | 0 <= j < |u.buf| ensures if j < n then u.buf[j] == s.buf[j] else t < u.buf[j].dtsUsec {
      InsertAt(s.buf, q, j);
    }
  }

  lemma SendsDue(cfg: Config, s: State, t: int, n: nat)
    requires cfg.Valid() && Due(cfg, s, t, n) && n > 0
    ensures var u := Send(cfg, s); Due(cfg, u, t, n - 1) && u.sent == s.sent + [s.buf[0]] && u.buf == s.buf[1..]
  {
    assert Gate(cfg, s, s.buf[0]);
  }

  lemma SendKeepsSent(cfg: Config, s: State)
    requires cfg.Valid() && s.Valid(cfg) && s.buf != []
    ensures s.sent <= Send(cfg, s).sent
  {
  }

  lemma {:induction false} RunKeepsSent(cfg: Config, s: State, ps: seq<Packet>)
    requires cfg.Valid() && s.Valid(cfg) && AllReceived(cfg, s) && forall p <- ps :: Belongs(cfg, p)
    ensures s.sent <= Run(cfg, s, ps).sent
    decreases |ps|
  {
    if ps != [] {
      StepRaises(cfg, s, ps[0]);
      SendKeepsSent(cfg, Accept(cfg, s, Rebase(cfg, s, ps[0])));
      RunKeepsSent(cfg, Step(cfg, s, ps[0]), ps[1..]);
    }
  }

  lemma StepSendsDue(cfg: Config, s: State, t: int, n: nat, p: Packet)
    requires cfg.Valid() && Due(cfg, s, t, n) && n > 0 && Belongs(cfg, p) && t < Rebase(cfg, s, p).dtsUsec
    ensures var u := Step(cfg, s, p);
            && Due(cfg, u, t, n - 1) && u.sent == s.sent + [s.buf[0]] && u.buf[..n - 1] == s.buf[1..n]
            && u.videoOffset == s.videoOffset && u.audioOffset == s.audioOffset
  {
    var q := Rebase(cfg, s, p);
    var a := Accept(cfg, s, q);
    AcceptKeepsDue(cfg, s, t, n, q);
    SendsDue(cfg, a, t, n);
    assert Step(cfg, s, p) == Send(cfg, a);
    assert a.buf[..n][0] == s.buf[..n][0];
    assert a.buf[1..][..n - 1] == a.buf[..n][1..] && s.buf[..n][1..] == s.buf[1..n];
  }

  lemma FrontThenRest(sent: seq<Packet>, buf: seq<Packet>, n: nat)
    requires 0 < n <= |buf|
    ensures sent + buf[..n] == (sent + [buf[0]]) + buf[1..n]
  {
  }

  /** Once every stream is past t, as many further callbacks as there are packets up to t in the
      buffer, with packets from past t, send all of those, in their order. */
  lemma {:induction false} DueGoesOut(cfg: Config, s: State, t: int, n: nat, ps: seq<Packet>)
    requires cfg.Valid() && Due(cfg, s, t, n) && n <= |ps|
    requires forall p <- ps :: Belongs(cfg, p) && t < Rebase(cfg, s, p).dtsUsec
    ensures s.sent + s.buf[..n] <= Run(cfg, s, ps).sent
    decreases |ps|
  {
    if n == 0 {
      RunKeepsSent(cfg, s, ps);
      assert s.sent + s.buf[..0] == s.sent;
    } else {
      var u := Step(cfg, s, ps[0]);
      StepSendsDue(cfg, s, t, n, ps[0]);
      assert forall p <- ps[1..] :: Rebase(cfg, u, p) == Rebase(cfg, s, p);
      DueGoesOut(cfg, u, t, n - 1, ps[1..]);
      FrontThenRest(s.sent, s.buf, n);
    }
  }
}

/** How many audio encoders an output can have and keep its order. The gate has one mark for
    all audio, so a track that runs ahead opens it for itself while another is still behind. */
module InterleaveTracks {
  import opened Packets
  import opened InterleaveSpec
  import opened InterleaveRuns

  /** The time of the last packet of each track. */
  datatype Lasts = Lasts(video: seq<int>, audio: seq<int>) {
    predicate Valid() {
      |video| == MaxVideo && |audio| == MaxAudio
    }

    function Of(p: Packet): int
      requires Valid() && p.track < (if p.kind.Video? then MaxVideo else MaxAudio)
    {
      if p.kind.Video? then video[p.track] else audio[p.track]
    }

    function Bump(p: Packet): (r: Lasts)
      requires Valid() && p.track < (if p.kind.Video? then MaxVideo else MaxAudio)
      ensures r.Valid()
    {
      if p.kind.Video? then this.(video := video[p.track := p.dtsUsec])
      else this.(audio := audio[p.track := p.dtsUsec])
    }
  }

  /** Each track of its own brings later and later packets. */
  predicate Advances(cfg: Config, s: State, l: Lasts, ps: seq<Packet>)
    requires cfg.Valid() && s.Valid(cfg) && l.Valid()
    decreases |ps|
  {
    ps != [] ==>
      && Belongs(cfg, ps[0])
      && var q := Rebase(cfg, s, ps[0]);
         l.Of(q) < q.dtsUsec && Advances(cfg, Step(cfg, s, ps[0]), l.Bump(q), ps[1..])
  }

  /** Such packets, after which what was sent is out of order. */
  ghost predicate Breaks(cfg: Config, s: State, l: Lasts, ps: seq<Packet>)
    requires cfg.Valid() && s.Valid(cfg) && l.Valid()
  {
    Advances(cfg, s, l, ps) && (forall p <- ps :: Belongs(cfg, p)) && !Sorted(Run(cfg, s, ps).sent)
  }

  ghost predicate CanBreak(cfg: Config, s: State, l: Lasts)
    requires cfg.Valid() && s.Valid(cfg) && l.Valid()
  {
    exists ps :: Breaks(cfg, s, l, ps)
  }

  lemma BreaksAfter(cfg: Config, s: State, l: Lasts, p: Packet)
    requires cfg.Valid() && s.Valid(cfg) && l.Valid() && Belongs(cfg, p)
    requires var q := Rebase(cfg, s, p); l.Of(q) < q.dtsUsec && CanBreak(cfg, Step(cfg, s, p), l.Bump(q))
    ensures CanBreak(cfg, s, l)
  {
    var ps :| Breaks(cfg, Step(cfg, s, p), l.Bump(Rebase(cfg, s, p)), ps);
    assert ([p] + ps)[1..] == ps;
    assert Breaks(cfg, s, l, [p] + ps);
  }

  // ----- Two audio tracks -----

  predicate TwoAudio(cfg: Config, i: nat, j: nat)
    requires cfg.Valid()
  {
    i < MaxAudio && j < MaxAudio && i != j && cfg.audio[i] && cfg.audio[j]
  }

  /** A packet that the output will take to be of time t. */
  function PacketAt(cfg: Config, s: State, kind: PacketType, track: nat, t: int): Packet
    requires cfg.Valid() && s.Valid(cfg) && track < (if kind.Video? then MaxVideo else MaxAudio)
  {
    var dts := t + if kind.Video? then s.videoOffset[track] else s.audioOffset[track];
    Packet(0, kind, track, dts, dts, 0, 1, 1_000_000, true)
  }

  lemma UsecOfUsec(t: int)
    ensures Usec(t, 1_000_000) == t
  {
  }

  lemma TakesAt(cfg: Config, s: State, kind: PacketType, track: nat, t: int)
    requires cfg.Valid() && s.Valid(cfg) && AllReceived(cfg, s)
    requires if kind.Video? then track < MaxVideo && cfg.video[track] else track < MaxAudio && cfg.audio[track]
    ensures var p := PacketAt(cfg, s, kind, track, t);
            && Belongs(cfg, p)
            && var q := Rebase(cfg, s, p);
               q.dtsUsec == t && Is(q, kind, track) && Step(cfg, s, p) == Send(cfg, Accept(cfg, s, q))
  {
    UsecOfUsec(t);
  }

  /** A started output, none of whose packets is at t + 1 or t + 2. */
  ghost predicate Spread(cfg: Config, s: State, t: int) {
    && cfg.Valid() && s.Valid(cfg) && AllReceived(cfg, s) && Sorted(s.buf)
    && forall x <- s.buf :: x.dtsUsec <= t || t + 2 < x.dtsUsec
  }

  lemma StepStaysSpread(cfg: Config, s: State, t: int, q: Packet)
    requires Spread(cfg, s, t) && Belongs(cfg, q) && t + 2 < q.dtsUsec
    ensures Spread(cfg, Send(cfg, Accept(cfg, s, q)), t)
  {
    InsertSorted(s.buf, q);
    InsertMembers(s.buf, q);
  }

  /** Every video track below v has come past t + 2. */
  predicate VideoPast(cfg: Config, s: State, t: int, v: nat)
    requires cfg.Valid() && s.Valid(cfg) && v <= MaxVideo
  {
    forall u :: 0 <= u < v && cfg.video[u] ==> t + 2 < s.highestVideo[u]
  }

  /** One video packet for each track, so that only audio is left to open the gate. */
  lemma {:induction false} VideoGoesAhead(cfg: Config, s: State, l: Lasts, t: int, i: nat, j: nat, v: nat)
    requires Spread(cfg, s, t) && l.Valid() && TwoAudio(cfg, i, j) && v <= MaxVideo && VideoPast(cfg, s, t, v)
    requires l.audio[i] <= t && l.audio[j] <= t && forall u :: v <= u < MaxVideo ==> l.video[u] <= t
    ensures CanBreak(cfg, s, l)
    decreases MaxVideo - v
  {
    if v == MaxVideo {
      AudioRunsAhead(cfg, s, l, t, i, j);
    } else if !cfg.video[v] {
      VideoGoesAhead(cfg, s, l, t, i, j, v + 1);
    } else {
      var p := PacketAt(cfg, s, Video, v, t + 3);
      TakesAt(cfg, s, Video, v, t + 3);
      var q := Rebase(cfg, s, p);
      StepStaysSpread(cfg, s, t, q);
      VideoGoesAhead(cfg, Step(cfg, s, p), l.Bump(q), t, i, j, v + 1);
      BreaksAfter(cfg, s, l, p);
    }
  }

  /** The audio packet at t + 2 has n - 1 packets in front of it, or is out. */
  ghost predicate Draining(cfg: Config, s: State, t: int, n: nat) {
    && cfg.Valid() && s.Valid(cfg) && AllReceived(cfg, s) && VideoPast(cfg, s, t, MaxVideo) && t < s.highestAudio
    && (forall k :: n <= k < |s.buf| ==> t + 2 < s.buf[k].dtsUsec)
    && if n == 0 then exists x <- s.sent :: x.dtsUsec == t + 2
       else && n <= |s.buf| && s.buf[n - 1].kind.Audio? && s.buf[n - 1].dtsUsec == t + 2
            && forall k :: 0 <= k < n - 1 ==> s.buf[k].dtsUsec <= t
  }

  /** The gate is open for all of them. */
  lemma SendDrains(cfg: Config, s: State, t: int, n: nat)
    requires Draining(cfg, s, t, n) && n > 0
    ensures Draining(cfg, Send(cfg, s), t, n - 1)
  {
    assert Gate(cfg, s, s.buf[0]);
    var u := Send(cfg, s);
    assert forall k :: 0 <= k < |u.buf| ==> u.buf[k] == s.buf[k + 1];
    if n == 1 {
      assert s.buf[0] in u.sent;
    }
  }

  /** Track i brings the packet at t + 2. */
  lemma AudioRunsAhead(cfg: Config, s: State, l: Lasts, t: int, i: nat, j: nat)
    requires Spread(cfg, s, t) && l.Valid() && TwoAudio(cfg, i, j) && VideoPast(cfg, s, t, MaxVideo)
    requires l.audio[i] <= t && l.audio[j] <= t
    ensures CanBreak(cfg, s, l)
  {
    var p := PacketAt(cfg, s, Audio, i, t + 2);
    TakesAt(cfg, s, Audio, i, t + 2);
    var q := Rebase(cfg, s, p);
    var u, n := Accept(cfg, s, q), InsertIdx(s.buf, q) + 1;
    forall k | 0 <= k < |u.buf| && k != n - 1
      ensures if k < n - 1 then u.buf[k].dtsUsec <= t else t + 2 < u.buf[k].dtsUsec {
      InsertAt(s.buf, q, k);
      if k >= n {
        assert s.buf[k - 1] in s.buf && (k > n ==> !Before(s.buf[k - 1], s.buf[n - 1]));
      } else {
        assert s.buf[k] in s.buf;
      }
    }
    InsertAt(s.buf, q, n - 1);
    SendDrains(cfg, u, t, n);
    AudioDrains(cfg, Step(cfg, s, p), l.Bump(q), t, i, j, n - 1);
    BreaksAfter(cfg, s, l, p);
  }

  /** More packets of track i, until that one is out. */
  lemma {:induction false} AudioDrains(cfg: Config, s: State, l: Lasts, t: int, i: nat, j: nat, n: nat)
    requires Draining(cfg, s, t, n) && l.Valid() && TwoAudio(cfg, i, j) && l.audio[j] <= t
    ensures CanBreak(cfg, s, l)
    decreases n
  {
    if n == 0 {
      AudioComesLate(cfg, s, l, t, j);
    } else {
      var time := if l.audio[i] < t + 3 then t + 3 else l.audio[i] + 1;
      var p := PacketAt(cfg, s, Audio, i, time);
      TakesAt(cfg, s, Audio, i, time);
      var q := Rebase(cfg, s, p);
      AcceptDrains(cfg, s, t, n, q);
      SendDrains(cfg, Accept(cfg, s, q), t, n);
      AudioDrains(cfg, Step(cfg, s, p), l.Bump(q), t, i, j, n - 1);
      BreaksAfter(cfg, s, l, p);
    }
  }

  lemma AcceptDrains(cfg: Config, s: State, t: int, n: nat, q: Packet)
    requires Draining(cfg, s, t, n) && n > 0 && Belongs(cfg, q) && q.kind.Audio? && t + 2 < q.dtsUsec
    ensures Draining(cfg, Accept(cfg, s, q), t, n)
  {
    var u := Accept(cfg, s, q);
    assert InsertIdx(s.buf, q) >= n;
    forall k | 0 <= k < |u.buf| ensures if k < n then u.buf[k] == s.buf[k] else t + 2 < u.buf[k].dtsUsec {
      InsertAt(s.buf, q, k);
    }
  }

  /** Track j, which has come no further than t, brings one at t + 1, and it goes out. */
  lemma AudioComesLate(cfg: Config, s: State, l: Lasts, t: int, j: nat)
    requires Draining(cfg, s, t, 0) && l.Valid() && j < MaxAudio && cfg.audio[j] && l.audio[j] <= t
    ensures CanBreak(cfg, s, l)
  {
    var p := PacketAt(cfg, s, Audio, j, t + 1);
    TakesAt(cfg, s, Audio, j, t + 1);
    var q := Rebase(cfg, s, p);
    InsertIdxUnique(s.buf, q, 0);
    var u := Accept(cfg, s, q);
    assert u.buf == [q] + s.buf && Gate(cfg, u, q);
    assert [p][1..] == [];
    assert Run(cfg, s, [p]) == Step(cfg, s, p) == Send(cfg, u);
    var sent := Send(cfg, u).sent;
    var k :| 0 <= k < |s.sent| && s.sent[k].dtsUsec == t + 2;
    assert sent[k] == s.sent[k] && sent[|s.sent|] == q;
    assert Before(sent[|s.sent|], sent[k]);
    assert !Sorted(sent);
    assert Breaks(cfg, s, l, [p]);
  }

  /** A time past all of these. */
  function PastAll(ts: seq<int>): (r: int)
    ensures forall k :: 0 <= k < |ts| ==> ts[k] <= r
  {
    if ts == [] then 0
    else
      var r := PastAll(ts[1..]);
      assert forall k :: 0 < k < |ts| ==> ts[k] == ts[1..][k - 1];
      if r < ts[0] then ts[0] else r
  }

  /** From any started output with two audio encoders, whatever it holds and however far its
      tracks have come, some continuation goes out of order. */
  lemma TwoTracksCanBreak(cfg: Config, s: State, l: Lasts, i: nat, j: nat)
    requires cfg.Valid() && s.Valid(cfg) && AllReceived(cfg, s) && Sorted(s.buf) && l.Valid() && TwoAudio(cfg, i, j)
    ensures CanBreak(cfg, s, l)
  {
    var times := seq(|s.buf|, k requires 0 <= k < |s.buf| => s.buf[k].dtsUsec);
    var ends := [PastAll(l.video), PastAll(l.audio), PastAll(times)];
    var t := PastAll(ends);
    assert ends[0] <= t && ends[1] <= t && ends[2] <= t;
    forall k | 0 <= k < |s.buf| ensures s.buf[k].dtsUsec <= t {
      assert times[k] == s.buf[k].dtsUsec;
    }
    VideoGoesAhead(cfg, s, l, t, i, j, 0);
  }

  // ----- One audio track -----

  /** Audio is one stream, because it is one track. */
  ghost predicate Follows(cfg: Config, m: Marks, l: Lasts)
    requires cfg.Valid()
  {
    l.Valid() && l.video == m.video && forall i :: 0 <= i < MaxAudio && cfg.audio[i] ==> l.audio[i] == m.audio
  }

  lemma {:induction false} OneTrackKeepsOrder(cfg: Config, s: State, m: Marks, l: Lasts, ps: seq<Packet>)
    requires cfg.Valid() && Inv(cfg, s, m) && Follows(cfg, m, l) && Advances(cfg, s, l, ps)
    requires (forall p <- ps :: Belongs(cfg, p)) && forall i, j :: !TwoAudio(cfg, i, j)
    ensures Sorted(Run(cfg, s, ps).sent)
    decreases |ps|
  {
    if ps == [] {
      StrictConcat(s.sent, s.buf);
      StrictIsSorted(s.sent);
    } else {
      var q := Rebase(cfg, s, ps[0]);
      StepKeepsInv(cfg, s, m, ps[0]);
      assert q.kind.Audio? ==>
          forall i :: 0 <= i < MaxAudio && cfg.audio[i] && i != q.track ==> TwoAudio(cfg, i, q.track);
      OneTrackKeepsOrder(cfg, Step(cfg, s, ps[0]), m.Bump(q), l.Bump(q), ps[1..]);
    }
  }

  // ----- The two together -----

  /** A started output, with any number of video encoders, keeps its order over every
      continuation in which each track brings later and later packets, if and only if it has at
      most one audio encoder. */
  lemma OneAudioTrackIff(cfg: Config, s: State, m: Marks, l: Lasts)
    requires cfg.Valid() && Inv(cfg, s, m) && Follows(cfg, m, l)
    ensures (forall ps :: !Breaks(cfg, s, l, ps)) <==> forall i, j :: !TwoAudio(cfg, i, j)
  {
    StrictConcat(s.sent, s.buf);
    StrictIsSorted(s.buf);
    if i: nat, j: nat :| TwoAudio(cfg, i, j) {
      TwoTracksCanBreak(cfg, s, l, i, j);
    } else {
      forall ps | Advances(cfg, s, l, ps) && forall p <- ps :: Belongs(cfg, p) ensures Sorted(Run(cfg, s, ps).sent) {
        OneTrackKeepsOrder(cfg, s, m, l, ps);
      }
    }
  }
}

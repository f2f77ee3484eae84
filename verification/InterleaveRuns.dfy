/** What the interleaver keeps over whole runs: no packet is lost or doubled, and once the
    output has started, what it has sent is a prefix of all its packets sorted, however the
    encoder callbacks interleave. */
module InterleaveRuns {
  import opened Seqs
  import opened Packets
  import opened InterleaveSpec

  /** Any list of encoder callbacks. */
  function Run(cfg: Config, s: State, ps: seq<Packet>): (r: State)
    requires cfg.Valid() && s.Valid(cfg) && forall p <- ps :: Belongs(cfg, p)
    ensures r.Valid(cfg)
    decreases |ps|
  {
    if ps == [] then s else Run(cfg, Step(cfg, s, ps[0]), ps[1..])
  }

  // ----- Conservation -----

  /** How many packets of the list carry a payload. */
  function Count(ps: seq<Packet>, id: int): nat {
    if ps == [] then 0 else (if ps[0].id == id then 1 else 0) + Count(ps[1..], id)
  }

  /** How often the output holds a payload: buffered, sent or dropped. */
  function Copies(s: State, id: int): nat {
    Count(s.buf, id) + Count(s.sent, id) + Count(s.dropped, id)
  }

  lemma {:induction false} CountAppend(a: seq<Packet>, b: seq<Packet>, id: int)
    ensures Count(a + b, id) == Count(a, id) + Count(b, id)
  {
    if a == [] {
      assert a + b == b;
    } else {
      CountAppend(a[1..], b, id);
      assert (a + b)[1..] == a[1..] + b;
    }
  }

  lemma CountSplit(a: seq<Packet>, i: nat, id: int)
    requires i <= |a|
    ensures Count(a, id) == Count(a[..i], id) + Count(a[i..], id)
  {
    CountAppend(a[..i], a[i..], id);
    assert a == a[..i] + a[i..];
  }

  lemma CountOne(p: Packet, id: int)
    ensures Count([p], id) == if p.id == id then 1 else 0
  {
    assert [p][1..] == [];
  }

  lemma CountInsert(buf: seq<Packet>, out: Packet, id: int)
    ensures Count(Insert(buf, out), id) == Count(buf, id) + Count([out], id)
  {
    var i := InsertIdx(buf, out);
    CountAppend(buf[..i] + [out], buf[i..], id);
    CountAppend(buf[..i], [out], id);
    CountSplit(buf, i, id);
  }

  lemma {:induction false} CountResort(ps: seq<Packet>, id: int)
    ensures Count(Resort(ps), id) == Count(ps, id)
  {
    if ps != [] {
      var n := |ps| - 1;
      CountResort(ps[..n], id);
      CountInsert(Resort(ps[..n]), ps[n], id);
      CountSplit(ps, n, id);
      assert ps[n..] == [ps[n]];
    }
  }

  lemma {:induction false} CountSame(a: seq<Packet>, b: seq<Packet>, id: int)
    requires |a| == |b| && forall i :: 0 <= i < |a| ==> a[i].id == b[i].id
    ensures Count(a, id) == Count(b, id)
  {
    if a != [] {
      CountSame(a[1..], b[1..], id);
    }
  }

  lemma DiscardConserves(s: State, idx: nat, id: int)
    requires idx <= |s.buf|
    ensures Copies(Discard(s, idx), id) == Copies(s, id)
  {
    CountAppend(s.dropped, s.buf[..idx], id);
    CountSplit(s.buf, idx, id);
  }

  lemma SendConserves(cfg: Config, s: State, id: int)
    requires cfg.Valid() && s.Valid(cfg) && s.buf != []
    ensures Copies(Send(cfg, s), id) == Copies(s, id)
  {
    CountAppend(s.sent, [s.buf[0]], id);
    CountOne(s.buf[0], id);
  }

  lemma ResortAndSendConserves(cfg: Config, s: State, id: int)
    requires cfg.Valid() && s.Valid(cfg) && s.buf != []
    ensures Copies(ResortAndSend(cfg, s), id) == Copies(s, id)
  {
    ResortBag(s.buf);
    assert forall p <- Resort(s.buf) :: p in multiset(Resort(s.buf));
    CountResort(s.buf, id);
    SendConserves(cfg, s.(buf := Resort(s.buf)), id);
  }

  lemma PruneConserves(cfg: Config, s: State, id: int)
    requires cfg.Valid() && s.Valid(cfg)
    ensures Copies(Prune(cfg, s).0, id) == Copies(s, id)
  {
    var (s1, prune) := PrunePremature(cfg, s);
    if prune != -1 {
      DiscardConserves(s1, if prune != 0 then prune else StartIdx(s.buf), id);
    }
  }

  lemma StartTimesConserves(cfg: Config, s: State, id: int)
    requires cfg.Valid() && s.Valid(cfg) && Complete(cfg, s.buf)
    ensures Copies(StartTimes(cfg, s), id) == Copies(s, id)
  {
    CountSame(StartTimes(cfg, s).buf, s.buf, id);
  }

  lemma TrimConserves(cfg: Config, s: State, id: int)
    requires cfg.Valid() && s.Valid(cfg) && true in cfg.audio && FirstIdx(s.buf, Video, 0) >= 0
    ensures Copies(TrimAndStart(cfg, s).0, id) == Copies(s, id)
  {
    var n := StartIdx(s.buf);
    DiscardConserves(s, n, id);
    var (s1, ok) := CheckStreams(cfg, Discard(s, n));
    if ok {
      assert HasFirst(s1.buf, cfg.video, Video, FirstSlot(cfg.video));
      StartTimesConserves(cfg, s1, id);
    }
  }

  lemma InitializeConserves(cfg: Config, s: State, id: int)
    requires cfg.Valid() && s.Valid(cfg) && cfg.video[0]
    ensures Copies(Initialize(cfg, s).0, id) == Copies(s, id)
  {
    if true in cfg.audio {
      var (s1, ok) := CheckStreams(cfg, s);
      if ok {
        assert HasFirst(s.buf, cfg.video, Video, 0) && HasFirst(s.buf, cfg.video, Video, FirstSlot(cfg.video));
        TrimConserves(cfg, s1, id);
      }
    }
  }

  lemma StartConserves(cfg: Config, s: State, id: int)
    requires cfg.Valid() && s.Valid(cfg)
    ensures Copies(Start(cfg, s), id) == Copies(s, id)
  {
    PruneConserves(cfg, s, id);
    var (s1, pruned) := Prune(cfg, s);
    if pruned {
      InitializeConserves(cfg, s1, id);
      var (s2, ready) := Initialize(cfg, s1);
      if ready {
        ResortAndSendConserves(cfg, s2, id);
      }
    }
  }

  lemma AcceptConserves(cfg: Config, s: State, out: Packet, id: int)
    requires cfg.Valid() && s.Valid(cfg) && Belongs(cfg, out)
    ensures Copies(Accept(cfg, s, out), id) == Copies(s, id) + (if out.id == id then 1 else 0)
  {
    CountInsert(s.buf, out, id);
    CountOne(out, id);
  }

  /** Every packet handed in is afterwards buffered, sent or dropped, in exactly one place. */
  lemma StepConserves(cfg: Config, s: State, p: Packet, id: int)
    requires cfg.Valid() && s.Valid(cfg) && Belongs(cfg, p)
    ensures Copies(Step(cfg, s, p), id) == Copies(s, id) + (if p.id == id then 1 else 0)
  {
    if p.kind.Video? && !s.receivedVideo[p.track] && !p.keyframe {
      var s1 := Discard(s, UnusedIdx(s.buf, p.dtsUsec));
      DiscardConserves(s, UnusedIdx(s.buf, p.dtsUsec), id);
      CountAppend(s1.dropped, [p], id);
      CountOne(p, id);
    } else {
      var started := AllReceived(cfg, s);
      var out := if started then Rebase(cfg, s, p) else p;
      var s1 := if started then s else CheckReceived(cfg, s, p);
      AcceptConserves(cfg, s1, out, id);
      var s2 := Accept(cfg, s1, out);
      if AllReceived(cfg, s2) {
        if started {
          SendConserves(cfg, s2, id);
        } else {
          StartConserves(cfg, s2, id);
        }
      }
    }
  }

  /** Over any run, from any state, in any configuration: no packet is lost or doubled. */
  lemma {:induction false} RunConserves(cfg: Config, s: State, ps: seq<Packet>, id: int)
    requires cfg.Valid() && s.Valid(cfg) && forall p <- ps :: Belongs(cfg, p)
    ensures Copies(Run(cfg, s, ps), id) == Copies(s, id) + Count(ps, id)
    decreases |ps|
  {
    if ps != [] {
      StepConserves(cfg, s, ps[0], id);
      RunConserves(cfg, Step(cfg, s, ps[0]), ps[1..], id);
    }
  }

  // ----- Order, once the output has started -----

  /** The time of the latest packet of each stream. */
  datatype Marks = Marks(video: seq<int>, audio: int) {
    function Of(p: Packet): int
      requires p.kind.Video? ==> p.track < |video|
    {
      if p.kind.Video? then video[p.track] else audio
    }

    function Bump(p: Packet): Marks
      requires p.kind.Video? ==> p.track < |video|
    {
      if p.kind.Video? then this.(video := video[p.track := p.dtsUsec]) else this.(audio := p.dtsUsec)
    }
  }

  /** Everything the output has taken, in the order it leaves in. */
  function Line(s: State): seq<Packet> {
    s.sent + s.buf
  }

  /** No stream can any longer bring a packet at or before p. */
  ghost predicate Settled(cfg: Config, m: Marks, p: Packet)
    requires cfg.Valid() && |m.video| == MaxVideo
  {
    && (forall i :: 0 <= i < MaxVideo && cfg.video[i] ==> p.dtsUsec <= m.video[i])
    && p.dtsUsec <= m.audio
  }

  /** The state of a started output whose streams have come as far as m. A highest mark may
      run one microsecond ahead of its stream: that is what start-up rounding can cause. */
  ghost predicate Inv(cfg: Config, s: State, m: Marks)
    requires cfg.Valid()
  {
    && s.Valid(cfg) && |m.video| == MaxVideo
    && AllReceived(cfg, s)
    && Strict(Line(s))
    && (forall p <- Line(s) :: Belongs(cfg, p) && p.dtsUsec <= m.Of(p))
    && (forall p <- s.sent :: Settled(cfg, m, p))
    && GateSound(cfg, s, m)
  }

  ghost predicate GateSound(cfg: Config, s: State, m: Marks)
    requires cfg.Valid() && s.Valid(cfg) && |m.video| == MaxVideo
  {
    && (forall i :: 0 <= i < MaxVideo && cfg.video[i] ==> s.highestVideo[i] <= m.video[i] + 1)
    && s.highestAudio <= m.audio + 1
  }

  /** A packet later than all earlier ones of its stream keeps the line strictly ordered. */
  lemma AcceptKeepsLine(cfg: Config, s: State, m: Marks, q: Packet)
    requires cfg.Valid() && Inv(cfg, s, m) && Belongs(cfg, q) && m.Of(q) < q.dtsUsec
    ensures Strict(Line(Accept(cfg, s, q)))
    ensures multiset(Line(Accept(cfg, s, q))) == multiset(Line(s)) + multiset{q}
  {
    StrictConcat(s.sent, s.buf);
    assert forall x <- s.buf :: x in Line(s);
    InsertStrict(s.buf, q);
    InsertMembers(s.buf, q);
    forall x <- s.sent, y <- Insert(s.buf, q) ensures Before(x, y) {
      if y == q {
        assert Settled(cfg, m, x);
      }
    }
    StrictConcat(s.sent, Insert(s.buf, q));
    InsertBag(s.buf, q);
  }

  lemma SettledGrows(cfg: Config, m: Marks, q: Packet, p: Packet)
    requires cfg.Valid() && |m.video| == MaxVideo && Belongs(cfg, q) && m.Of(q) < q.dtsUsec
    requires Settled(cfg, m, p)
    ensures Settled(cfg, m.Bump(q), p)
  {
  }

  lemma AcceptKeepsInv(cfg: Config, s: State, m: Marks, q: Packet)
    requires cfg.Valid() && Inv(cfg, s, m) && Belongs(cfg, q) && m.Of(q) < q.dtsUsec
    ensures Inv(cfg, Accept(cfg, s, q), m.Bump(q))
  {
    AcceptKeepsLine(cfg, s, m, q);
    var t := Accept(cfg, s, q);
    InsertMembers(s.buf, q);
    assert forall p <- Line(t) :: p == q || p in Line(s);
    forall p <- t.sent ensures Settled(cfg, m.Bump(q), p) {
      SettledGrows(cfg, m, q, p);
    }
  }

  lemma SendKeepsInv(cfg: Config, s: State, m: Marks)
    requires cfg.Valid() && Inv(cfg, s, m) && s.buf != []
    ensures Inv(cfg, Send(cfg, s), m)
    ensures Line(Send(cfg, s)) == Line(s) && s.sent <= Send(cfg, s).sent
  {
    var t, p := Send(cfg, s), s.buf[0];
    if Gate(cfg, s, p) {
      Assoc(s.sent, [p], s.buf[1..]);
      assert s.buf == [p] + s.buf[1..];
      assert Line(s)[|s.sent|] == p;
      assert Line(s)[|s.sent|] in Line(s);
      assert Settled(cfg, m, p);
    }
  }

  /** One callback of a started output. */
  lemma StepKeepsInv(cfg: Config, s: State, m: Marks, raw: Packet)
    requires cfg.Valid() && Inv(cfg, s, m) && Belongs(cfg, raw)
    requires m.Of(raw) < Rebase(cfg, s, raw).dtsUsec
    ensures var q, t := Rebase(cfg, s, raw), Step(cfg, s, raw);
            && Inv(cfg, t, m.Bump(q)) && s.sent <= t.sent
            && multiset(Line(t)) == multiset(Line(s)) + multiset{q}
            && t.videoOffset == s.videoOffset && t.audioOffset == s.audioOffset
  {
    var q := Rebase(cfg, s, raw);
    AcceptKeepsLine(cfg, s, m, q);
    AcceptKeepsInv(cfg, s, m, q);
    SendKeepsInv(cfg, Accept(cfg, s, q), m.Bump(q));
  }

  /** Within each stream times strictly increase, starting past the marks. */
  ghost predicate Increasing(cfg: Config, m: Marks, qs: seq<Packet>)
    requires cfg.Valid() && |m.video| == MaxVideo
  {
    && (forall q <- qs :: Belongs(cfg, q) && m.Of(q) < q.dtsUsec)
    && (forall i, j :: 0 <= i < j < |qs| && SameStream(qs[i], qs[j]) ==> qs[i].dtsUsec < qs[j].dtsUsec)
  }

  lemma IncreasingTail(cfg: Config, m: Marks, qs: seq<Packet>)
    requires cfg.Valid() && |m.video| == MaxVideo && Increasing(cfg, m, qs) && qs != []
    ensures Increasing(cfg, m.Bump(qs[0]), qs[1..])
  {
    forall q <- qs[1..] ensures Belongs(cfg, q) && m.Bump(qs[0]).Of(q) < q.dtsUsec {
      var j :| 0 <= j < |qs[1..]| && qs[1..][j] == q;
      assert qs[j + 1] == q && q in qs;
    }
    forall i, j | 0 <= i < j < |qs[1..]| && SameStream(qs[1..][i], qs[1..][j])
      ensures qs[1..][i].dtsUsec < qs[1..][j].dtsUsec {
      assert SameStream(qs[i + 1], qs[j + 1]);
    }
  }

  /** The whole run of a started output: what was sent stays sent, and sent and buffered
      together are all packets, sorted. */
  lemma RunIsSorted(cfg: Config, s: State, m: Marks, ps: seq<Packet>)
    requires cfg.Valid() && Inv(cfg, s, m) && forall p <- ps :: Belongs(cfg, p)
    requires Increasing(cfg, m, RebaseAll(cfg, s, ps))
    ensures var t := Run(cfg, s, ps);
            && s.sent <= t.sent
            && Line(t) == Resort(Line(s) + RebaseAll(cfg, s, ps))
    decreases |ps|
  {
    var t, all := Run(cfg, s, ps), Line(s) + RebaseAll(cfg, s, ps);
    RunLine(cfg, s, m, ps);
    ResortBag(all);
    StrictIsSorted(Line(t));
    assert multiset(all) == multiset(Line(s)) + multiset(RebaseAll(cfg, s, ps));
    SortedUnique(Line(t), Resort(all));
  }

  lemma RebaseTail(cfg: Config, s: State, u: State, ps: seq<Packet>)
    requires cfg.Valid() && s.Valid(cfg) && u.Valid(cfg) && ps != [] && forall p <- ps :: Belongs(cfg, p)
    requires u.videoOffset == s.videoOffset && u.audioOffset == s.audioOffset
    ensures RebaseAll(cfg, s, ps)[1..] == RebaseAll(cfg, u, ps[1..])
    ensures RebaseAll(cfg, s, ps) == [Rebase(cfg, s, ps[0])] + RebaseAll(cfg, u, ps[1..])
  {
    var a, b := RebaseAll(cfg, s, ps), RebaseAll(cfg, u, ps[1..]);
    assert forall i :: 0 <= i < |b| ==> b[i] == Rebase(cfg, s, ps[i + 1]) == a[i + 1];
  }

  /** The first callback of a run, and what is left for the rest. */
  lemma RunHead(cfg: Config, s: State, m: Marks, ps: seq<Packet>) returns (u: State, mu: Marks)
    requires cfg.Valid() && Inv(cfg, s, m) && ps != [] && forall p <- ps :: Belongs(cfg, p)
    requires Increasing(cfg, m, RebaseAll(cfg, s, ps))
    ensures u == Step(cfg, s, ps[0]) && Inv(cfg, u, mu) && s.sent <= u.sent
    ensures RebaseAll(cfg, s, ps) == [Rebase(cfg, s, ps[0])] + RebaseAll(cfg, u, ps[1..])
    ensures multiset(Line(u)) == multiset(Line(s)) + multiset{Rebase(cfg, s, ps[0])}
    ensures Increasing(cfg, mu, RebaseAll(cfg, u, ps[1..]))
  {
    var qs := RebaseAll(cfg, s, ps);
    assert qs[0] in qs;
    StepKeepsInv(cfg, s, m, ps[0]);
    u, mu := Step(cfg, s, ps[0]), m.Bump(qs[0]);
    RebaseTail(cfg, s, u, ps);
    IncreasingTail(cfg, m, qs);
  }

  lemma {:induction false} RunLine(cfg: Config, s: State, m: Marks, ps: seq<Packet>)
    requires cfg.Valid() && Inv(cfg, s, m) && forall p <- ps :: Belongs(cfg, p)
    requires Increasing(cfg, m, RebaseAll(cfg, s, ps))
    ensures var t := Run(cfg, s, ps);
            && s.sent <= t.sent && Strict(Line(t))
            && multiset(Line(t)) == multiset(Line(s)) + multiset(RebaseAll(cfg, s, ps))
    decreases |ps|
  {
    if ps == [] {
      assert RebaseAll(cfg, s, ps) == [];
    } else {
      var u, mu := RunHead(cfg, s, m, ps);
      RunLine(cfg, u, mu, ps[1..]);
    }
  }

  /** Sent packets are a prefix of the sorted list of all packets. */
  lemma SentIsSortedPrefix(cfg: Config, s: State, m: Marks, ps: seq<Packet>, more: seq<Packet>)
    requires cfg.Valid() && Inv(cfg, s, m) && forall p <- ps + more :: Belongs(cfg, p)
    requires Increasing(cfg, m, RebaseAll(cfg, s, ps + more))
    ensures (forall p <- ps :: Belongs(cfg, p))
            && Run(cfg, s, ps).sent <= Resort(Line(s) + RebaseAll(cfg, s, ps + more))
  {
    assert forall p <- ps :: p in ps + more;
    assert forall p <- more :: p in ps + more;
    RunIsSorted(cfg, s, m, ps + more);
    RunSplit(cfg, s, m, ps, more);
    var t := Run(cfg, s, ps + more);
    assert t.sent <= Line(t);
  }

  lemma {:induction false} RunSplit(cfg: Config, s: State, m: Marks, ps: seq<Packet>, more: seq<Packet>)
    requires cfg.Valid() && Inv(cfg, s, m) && (forall p <- ps :: Belongs(cfg, p))
             && (forall p <- more :: Belongs(cfg, p))
    requires Increasing(cfg, m, RebaseAll(cfg, s, ps + more))
    ensures Run(cfg, s, ps).sent <= Run(cfg, s, ps + more).sent
    decreases |ps|
  {
    if ps == [] {
      assert ps + more == more;
      RunLine(cfg, s, m, more);
    } else {
      var u, mu := RunHead(cfg, s, m, ps + more);
      assert (ps + more)[1..] == ps[1..] + more;
      RunSplit(cfg, u, mu, ps[1..], more);
    }
  }

  /** Two runs that deliver the same packets in different interleavings end with the same
      line, so whichever has sent less has sent a prefix of what the other has. */
  lemma InterleavingDoesNotMatter(cfg: Config, s: State, m: Marks, ps: seq<Packet>, qs: seq<Packet>)
    requires cfg.Valid() && Inv(cfg, s, m)
    requires (forall p <- ps :: Belongs(cfg, p)) && (forall p <- qs :: Belongs(cfg, p))
    requires Increasing(cfg, m, RebaseAll(cfg, s, ps)) && Increasing(cfg, m, RebaseAll(cfg, s, qs))
    requires multiset(RebaseAll(cfg, s, ps)) == multiset(RebaseAll(cfg, s, qs))
    ensures Line(Run(cfg, s, ps)) == Line(Run(cfg, s, qs))
    ensures Run(cfg, s, ps).sent <= Run(cfg, s, qs).sent || Run(cfg, s, qs).sent <= Run(cfg, s, ps).sent
  {
    RunLine(cfg, s, m, ps);
    RunLine(cfg, s, m, qs);
    var a, b := Run(cfg, s, ps), Run(cfg, s, qs);
    StrictIsSorted(Line(b));
    SortedUnique(Line(a), Line(b));
    assert a.sent <= Line(a) && b.sent <= Line(a);
  }

  /** Times never go back on the way out. */
  lemma SentTimesNeverDecrease(cfg: Config, s: State, m: Marks, ps: seq<Packet>)
    requires cfg.Valid() && Inv(cfg, s, m) && forall p <- ps :: Belongs(cfg, p)
    requires Increasing(cfg, m, RebaseAll(cfg, s, ps))
    ensures var sent := Run(cfg, s, ps).sent;
            forall i, j :: 0 <= i < j < |sent| ==> Before(sent[i], sent[j]) && sent[i].dtsUsec <= sent[j].dtsUsec
  {
    RunLine(cfg, s, m, ps);
    var t := Run(cfg, s, ps);
    forall i, j | 0 <= i < j < |t.sent| ensures Before(t.sent[i], t.sent[j]) {
      assert Line(t)[i] == t.sent[i] && Line(t)[j] == t.sent[j];
    }
  }

  // ----- Any started output, whatever its streams bring -----

  /** A packet that should have gone out before the last one that did. */
  predicate Late(s: State, q: Packet) {
    s.sent != [] && Before(q, s.sent[|s.sent| - 1])
  }

  lemma NotLateIff(s: State, q: Packet)
    requires Sorted(s.sent)
    ensures !Late(s, q) <==> forall x <- s.sent :: !Before(q, x)
  {
    if s.sent != [] {
      var n := |s.sent| - 1;
      assert s.sent[n] in s.sent;
      forall x <- s.sent | Before(q, x) ensures Before(q, s.sent[n]) {
        var i :| 0 <= i < |s.sent| && s.sent[i] == x;
        assert i < n ==> !Before(s.sent[n], s.sent[i]);
      }
    }
  }

  /** In any configuration: accepting keeps the line sorted if and only if the packet is not
      late. */
  lemma AcceptSortedIff(cfg: Config, s: State, q: Packet)
    requires cfg.Valid() && s.Valid(cfg) && Belongs(cfg, q) && Sorted(Line(s))
    ensures Sorted(Line(Accept(cfg, s, q))) <==> !Late(s, q)
  {
    SortedConcat(s.sent, s.buf);
    SortedConcat(s.sent, Insert(s.buf, q));
    InsertSorted(s.buf, q);
    InsertMembers(s.buf, q);
    NotLateIff(s, q);
  }

  lemma SendKeepsLine(cfg: Config, s: State)
    requires cfg.Valid() && s.Valid(cfg) && s.buf != []
    ensures Line(Send(cfg, s)) == Line(s)
  {
    Assoc(s.sent, [s.buf[0]], s.buf[1..]);
    assert s.buf == [s.buf[0]] + s.buf[1..];
  }

  /** What is out of order stays so. */
  lemma UnsortedStays(cfg: Config, s: State, p: Packet)
    requires cfg.Valid() && s.Valid(cfg) && AllReceived(cfg, s) && Belongs(cfg, p) && Sorted(s.buf)
    ensures Sorted(Step(cfg, s, p).buf)
    ensures !Sorted(Line(s)) ==> !Sorted(Line(Step(cfg, s, p)))
  {
    var q := Rebase(cfg, s, p);
    var t := Accept(cfg, s, q);
    InsertSorted(s.buf, q);
    InsertMembers(s.buf, q);
    TailIsOrdered(t.buf);
    SendKeepsLine(cfg, t);
    SortedConcat(s.sent, s.buf);
    SortedConcat(s.sent, t.buf);
  }

  /** No packet of the run is late when it arrives. */
  predicate OnTime(cfg: Config, s: State, ps: seq<Packet>)
    requires cfg.Valid() && s.Valid(cfg) && forall p <- ps :: Belongs(cfg, p)
    decreases |ps|
  {
    ps != [] ==> !Late(s, Rebase(cfg, s, ps[0])) && OnTime(cfg, Step(cfg, s, ps[0]), ps[1..])
  }

  lemma {:induction false} UnsortedRun(cfg: Config, s: State, ps: seq<Packet>)
    requires cfg.Valid() && s.Valid(cfg) && AllReceived(cfg, s) && forall p <- ps :: Belongs(cfg, p)
    requires Sorted(s.buf) && !Sorted(Line(s))
    ensures !Sorted(Line(Run(cfg, s, ps)))
    decreases |ps|
  {
    if ps != [] {
      UnsortedStays(cfg, s, ps[0]);
      UnsortedRun(cfg, Step(cfg, s, ps[0]), ps[1..]);
    }
  }

  /** Any started output, of however many encoders, over any run: sent and buffered packets
      together stay sorted if and only if no packet is late when it arrives. */
  lemma {:induction false} RunSortedIff(cfg: Config, s: State, ps: seq<Packet>)
    requires cfg.Valid() && s.Valid(cfg) && AllReceived(cfg, s) && forall p <- ps :: Belongs(cfg, p)
    requires Sorted(Line(s))
    ensures Sorted(Line(Run(cfg, s, ps))) <==> OnTime(cfg, s, ps)
    ensures OnTime(cfg, s, ps) ==> Sorted(Run(cfg, s, ps).sent)
    decreases |ps|
  {
    SortedConcat(s.sent, s.buf);
    if ps != [] {
      var q, t := Rebase(cfg, s, ps[0]), Step(cfg, s, ps[0]);
      AcceptSortedIff(cfg, s, q);
      SendKeepsLine(cfg, Accept(cfg, s, q));
      UnsortedStays(cfg, s, ps[0]);
      if Late(s, q) {
        UnsortedRun(cfg, t, ps[1..]);
      } else {
        RunSortedIff(cfg, t, ps[1..]);
      }
    }
  }
}

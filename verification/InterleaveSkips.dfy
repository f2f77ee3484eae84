/** When an output counts as started although it never was. A start that finds no packet of
    video track 0 gives up and unmarks nothing. It finds none when a frame that its own track
    cannot use yet has thrown away everything older than it, track 0 included, and always when
    slot 0 has no encoder. */
module InterleaveSkips {
  import opened Packets
  import opened InterleaveSpec
  import opened InterleaveRuns
  import opened Seqs

  /** Audio has been heard from only if some audio track has an encoder. */
  ghost predicate Heard(cfg: Config, s: State) {
    cfg.Valid() && (s.receivedAudio ==> true in cfg.audio)
  }

  lemma NoVideoGivesUp(cfg: Config, s: State)
    requires cfg.Valid() && s.Valid(cfg) && FirstIdx(s.buf, Video, 0) == -1
    ensures !Ready(cfg, s) && Start(cfg, s) == s
  {
  }

  lemma FailedStartUnmarks(cfg: Config, s: State)
    requires Heard(cfg, s) && s.Valid(cfg) && AllReceived(cfg, s) && FirstIdx(s.buf, Video, 0) >= 0 && !Ready(cfg, s)
    ensures !AllReceived(cfg, Start(cfg, s)) && !Emptied(cfg, Start(cfg, s))
  {
    var (s1, pruned) := Prune(cfg, s);
    if pruned {
      FailedInitializeUnmarks(cfg, s1);
    }
  }

  /** The start is given up with every stream still marked if and only if there is no packet of
      video track 0. */
  lemma GivenUpIff(cfg: Config, s: State)
    requires Heard(cfg, s) && s.Valid(cfg) && AllReceived(cfg, s)
    ensures !Ready(cfg, s) && AllReceived(cfg, Start(cfg, s)) <==> FirstIdx(s.buf, Video, 0) == -1
    ensures FirstIdx(s.buf, Video, 0) == -1 ==> Start(cfg, s) == s
    ensures !Ready(cfg, s) ==> !Emptied(cfg, Start(cfg, s)) || FirstIdx(s.buf, Video, 0) == -1
  {
    if FirstIdx(s.buf, Video, 0) == -1 {
      NoVideoGivesUp(cfg, s);
    } else if !Ready(cfg, s) {
      FailedStartUnmarks(cfg, s);
    }
  }

  lemma FailedInitializeUnmarks(cfg: Config, s: State)
    requires Heard(cfg, s) && cfg.video[0] && s.Valid(cfg) && AllReceived(cfg, s) && !Initialize(cfg, s).1
    ensures !AllReceived(cfg, Initialize(cfg, s).0) && !Emptied(cfg, Initialize(cfg, s).0)
  {
    FailedCheckUnmarks(cfg, s);
    if CheckStreams(cfg, s).1 {
      assert HasFirst(s.buf, cfg.video, Video, 0);
      if !AudioTooEarly(cfg, s) {
        FailedCheckUnmarks(cfg, Discard(s, StartIdx(s.buf)));
      }
    }
  }

  lemma FailedCheckUnmarks(cfg: Config, s: State)
    requires Heard(cfg, s) && cfg.video[0] && s.Valid(cfg) && AllReceived(cfg, s)
    ensures var (t, ok) := CheckStreams(cfg, s); !ok ==> !AllReceived(cfg, t) && !Emptied(cfg, t)
  {
    var v := MissingSlot(s.buf, cfg.video, Video, 0);
    if v < MaxVideo {
      assert !HasFirst(s.buf, cfg.video, Video, v);
      assert v > 0 ==> HasFirst(s.buf, cfg.video, Video, 0);
    } else {
      assert HasFirst(s.buf, cfg.video, Video, 0);
    }
  }

  /** Track 0 has no packet, and is marked or has no encoder. */
  predicate Emptied(cfg: Config, s: State)
    requires cfg.Valid() && s.Valid(cfg)
  {
    (cfg.video[0] ==> s.receivedVideo[0]) && FirstIdx(s.buf, Video, 0) == -1
  }

  /** A frame its own track cannot use, later than everything track 0 has in the buffer. */
  predicate Swallows(cfg: Config, s: State, p: Packet)
    requires cfg.Valid() && s.Valid(cfg) && Belongs(cfg, p)
  {
    Unwanted(cfg, s, p) && s.receivedVideo[0] && forall x <- s.buf :: Is(x, Video, 0) ==> x.dtsUsec < p.dtsUsec
  }

  /** The packet after which every stream counts as received, without a start. */
  predicate Skips(cfg: Config, s: State, p: Packet)
    requires cfg.Valid() && s.Valid(cfg) && Belongs(cfg, p)
  {
    !AllReceived(cfg, s) && !StartsAt(cfg, s, p) && AllReceived(cfg, Step(cfg, s, p))
  }

  lemma FirstAfterInsert(buf: seq<Packet>, p: Packet)
    ensures FirstIdx(Insert(buf, p), Video, 0) == -1 <==> FirstIdx(buf, Video, 0) == -1 && !Is(p, Video, 0)
  {
    InsertMembers(buf, p);
    var i, j := FirstIdx(buf, Video, 0), FirstIdx(Insert(buf, p), Video, 0);
    assert p in Insert(buf, p);
    assert i >= 0 ==> buf[i] in Insert(buf, p);
    assert j >= 0 ==> Insert(buf, p)[j] in Insert(buf, p);
  }

  /** One callback skips the start if and only if it is the one that was missing, and track 0
      has been emptied. */
  lemma StepSkipsIff(cfg: Config, s: State, p: Packet)
    requires Heard(cfg, s) && s.Valid(cfg) && Belongs(cfg, p) && !AllReceived(cfg, s)
    ensures Skips(cfg, s, p) <==> && !Unwanted(cfg, s, p) && AllReceived(cfg, Arrived(cfg, s, p))
                                  && Emptied(cfg, s) && !Is(p, Video, 0)
  {
    if !Unwanted(cfg, s, p) && AllReceived(cfg, Arrived(cfg, s, p)) {
      GivenUpIff(cfg, Arrived(cfg, s, p));
      FirstAfterInsert(s.buf, p);
    }
  }

  lemma FirstAfterDiscard(buf: seq<Packet>, t: int)
    requires Sorted(buf)
    ensures FirstIdx(buf[UnusedIdx(buf, t)..], Video, 0) == -1
            <==> forall x <- buf :: Is(x, Video, 0) ==> x.dtsUsec < t
  {
    var n := UnusedIdx(buf, t);
    var rest := buf[n..];
    var i := FirstIdx(rest, Video, 0);
    forall j | 0 <= j < |rest| ensures rest[j].dtsUsec >= t {
      assert rest[j] == buf[n + j];
      assert j > 0 ==> !Before(buf[n + j], buf[n]);
    }
    if i >= 0 {
      assert rest[i] == buf[n + i] && buf[n + i] in buf;
    } else {
      forall j | n <= j < |buf| ensures !Is(buf[j], Video, 0) {
        assert rest[j - n] == buf[j];
      }
    }
  }

  /** One callback that neither starts the output nor skips the start: how track 0 comes to be
      emptied, and stays so. */
  lemma StepEmptiesIff(cfg: Config, s: State, p: Packet)
    requires Heard(cfg, s) && s.Valid(cfg) && Belongs(cfg, p) && Sorted(s.buf)
    requires !AllReceived(cfg, s) && !AllReceived(cfg, Step(cfg, s, p)) && !StartsAt(cfg, s, p)
    ensures Emptied(cfg, Step(cfg, s, p)) <==> Swallows(cfg, s, p) || (Emptied(cfg, s) && !Is(p, Video, 0))
  {
    if Unwanted(cfg, s, p) {
      UnwantedEmptiesIff(cfg, s, p);
    } else {
      FirstAfterInsert(s.buf, p);
      if AllReceived(cfg, Arrived(cfg, s, p)) {
        GivenUpIff(cfg, Arrived(cfg, s, p));
      }
    }
  }

  lemma UnwantedEmptiesIff(cfg: Config, s: State, p: Packet)
    requires cfg.Valid() && s.Valid(cfg) && Belongs(cfg, p) && Sorted(s.buf) && Unwanted(cfg, s, p)
    ensures Emptied(cfg, Step(cfg, s, p)) <==> Swallows(cfg, s, p) || (Emptied(cfg, s) && !Is(p, Video, 0))
  {
    FirstAfterDiscard(s.buf, p.dtsUsec);
    assert !cfg.video[0] ==> forall x <- s.buf :: !Is(x, Video, 0);
    assert FirstIdx(s.buf, Video, 0) == -1 ==> forall x <- s.buf :: !Is(x, Video, 0);
  }

  lemma StepKeepsHeard(cfg: Config, s: State, p: Packet)
    requires Heard(cfg, s) && s.Valid(cfg) && Belongs(cfg, p)
    ensures Heard(cfg, Step(cfg, s, p))
  {
    assert p.kind.Audio? ==> cfg.audio[p.track] in cfg.audio;
  }

  /** What no callback changes before the start. */
  lemma UnstartedKeeps(cfg: Config, s: State, p: Packet)
    requires cfg.Valid() && s.Valid(cfg) && Belongs(cfg, p) && !AllReceived(cfg, s) && !StartsAt(cfg, s, p)
    requires Sorted(s.buf)
    ensures var t := Step(cfg, s, p);
            Sorted(t.buf) && SameBut(s, t)
  {
    SuffixIsSorted(s.buf, UnusedIdx(s.buf, p.dtsUsec));
    if !Unwanted(cfg, s, p) {
      var t := Arrived(cfg, s, p);
      InsertSorted(s.buf, p);
      if AllReceived(cfg, t) {
        FailedStartKeeps(cfg, t);
      }
    }
  }

  /** What a start that does not go through leaves alone. */
  predicate SameBut(s: State, t: State) {
    t.videoOffset == s.videoOffset && t.audioOffset == s.audioOffset && t.sent == s.sent
  }

  lemma FailedStartKeeps(cfg: Config, s: State)
    requires cfg.Valid() && s.Valid(cfg) && !Ready(cfg, s) && Sorted(s.buf)
    ensures Sorted(Start(cfg, s).buf) && SameBut(s, Start(cfg, s))
  {
    var (s1, pruned) := Prune(cfg, s);
    if pruned {
      var prune := PrunePremature(cfg, s).1;
      SuffixIsSorted(s.buf, if prune != 0 then prune else StartIdx(s.buf));
      FailedInitializeKeeps(cfg, s1);
    }
  }

  lemma CheckKeeps(cfg: Config, s: State)
    requires cfg.Valid() && s.Valid(cfg)
    ensures CheckStreams(cfg, s).0.buf == s.buf && SameBut(s, CheckStreams(cfg, s).0)
  {
  }

  lemma FailedTrimKeeps(cfg: Config, s: State)
    requires cfg.Valid() && s.Valid(cfg) && true in cfg.audio && FirstIdx(s.buf, Video, 0) >= 0
    requires !TrimAndStart(cfg, s).1 && Sorted(s.buf)
    ensures Sorted(TrimAndStart(cfg, s).0.buf) && SameBut(s, TrimAndStart(cfg, s).0)
  {
    SuffixIsSorted(s.buf, StartIdx(s.buf));
    CheckKeeps(cfg, Discard(s, StartIdx(s.buf)));
  }

  lemma FailedInitializeKeeps(cfg: Config, s: State)
    requires cfg.Valid() && s.Valid(cfg) && cfg.video[0] && !Initialize(cfg, s).1 && Sorted(s.buf)
    ensures Sorted(Initialize(cfg, s).0.buf) && SameBut(s, Initialize(cfg, s).0)
  {
    CheckKeeps(cfg, s);
    if CheckStreams(cfg, s).1 && true in cfg.audio {
      assert HasFirst(s.buf, cfg.video, Video, 0);
      if !AudioTooEarly(cfg, s) {
        FailedTrimKeeps(cfg, s);
      }
    }
  }

  lemma SuffixIsSorted(s: seq<Packet>, n: nat)
    requires n <= |s| && Sorted(s)
    ensures Sorted(s[n..])
  {
    assert s == s[..n] + s[n..];
    SortedConcat(s[..n], s[n..]);
  }

  // ----- Runs from a reset output -----

  /** The n-th state is what a run of the first n packets leaves. */
  ghost predicate Reached(cfg: Config, ps: seq<Packet>, ss: seq<State>, n: nat)
    requires cfg.Valid() && n <= |ps| && |ss| == |ps| + 1
  {
    (forall p <- ps[..n] :: Belongs(cfg, p)) && ss[n] == Run(cfg, Reset, ps[..n])
  }

  /** The states a reset output goes through as packets arrive. */
  ghost predicate Trace(cfg: Config, ps: seq<Packet>, ss: seq<State>)
    requires cfg.Valid()
  {
    |ss| == |ps| + 1 && forall n :: 0 <= n <= |ps| ==> Reached(cfg, ps, ss, n)
  }

  lemma Stepped(cfg: Config, ps: seq<Packet>, ss: seq<State>, i: nat)
    requires cfg.Valid() && Trace(cfg, ps, ss) && i < |ps|
    ensures ss[i].Valid(cfg) && Belongs(cfg, ps[i]) && ss[i + 1] == Step(cfg, ss[i], ps[i])
  {
    assert Reached(cfg, ps, ss, i) && Reached(cfg, ps, ss, i + 1);
    TakeSnoc(ps, i);
    assert ps[..i + 1][i] == ps[i];
    RunSnoc(cfg, Reset, ps[..i], ps[i]);
  }

  lemma {:induction false} RunSnoc(cfg: Config, s: State, ps: seq<Packet>, p: Packet)
    requires cfg.Valid() && s.Valid(cfg) && Belongs(cfg, p) && forall x <- ps :: Belongs(cfg, x)
    ensures Run(cfg, s, ps + [p]) == Step(cfg, Run(cfg, s, ps), p)
    decreases |ps|
  {
    if ps == [] {
      assert [p][1..] == [];
    } else {
      assert (ps + [p])[1..] == ps[1..] + [p];
      RunSnoc(cfg, Step(cfg, s, ps[0]), ps[1..], p);
    }
  }

  /** After none of the first n packets every stream has been heard from. */
  ghost predicate WaitsUpTo(cfg: Config, ss: seq<State>, n: nat)
    requires cfg.Valid() && n < |ss|
  {
    forall i :: 0 <= i <= n ==> ss[i].Valid(cfg) && !AllReceived(cfg, ss[i])
  }

  /** The i-th packet empties track 0, and none from there to the n-th refills it. */
  ghost predicate EmptiesAt(cfg: Config, ps: seq<Packet>, ss: seq<State>, i: nat, n: nat)
    requires cfg.Valid() && i < n <= |ps| && |ss| == |ps| + 1
  {
    && ss[i].Valid(cfg) && Belongs(cfg, ps[i]) && Swallows(cfg, ss[i], ps[i])
    && forall j :: i < j < n ==> !Is(ps[j], Video, 0)
  }

  ghost predicate EmptiedBefore(cfg: Config, ps: seq<Packet>, ss: seq<State>, n: nat)
    requires cfg.Valid() && n <= |ps| && |ss| == |ps| + 1
  {
    exists i: nat :: i < n && EmptiesAt(cfg, ps, ss, i, n)
  }

  lemma EmptiedBeforeStep(cfg: Config, ps: seq<Packet>, ss: seq<State>, m: nat)
    requires cfg.Valid() && m < |ps| && |ss| == |ps| + 1 && ss[m].Valid(cfg) && Belongs(cfg, ps[m])
    ensures EmptiedBefore(cfg, ps, ss, m + 1)
            <==> Swallows(cfg, ss[m], ps[m]) || (EmptiedBefore(cfg, ps, ss, m) && !Is(ps[m], Video, 0))
  {
    if EmptiedBefore(cfg, ps, ss, m + 1) {
      var i: nat :| i < m + 1 && EmptiesAt(cfg, ps, ss, i, m + 1);
      assert i < m ==> EmptiesAt(cfg, ps, ss, i, m);
    }
    if Swallows(cfg, ss[m], ps[m]) {
      assert EmptiesAt(cfg, ps, ss, m, m + 1);
    } else if EmptiedBefore(cfg, ps, ss, m) && !Is(ps[m], Video, 0) {
      var i: nat :| i < m && EmptiesAt(cfg, ps, ss, i, m);
      assert EmptiesAt(cfg, ps, ss, i, m + 1);
    }
  }

  lemma StillWaiting(cfg: Config, s: State, p: Packet)
    requires cfg.Valid() && s.Valid(cfg) && Belongs(cfg, p) && !AllReceived(cfg, Step(cfg, s, p))
    ensures !StartsAt(cfg, s, p)
  {
    if StartsAt(cfg, s, p) {
      StartKeepsReceived(cfg, Arrived(cfg, s, p));
    }
  }

  lemma StartKeepsReceived(cfg: Config, s: State)
    requires cfg.Valid() && s.Valid(cfg) && AllReceived(cfg, s) && Ready(cfg, s)
    ensures AllReceived(cfg, Start(cfg, s))
  {
    var b := Trimmed(cfg, s);
    assert b.receivedVideo == s.receivedVideo && b.receivedAudio == s.receivedAudio;
  }

  lemma TraceEmpties(cfg: Config, ps: seq<Packet>, ss: seq<State>, m: nat)
    requires cfg.Valid() && Trace(cfg, ps, ss) && m < |ps| && WaitsUpTo(cfg, ss, m + 1)
    requires Heard(cfg, ss[m]) && Sorted(ss[m].buf)
    ensures Heard(cfg, ss[m + 1]) && Sorted(ss[m + 1].buf) && SameBut(ss[m], ss[m + 1]) && Belongs(cfg, ps[m])
    ensures Emptied(cfg, ss[m + 1]) <==> Swallows(cfg, ss[m], ps[m]) || (Emptied(cfg, ss[m]) && !Is(ps[m], Video, 0))
  {
    var s, p := ss[m], ps[m];
    Stepped(cfg, ps, ss, m);
    StillWaiting(cfg, s, p);
    UnstartedKeeps(cfg, s, p);
    StepKeepsHeard(cfg, s, p);
    StepEmptiesIff(cfg, s, p);
  }

  lemma {:induction false} EmptiedIff(cfg: Config, ps: seq<Packet>, ss: seq<State>, n: nat)
    requires cfg.Valid() && Trace(cfg, ps, ss) && n <= |ps| && WaitsUpTo(cfg, ss, n)
    ensures Heard(cfg, ss[n]) && Sorted(ss[n].buf) && SameBut(Reset, ss[n])
    ensures Emptied(cfg, ss[n]) <==> !cfg.video[0] || EmptiedBefore(cfg, ps, ss, n)
  {
    if n == 0 {
      assert Reached(cfg, ps, ss, 0) && ps[..0] == [];
    } else {
      EmptiedIff(cfg, ps, ss, n - 1);
      TraceEmpties(cfg, ps, ss, n - 1);
      EmptiedBeforeStep(cfg, ps, ss, n - 1);
    }
  }

  /** From a reset output, in any configuration: a packet makes every stream count as received
      without the clocks having been started, if and only if it is the one that was missing and
      either slot 0 has no encoder, or some earlier frame emptied track 0 and nothing has come
      for that track since. All offsets are then zero. */
  lemma RunSkipsIff(cfg: Config, ps: seq<Packet>, ss: seq<State>, n: nat)
    requires cfg.Valid() && Trace(cfg, ps, ss) && n < |ps| && WaitsUpTo(cfg, ss, n)
    ensures Belongs(cfg, ps[n])
    ensures Skips(cfg, ss[n], ps[n])
            <==> && !Unwanted(cfg, ss[n], ps[n]) && AllReceived(cfg, Arrived(cfg, ss[n], ps[n])) && !Is(ps[n], Video, 0)
                 && (!cfg.video[0] || EmptiedBefore(cfg, ps, ss, n))
    ensures Skips(cfg, ss[n], ps[n]) ==> SameBut(Reset, ss[n + 1])
  {
    Stepped(cfg, ps, ss, n);
    EmptiedIff(cfg, ps, ss, n);
    StepSkipsIff(cfg, ss[n], ps[n]);
    if Skips(cfg, ss[n], ps[n]) {
      UnstartedKeeps(cfg, ss[n], ps[n]);
    }
  }

  /** An output with nothing in slot 0 never starts, whatever it is sent. */
  lemma EmptySlotNeverStarts(cfg: Config, s: State, p: Packet)
    requires cfg.Valid() && !cfg.video[0] && s.Valid(cfg) && Belongs(cfg, p)
    ensures !StartsAt(cfg, s, p)
    ensures Step(cfg, s, p).videoOffset == s.videoOffset && Step(cfg, s, p).audioOffset == s.audioOffset
  {
  }

  /** With video encoders in no other slot nothing empties track 0: what a track cannot use is
      its own. */
  lemma OneTrackNeverSkips(cfg: Config, s: State, p: Packet)
    requires cfg.Valid() && s.Valid(cfg) && Belongs(cfg, p) && forall i :: 0 < i < MaxVideo ==> !cfg.video[i]
    ensures !Swallows(cfg, s, p)
  {
  }
}

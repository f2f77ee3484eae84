/** What a start does with packets that came too soon: when the audio begins too far behind the
    video, everything up to the latest first packet of a stream is released, and the start is
    tried with the rest. All of it in terms of the buffer's own packets. */
module InterleavePruning {
  import opened Packets
  import opened InterleaveSpec
  import opened InterleaveRuns
  import opened InterleaveStartup
  import InterleaveReset
  import InterleaveOrder
  import InterleaveSkips

  // ----- The buffer's own terms -----

  /** Video track 0 and every audio track have a packet. */
  predicate HasFirsts(cfg: Config, buf: seq<Packet>)
    requires cfg.Valid()
  {
    && true in cfg.audio && FirstIdx(buf, Video, 0) >= 0
    && forall i :: 0 <= i < MaxAudio ==> HasFirst(buf, cfg.audio, Audio, i)
  }

  /** n is the position of the latest among those first packets, over the first slots. */
  predicate IsLatestFirst(cfg: Config, buf: seq<Packet>, slots: nat, n: int)
    requires cfg.Valid() && slots <= MaxAudio
  {
    && FirstIdx(buf, Video, 0) <= n
    && (forall i :: 0 <= i < slots && cfg.audio[i] ==> FirstIdx(buf, Audio, i) <= n)
    && (n == FirstIdx(buf, Video, 0)
        || exists i :: 0 <= i < slots && cfg.audio[i] && n == FirstIdx(buf, Audio, i))
  }

  /** Slot i is the last filled one of the first slots. */
  predicate IsLastSlot(cfg: Config, slots: nat, i: nat)
    requires cfg.Valid() && slots <= MaxAudio
  {
    i < slots && cfg.audio[i] && forall j :: i < j < slots ==> !cfg.audio[j]
  }

  /** At least two of the first slots are filled. */
  predicate SeveralAudio(cfg: Config, slots: nat)
    requires cfg.Valid() && slots <= MaxAudio
  {
    exists i, j :: 0 <= i < j < slots && cfg.audio[i] && cfg.audio[j]
  }

  /** The longest audio packet of the first slots, or zero. */
  predicate IsLongest(cfg: Config, slots: nat, d: int)
    requires cfg.Valid() && slots <= MaxAudio
  {
    && 0 <= d && (forall i :: 0 <= i < slots && cfg.audio[i] ==> cfg.audioDuration[i] <= d)
    && (d == 0 || exists i :: 0 <= i < slots && cfg.audio[i] && d == cfg.audioDuration[i])
  }

  function FrameUsec(p: Packet): int {
    TruncDiv(p.timebaseNum * 1_000_000, p.timebaseDen)
  }

  function Longest(cfg: Config, slots: nat): (d: int)
    requires cfg.Valid() && slots <= MaxAudio
    ensures IsLongest(cfg, slots, d)
  {
    if slots == 0 then 0
    else
      var d := Longest(cfg, slots - 1);
      LongestStep(cfg, slots - 1, d);
      if cfg.audio[slots - 1] && cfg.audioDuration[slots - 1] > d then cfg.audioDuration[slots - 1] else d
  }

  /** How far the audio may begin behind the video: a frame, or with several audio encoders
      their longest packet, if that is longer. */
  function Allowance(cfg: Config, p: Packet): (d: int)
    requires cfg.Valid()
    ensures FrameUsec(p) <= d && (SeveralAudio(cfg, MaxAudio) || d == FrameUsec(p))
  {
    if SeveralAudio(cfg, MaxAudio) && FrameUsec(p) < Longest(cfg, MaxAudio) then Longest(cfg, MaxAudio)
    else FrameUsec(p)
  }

  /** The audio of the last filled slot begins further behind than that. */
  predicate Premature(cfg: Config, buf: seq<Packet>)
    requires cfg.Valid() && HasFirsts(cfg, buf)
  {
    exists i: nat :: i < MaxAudio && IsLastSlot(cfg, MaxAudio, i)
      && assert HasFirst(buf, cfg.audio, Audio, i);
         First(buf, Audio, i).dtsUsec - First(buf, Video, 0).dtsUsec > Allowance(cfg, First(buf, Video, 0))
  }

  /** The distance in time, either way. */
  function Gap(p: Packet, t: int): int {
    if p.dtsUsec < t then t - p.dtsUsec else p.dtsUsec - t
  }

  /** An audio packet closer than the largest distance of 64 bits. */
  predicate Near(p: Packet, t: int) {
    p.kind.Audio? && Gap(p, t) < 0x7FFF_FFFF_FFFF_FFFF
  }

  /** Entry a is the first of the audio packets nearest to t, or the front without any. */
  predicate IsNearestAudio(buf: seq<Packet>, t: int, a: nat) {
    if a < |buf| && Near(buf[a], t) then
      && (forall i :: 0 <= i < |buf| && Near(buf[i], t) ==> Gap(buf[a], t) <= Gap(buf[i], t))
      && (forall i :: 0 <= i < a && Near(buf[i], t) ==> Gap(buf[a], t) < Gap(buf[i], t))
    else a == 0 && forall i :: 0 <= i < |buf| ==> !Near(buf[i], t)
  }

  lemma NearestIsClosest(buf: seq<Packet>, t: int, a: nat)
    ensures IsNearestAudio(buf, t, a) <==> IsClosestAudio(buf, t, a)
  {
    assert forall i :: 0 <= i < |buf| ==>
        Distance(buf, t, i) == if Near(buf[i], t) then Gap(buf[i], t) else LargestDiff;
  }

  /** The earlier one of the first packet of video track 0 and the audio packet nearest to it. */
  ghost predicate IsStart(buf: seq<Packet>, n: nat) {
    var v := FirstIdx(buf, Video, 0);
    v >= 0 && exists a: nat :: IsNearestAudio(buf, buf[v].dtsUsec, a) && n == if v < a then v else a
  }

  /** How many packets are released before the start is tried: up to and including the latest
      first one when the audio is too far behind, else up to where the streams begin. */
  ghost predicate IsCut(cfg: Config, buf: seq<Packet>, n: nat)
    requires cfg.Valid() && HasFirsts(cfg, buf)
  {
    n <= |buf| && if Premature(cfg, buf) then IsLatestFirst(cfg, buf, MaxAudio, n - 1) else IsStart(buf, n)
  }

  /** No audio track ends before the video begins. */
  predicate AudioReaches(cfg: Config, buf: seq<Packet>)
    requires cfg.Valid() && FirstIdx(buf, Video, 0) >= 0
  {
    forall i :: 0 <= i < MaxAudio && cfg.audio[i] ==>
      LastIdx(buf, Audio, i) >= 0 && First(buf, Video, 0).dtsUsec <= buf[LastIdx(buf, Audio, i)].dtsUsec
  }

  /** What can start an output: a packet of every stream, no audio track that ends before the
      video begins, and a packet of every stream still from where they begin. */
  ghost predicate Startable(cfg: Config, buf: seq<Packet>)
    requires cfg.Valid()
  {
    && cfg.video[0] && Complete(cfg, buf) && FirstIdx(buf, Video, 0) >= 0
    && AudioReaches(cfg, buf)
    && exists n: nat :: n <= |buf| && IsStart(buf, n) && Complete(cfg, buf[n..])
  }

  // ----- What the scan finds -----

  predicate FirstsTo(cfg: Config, buf: seq<Packet>, slots: nat)
    requires cfg.Valid() && slots <= MaxAudio
  {
    forall i :: 0 <= i < slots ==> HasFirst(buf, cfg.audio, Audio, i)
  }

  /** n is how many of the first slots are filled, as far as it matters. */
  predicate Counts(cfg: Config, slots: nat, n: nat)
    requires cfg.Valid() && slots <= MaxAudio
  {
    (n > 1 <==> SeveralAudio(cfg, slots)) && (n > 0 <==> exists i :: 0 <= i < slots && cfg.audio[i])
  }

  /** diff is how far the first packet of the last of them is behind t. */
  predicate LastIsBehind(cfg: Config, buf: seq<Packet>, t: int, slots: nat, diff: int)
    requires cfg.Valid() && slots <= MaxAudio
  {
    forall i :: 0 <= i < slots && IsLastSlot(cfg, slots, i) ==>
      FirstIdx(buf, Audio, i) >= 0 && diff == First(buf, Audio, i).dtsUsec - t
  }

  /** What the search has found over the first slots. */
  predicate ScannedTo(cfg: Config, buf: seq<Packet>, t: int, slots: nat, at: PruneScan)
    requires cfg.Valid() && slots <= MaxAudio
  {
    && at.Scanned? && FirstsTo(cfg, buf, slots)
    && IsLatestFirst(cfg, buf, slots, at.maxIdx) && IsLongest(cfg, slots, at.maxDuration)
    && Counts(cfg, slots, at.encoders) && LastIsBehind(cfg, buf, t, slots, at.diff)
  }

  lemma LatestStep(cfg: Config, buf: seq<Packet>, slots: nat, n: int)
    requires cfg.Valid() && slots < MaxAudio && IsLatestFirst(cfg, buf, slots, n)
    ensures IsLatestFirst(cfg, buf, slots + 1,
                          if cfg.audio[slots] && FirstIdx(buf, Audio, slots) > n then FirstIdx(buf, Audio, slots)
                          else n)
  {
    var a := FirstIdx(buf, Audio, slots);
    var m := if cfg.audio[slots] && a > n then a else n;
    forall i | 0 <= i < slots + 1 && cfg.audio[i] ensures FirstIdx(buf, Audio, i) <= m {
    }
    if m == n && n != FirstIdx(buf, Video, 0) {
      var i :| 0 <= i < slots && cfg.audio[i] && n == FirstIdx(buf, Audio, i);
      assert 0 <= i < slots + 1 && cfg.audio[i] && m == FirstIdx(buf, Audio, i);
    }
  }

  lemma LongestStep(cfg: Config, slots: nat, d: int)
    requires cfg.Valid() && slots < MaxAudio && IsLongest(cfg, slots, d)
    ensures IsLongest(cfg, slots + 1,
                      if cfg.audio[slots] && cfg.audioDuration[slots] > d then cfg.audioDuration[slots] else d)
  {
  }

  lemma CountsStep(cfg: Config, slots: nat, n: nat)
    requires cfg.Valid() && slots < MaxAudio && Counts(cfg, slots, n)
    ensures Counts(cfg, slots + 1, if cfg.audio[slots] then n + 1 else n)
  {
    if n > 0 && cfg.audio[slots] {
      var i :| 0 <= i < slots && cfg.audio[i];
      assert cfg.audio[i] && cfg.audio[slots];
    }
  }

  lemma BehindStep(cfg: Config, buf: seq<Packet>, t: int, slots: nat, diff: int)
    requires cfg.Valid() && slots < MaxAudio && LastIsBehind(cfg, buf, t, slots, diff)
    requires HasFirst(buf, cfg.audio, Audio, slots)
    ensures LastIsBehind(cfg, buf, t, slots + 1,
                         if cfg.audio[slots] then buf[FirstIdx(buf, Audio, slots)].dtsUsec - t else diff)
  {
    forall i | 0 <= i <= slots && IsLastSlot(cfg, slots + 1, i)
      ensures if cfg.audio[slots] then i == slots else IsLastSlot(cfg, slots, i) {
    }
  }

  lemma SlotScanned(cfg: Config, buf: seq<Packet>, t: int, slots: nat, at: PruneScan)
    requires cfg.Valid() && slots < MaxAudio && ScannedTo(cfg, buf, t, slots, at)
    requires HasFirst(buf, cfg.audio, Audio, slots)
    ensures ScannedTo(cfg, buf, t, slots + 1, if cfg.audio[slots] then AfterSlot(cfg, buf, t, slots, at) else at)
  {
    LatestStep(cfg, buf, slots, at.maxIdx);
    LongestStep(cfg, slots, at.maxDuration);
    CountsStep(cfg, slots, at.encoders);
    BehindStep(cfg, buf, t, slots, at.diff);
  }

  /** One turn of the search, over a filled slot with a packet. */
  function AfterSlot(cfg: Config, buf: seq<Packet>, t: int, slot: nat, at: PruneScan): PruneScan
    requires cfg.Valid() && slot < MaxAudio && at.Scanned? && FirstIdx(buf, Audio, slot) >= 0
  {
    var a := FirstIdx(buf, Audio, slot);
    Scanned(if a > at.maxIdx then a else at.maxIdx, buf[a].dtsUsec - t,
            if cfg.audioDuration[slot] > at.maxDuration then cfg.audioDuration[slot] else at.maxDuration,
            at.encoders + 1)
  }

  lemma ScanUnfolds(cfg: Config, buf: seq<Packet>, t: int, slot: nat, at: PruneScan)
    requires cfg.Valid() && slot < MaxAudio && at.Scanned? && 0 <= at.maxIdx < |buf|
    ensures ScanAudio(cfg, buf, t, slot, at)
            == if !HasFirst(buf, cfg.audio, Audio, slot) then AudioMissing
               else ScanAudio(cfg, buf, t, slot + 1, if cfg.audio[slot] then AfterSlot(cfg, buf, t, slot, at) else at)
  {
  }

  lemma {:induction false} ScanFinds(cfg: Config, buf: seq<Packet>, t: int, slots: nat, at: PruneScan)
    requires cfg.Valid() && slots <= MaxAudio && ScannedTo(cfg, buf, t, slots, at) && 0 <= at.maxIdx < |buf|
    ensures var r := ScanAudio(cfg, buf, t, slots, at);
            if FirstsTo(cfg, buf, MaxAudio) then ScannedTo(cfg, buf, t, MaxAudio, r) else r.AudioMissing?
    decreases MaxAudio - slots
  {
    if slots < MaxAudio {
      ScanUnfolds(cfg, buf, t, slots, at);
      if HasFirst(buf, cfg.audio, Audio, slots) {
        SlotScanned(cfg, buf, t, slots, at);
        ScanFinds(cfg, buf, t, slots + 1, if cfg.audio[slots] then AfterSlot(cfg, buf, t, slots, at) else at);
      }
    }
  }

  lemma LongestIsUnique(cfg: Config, d: int, e: int)
    requires cfg.Valid() && IsLongest(cfg, MaxAudio, d) && IsLongest(cfg, MaxAudio, e)
    ensures d == e
  {
  }

  lemma StartIdxIsStart(buf: seq<Packet>, n: nat)
    requires FirstIdx(buf, Video, 0) >= 0
    ensures IsStart(buf, n) <==> n == StartIdx(buf)
  {
    var t := buf[FirstIdx(buf, Video, 0)].dtsUsec;
    ClosestIsNearest(buf, t, |buf|);
    assert buf[..|buf|] == buf;
    var c := ClosestAudio(buf, t, |buf|);
    NearestIsClosest(buf, t, c);
    forall a: nat | IsNearestAudio(buf, t, a) ensures a == c {
      NearestIsClosest(buf, t, a);
    }
  }

  /** The scan from where prune_premature_packets begins it. */
  lemma ScanFromVideo(cfg: Config, buf: seq<Packet>)
    requires cfg.Valid() && FirstIdx(buf, Video, 0) >= 0 && true in cfg.audio
    ensures var v := FirstIdx(buf, Video, 0);
            var r := ScanAudio(cfg, buf, buf[v].dtsUsec, 0, Scanned(v, 0, 0, 0));
            if !HasFirsts(cfg, buf) then r.AudioMissing?
            else
              && r.Scanned? && IsLatestFirst(cfg, buf, MaxAudio, r.maxIdx)
              && (Premature(cfg, buf) <==>
                  r.diff > if r.encoders > 1 && FrameUsec(buf[v]) < r.maxDuration then r.maxDuration
                           else FrameUsec(buf[v]))
  {
    var v := FirstIdx(buf, Video, 0);
    ScanFinds(cfg, buf, buf[v].dtsUsec, 0, Scanned(v, 0, 0, 0));
    if HasFirsts(cfg, buf) {
      var r := ScanAudio(cfg, buf, buf[v].dtsUsec, 0, Scanned(v, 0, 0, 0));
      LongestIsUnique(cfg, r.maxDuration, Longest(cfg, MaxAudio));
      var i := LastSlot(cfg, MaxAudio);
      assert First(buf, Video, 0) == buf[v];
      assert r.diff == First(buf, Audio, i).dtsUsec - buf[v].dtsUsec;
    }
  }

  function LastSlot(cfg: Config, slots: nat): (i: nat)
    requires cfg.Valid() && slots <= MaxAudio && exists j :: 0 <= j < slots && cfg.audio[j]
    ensures IsLastSlot(cfg, slots, i)
  {
    if cfg.audio[slots - 1] then slots - 1 else LastSlot(cfg, slots - 1)
  }

  lemma PrematureIs(cfg: Config, s: State)
    requires cfg.Valid() && s.Valid(cfg) && true in cfg.audio
    ensures var (t, prune) := PrunePremature(cfg, s);
            if FirstIdx(s.buf, Video, 0) == -1 then t == s && prune == -1
            else if !HasFirsts(cfg, s.buf) then t == s.(receivedAudio := false) && prune == -1
            else t == s && if Premature(cfg, s.buf) then prune > 0 && IsLatestFirst(cfg, s.buf, MaxAudio, prune - 1)
                           else prune == 0
  {
    if FirstIdx(s.buf, Video, 0) >= 0 {
      ScanFromVideo(cfg, s.buf);
    }
  }

  /** What pruning does: nothing without a first packet of each stream, except that missing
      audio must be heard from again; else it releases what comes before the cut. */
  lemma PruneIs(cfg: Config, s: State)
    requires cfg.Valid() && s.Valid(cfg) && true in cfg.audio
    ensures var (t, ok) := Prune(cfg, s);
            if !HasFirsts(cfg, s.buf) then
              !ok && t == if FirstIdx(s.buf, Video, 0) == -1 then s else s.(receivedAudio := false)
            else
              ok && cfg.video[0] && exists n: nat :: IsCut(cfg, s.buf, n) && t == Discard(s, n)
  {
    PrematureIs(cfg, s);
    if HasFirsts(cfg, s.buf) {
      var prune := PrunePremature(cfg, s).1;
      var n := if prune != 0 then prune else StartIdx(s.buf);
      StartIdxIsStart(s.buf, StartIdx(s.buf));
      assert IsCut(cfg, s.buf, n);
    }
  }

  lemma CutIsUnique(cfg: Config, buf: seq<Packet>, m: nat, n: nat)
    requires cfg.Valid() && HasFirsts(cfg, buf) && IsCut(cfg, buf, m) && IsCut(cfg, buf, n)
    ensures m == n
  {
    if !Premature(cfg, buf) {
      StartIdxIsStart(buf, m);
      StartIdxIsStart(buf, n);
    }
  }

  // ----- The start -----

  lemma CheckIsComplete(cfg: Config, s: State)
    requires cfg.Valid() && s.Valid(cfg) && true in cfg.audio
    ensures CheckStreams(cfg, s).1 <==> Complete(cfg, s.buf)
  {
    var v, a := MissingSlot(s.buf, cfg.video, Video, 0), MissingSlot(s.buf, cfg.audio, Audio, 0);
    assert v < MaxVideo ==> !HasFirst(s.buf, cfg.video, Video, v);
    assert a < MaxAudio ==> !HasFirst(s.buf, cfg.audio, Audio, a);
  }

  lemma TooEarlyIff(cfg: Config, s: State)
    requires cfg.Valid() && s.Valid(cfg) && cfg.video[0] && Complete(cfg, s.buf)
    ensures FirstSlot(cfg.video) == 0 && FirstIdx(s.buf, Video, 0) >= 0
    ensures AudioTooEarly(cfg, s)
            <==> exists i :: 0 <= i < MaxAudio && cfg.audio[i] && LastIdx(s.buf, Audio, i) >= 0
                             && s.buf[LastIdx(s.buf, Audio, i)].dtsUsec < First(s.buf, Video, 0).dtsUsec
  {
    assert HasFirst(s.buf, cfg.video, Video, 0);
  }

  lemma LastExists(cfg: Config, buf: seq<Packet>, i: nat)
    requires cfg.Valid() && Complete(cfg, buf) && i < MaxAudio && cfg.audio[i]
    ensures LastIdx(buf, Audio, i) >= 0
  {
    assert HasFirst(buf, cfg.audio, Audio, i);
  }

  lemma TrimIff(cfg: Config, s: State)
    requires cfg.Valid() && s.Valid(cfg) && true in cfg.audio && FirstIdx(s.buf, Video, 0) >= 0
    ensures TrimAndStart(cfg, s).1 <==> exists n: nat :: n <= |s.buf| && IsStart(s.buf, n) && Complete(cfg, s.buf[n..])
  {
    var n := StartIdx(s.buf);
    CheckIsComplete(cfg, Discard(s, n));
    StartIdxIsStart(s.buf, n);
    forall m: nat | IsStart(s.buf, m) ensures m == n {
      StartIdxIsStart(s.buf, m);
    }
  }

  lemma InitializeUnfolds(cfg: Config, s: State)
    requires cfg.Valid() && s.Valid(cfg) && cfg.video[0] && true in cfg.audio
    ensures if !Complete(cfg, s.buf) then !Initialize(cfg, s).1
            else
              && FirstSlot(cfg.video) == 0 && FirstIdx(s.buf, Video, 0) >= 0
              && (Initialize(cfg, s).1 <==> !AudioTooEarly(cfg, s) && TrimAndStart(cfg, s).1)
  {
    CheckIsComplete(cfg, s);
    if Complete(cfg, s.buf) {
      assert HasFirst(s.buf, cfg.video, Video, 0);
    }
  }

  lemma ReachesIff(cfg: Config, s: State)
    requires cfg.Valid() && s.Valid(cfg) && cfg.video[0] && Complete(cfg, s.buf)
    ensures FirstSlot(cfg.video) == 0 && FirstIdx(s.buf, Video, 0) >= 0
    ensures AudioReaches(cfg, s.buf) <==> !AudioTooEarly(cfg, s)
  {
    TooEarlyIff(cfg, s);
    forall i | 0 <= i < MaxAudio && cfg.audio[i] ensures LastIdx(s.buf, Audio, i) >= 0 {
      LastExists(cfg, s.buf, i);
    }
  }

  lemma InitializesIff(cfg: Config, s: State)
    requires cfg.Valid() && s.Valid(cfg) && cfg.video[0] && true in cfg.audio
    ensures Initialize(cfg, s).1 <==> Startable(cfg, s.buf)
  {
    InitializeUnfolds(cfg, s);
    if Complete(cfg, s.buf) {
      ReachesIff(cfg, s);
      TrimIff(cfg, s);
    }
  }

  lemma ReadyIff(cfg: Config, s: State)
    requires cfg.Valid() && s.Valid(cfg) && true in cfg.audio
    ensures Ready(cfg, s)
            <==> HasFirsts(cfg, s.buf) && exists n: nat :: IsCut(cfg, s.buf, n) && Startable(cfg, s.buf[n..])
  {
    PruneIs(cfg, s);
    if HasFirsts(cfg, s.buf) {
      var t := Prune(cfg, s).0;
      var n: nat :| IsCut(cfg, s.buf, n) && t == Discard(s, n);
      InitializesIff(cfg, t);
      forall m: nat | IsCut(cfg, s.buf, m) ensures m == n {
        CutIsUnique(cfg, s.buf, m, n);
      }
    }
  }

  /** When a callback starts the output, in any configuration with audio: every stream has now
      been heard from, each has a packet, and what is left from the cut on can start it. */
  lemma StartsIff(cfg: Config, s: State, p: Packet)
    requires cfg.Valid() && s.Valid(cfg) && Belongs(cfg, p) && true in cfg.audio
    ensures StartsAt(cfg, s, p) <==>
            && !AllReceived(cfg, s) && !Unwanted(cfg, s, p) && AllReceived(cfg, Arrived(cfg, s, p))
            && var buf := Insert(s.buf, p);
               HasFirsts(cfg, buf) && exists n: nat :: IsCut(cfg, buf, n) && Startable(cfg, buf[n..])
  {
    ReadyIff(cfg, Arrived(cfg, s, p));
  }

  /** A callback that is to start the output releases what comes before the cut, whether or not
      it then starts: past the allowance, everything up to and including the latest first
      packet of a stream. */
  lemma CutIsReleased(cfg: Config, s: State, p: Packet)
    requires cfg.Valid() && s.Valid(cfg) && Belongs(cfg, p) && true in cfg.audio
    requires !AllReceived(cfg, s) && !Unwanted(cfg, s, p) && AllReceived(cfg, Arrived(cfg, s, p))
    requires HasFirsts(cfg, Insert(s.buf, p))
    ensures exists n: nat :: IsCut(cfg, Insert(s.buf, p), n)
                             && s.dropped + Insert(s.buf, p)[..n] <= Step(cfg, s, p).dropped
  {
    StartReleases(cfg, Arrived(cfg, s, p));
  }

  lemma StartReleases(cfg: Config, t: State)
    requires cfg.Valid() && t.Valid(cfg) && true in cfg.audio && HasFirsts(cfg, t.buf)
    ensures exists n: nat :: IsCut(cfg, t.buf, n) && t.dropped + t.buf[..n] <= Start(cfg, t).dropped
  {
    PruneIs(cfg, t);
    var s1 := Prune(cfg, t).0;
    var n: nat :| IsCut(cfg, t.buf, n) && s1 == Discard(t, n);
    InitializeReleasesMore(cfg, s1);
    StartDrops(cfg, t);
  }

  lemma StartDrops(cfg: Config, t: State)
    requires cfg.Valid() && t.Valid(cfg) && Prune(cfg, t).1
    ensures Start(cfg, t).dropped == Initialize(cfg, Prune(cfg, t).0).0.dropped
  {
  }

  lemma InitializeReleasesMore(cfg: Config, s: State)
    requires cfg.Valid() && s.Valid(cfg) && cfg.video[0]
    ensures s.dropped <= Initialize(cfg, s).0.dropped
  {
    if true in cfg.audio && CheckStreams(cfg, s).1 {
      assert HasFirst(s.buf, cfg.video, Video, 0) && HasFirst(s.buf, cfg.video, Video, FirstSlot(cfg.video));
      if !AudioTooEarly(cfg, s) {
        TrimReleasesMore(cfg, s);
      }
    }
  }

  lemma TrimReleasesMore(cfg: Config, s: State)
    requires cfg.Valid() && s.Valid(cfg) && true in cfg.audio && FirstIdx(s.buf, Video, 0) >= 0
    ensures s.dropped <= TrimAndStart(cfg, s).0.dropped
  {
    var (s1, ok) := CheckStreams(cfg, Discard(s, StartIdx(s.buf)));
    if ok {
      assert HasFirst(s1.buf, cfg.video, Video, FirstSlot(cfg.video));
      assert StartTimes(cfg, s1).dropped == s1.dropped;
    }
  }

  // ----- One video and one audio encoder -----

  /** What is known of a stream that is not marked: audio that was found to end too early is
      all before the video, video that was found missing is not there, and at first nothing is. */
  ghost predicate Unmarked(cfg: Config, s: State)
    requires cfg.Valid() && s.Valid(cfg)
  {
    && (!s.receivedAudio && !s.receivedVideo[0] ==> s.buf == [])
    && (!s.receivedAudio ==> forall x <- s.buf, y <- s.buf :: x.kind.Audio? && y.kind.Video? ==> x.dtsUsec < y.dtsUsec)
    && (!s.receivedVideo[0] ==> forall x <- s.buf :: x.kind.Audio?)
  }

  ghost predicate Settling(cfg: Config, s: State, fs: Feeds)
    requires Single(cfg)
  {
    Waiting(cfg, s, fs) && Unmarked(cfg, s)
  }

  lemma FirstOfKind(cfg: Config, buf: seq<Packet>, kind: PacketType, x: Packet)
    requires Single(cfg) && x in buf && x.kind == kind && Belongs(cfg, x)
    ensures FirstIdx(buf, kind, if kind.Video? then 0 else FirstSlot(cfg.audio)) >= 0
  {
    SlotOf(cfg, x);
  }

  lemma FailedCheckIsUnmarked(cfg: Config, s: State)
    requires Single(cfg) && s.Valid(cfg) && AllReceived(cfg, s) && !CheckStreams(cfg, s).1
    ensures Unmarked(cfg, CheckStreams(cfg, s).0)
  {
    var v, a := MissingSlot(s.buf, cfg.video, Video, 0), FirstSlot(cfg.audio);
    assert v < MaxVideo ==> !HasFirst(s.buf, cfg.video, Video, v);
    var m := MissingSlot(s.buf, cfg.audio, Audio, 0);
    assert m < MaxAudio ==> !HasFirst(s.buf, cfg.audio, Audio, m);
    forall x <- s.buf ensures if v < MaxVideo then x.kind.Audio? else x.kind.Video? {
      FirstOfKind(cfg, s.buf, x.kind, x);
    }
  }

  lemma TooEarlyIsBefore(cfg: Config, s: State)
    requires Single(cfg) && s.Valid(cfg) && Complete(cfg, s.buf) && Strict(s.buf)
    requires FirstIdx(s.buf, Video, 0) >= 0 && AudioTooEarly(cfg, s)
    ensures forall x <- s.buf, y <- s.buf :: x.kind.Audio? && y.kind.Video? ==> x.dtsUsec < y.dtsUsec
  {
    TooEarlyIff(cfg, s);
    var l, v := LastIdx(s.buf, Audio, FirstSlot(cfg.audio)), FirstIdx(s.buf, Video, 0);
    forall x <- s.buf, y <- s.buf | x.kind.Audio? && y.kind.Video? ensures x.dtsUsec < y.dtsUsec {
      SlotOf(cfg, x);
      SlotOf(cfg, y);
      var i :| 0 <= i < |s.buf| && s.buf[i] == x;
      var j :| 0 <= j < |s.buf| && s.buf[j] == y;
      assert i <= l && v <= j;
      assert i < l ==> Before(s.buf[i], s.buf[l]);
      assert v < j ==> Before(s.buf[v], s.buf[j]);
    }
  }

  lemma FailedInitializeIsUnmarked(cfg: Config, s: State)
    requires Single(cfg) && s.Valid(cfg) && AllReceived(cfg, s) && Strict(s.buf) && !Initialize(cfg, s).1
    ensures Unmarked(cfg, Initialize(cfg, s).0)
  {
    CheckIsComplete(cfg, s);
    if !CheckStreams(cfg, s).1 {
      FailedCheckIsUnmarked(cfg, s);
    } else {
      assert HasFirst(s.buf, cfg.video, Video, 0);
      if AudioTooEarly(cfg, s) {
        TooEarlyIsBefore(cfg, s);
      } else {
        FailedCheckIsUnmarked(cfg, Discard(s, StartIdx(s.buf)));
      }
    }
  }

  lemma AudioIsEnough(cfg: Config, buf: seq<Packet>, x: Packet)
    requires Single(cfg) && x in buf && x.kind.Audio? && Belongs(cfg, x) && FirstIdx(buf, Video, 0) >= 0
    ensures HasFirsts(cfg, buf)
  {
    FirstOfKind(cfg, buf, Audio, x);
  }

  lemma MissingAudioIsUnmarked(cfg: Config, s: State)
    requires Single(cfg) && s.Valid(cfg) && AllReceived(cfg, s) && FirstIdx(s.buf, Video, 0) >= 0
    requires !HasFirsts(cfg, s.buf)
    ensures Unmarked(cfg, s.(receivedAudio := false))
  {
    forall x <- s.buf ensures x.kind.Video? {
      if x.kind.Audio? {
        AudioIsEnough(cfg, s.buf, x);
      }
    }
  }

  lemma SuffixIsStrict(buf: seq<Packet>, n: nat)
    requires Strict(buf) && n <= |buf|
    ensures Strict(buf[n..])
  {
    StrictConcat(buf[..n], buf[n..]);
    assert buf == buf[..n] + buf[n..];
  }

  lemma FailedStartIsUnmarked(cfg: Config, s: State)
    requires Single(cfg) && s.Valid(cfg) && AllReceived(cfg, s) && Strict(s.buf) && FirstIdx(s.buf, Video, 0) >= 0
    requires !Ready(cfg, s)
    ensures Unmarked(cfg, Start(cfg, s))
  {
    PruneIs(cfg, s);
    var t := Prune(cfg, s).0;
    if HasFirsts(cfg, s.buf) {
      var n: nat :| IsCut(cfg, s.buf, n) && t == Discard(s, n);
      SuffixIsStrict(s.buf, n);
      FailedInitializeIsUnmarked(cfg, t);
      assert Start(cfg, s) == Initialize(cfg, t).0;
    } else {
      MissingAudioIsUnmarked(cfg, s);
      assert Start(cfg, s) == t;
    }
  }

  /** A packet that does not complete the streams leaves them so. */
  lemma ArrivalIsUnmarked(cfg: Config, s: State, fs: Feeds, p: Packet)
    requires Single(cfg) && Settling(cfg, s, fs) && Belongs(cfg, p) && fs.Of(p.kind).Brings(p)
    requires !Unwanted(cfg, s, p) && !AllReceived(cfg, Arrived(cfg, s, p))
    ensures Unmarked(cfg, Arrived(cfg, s, p))
  {
    SlotOf(cfg, p);
    InsertMembers(s.buf, p);
    if p.kind.Video? && s.receivedVideo[0] {
      ArrivalIsLater(cfg, s, fs, p);
    }
  }

  lemma ArrivalIsLater(cfg: Config, s: State, fs: Feeds, p: Packet)
    requires Single(cfg) && Settling(cfg, s, fs) && Belongs(cfg, p) && fs.video.Brings(p) && p.kind.Video?
    requires s.receivedVideo[0] && !s.receivedAudio
    ensures forall x <- s.buf :: x.kind.Audio? ==> x.dtsUsec < p.dtsUsec
  {
    var v := First(s.buf, Video, 0);
    UsecGrows(v.dts, p.dts, p.timebaseDen, 1);
    assert v.dtsUsec < p.dtsUsec;
  }

  lemma SettlingStep(cfg: Config, s: State, fs: Feeds, p: Packet)
    requires Single(cfg) && Settling(cfg, s, fs) && Belongs(cfg, p) && fs.Of(p.kind).Brings(p)
    requires !StartsAt(cfg, s, p)
    ensures Settling(cfg, Step(cfg, s, p), fs.Next(p))
  {
    InterleaveReset.WaitingStep(cfg, s, fs, p);
    if !Unwanted(cfg, s, p) {
      if AllReceived(cfg, Arrived(cfg, s, p)) {
        InterleaveReset.ArrivedKeepsCore(cfg, s, fs, p);
        FailedStartIsUnmarked(cfg, Arrived(cfg, s, p));
      } else {
        ArrivalIsUnmarked(cfg, s, fs, p);
      }
    }
  }

  /** A strictly ordered buffer holds each packet once. */
  lemma OnceOnly(buf: seq<Packet>, i: nat, n: nat)
    requires Strict(buf) && i < n <= |buf|
    ensures forall x <- buf[n..] :: Before(buf[i], x) && x != buf[i] && x in buf
  {
    forall x <- buf[n..] ensures Before(buf[i], x) && x in buf {
      var j :| 0 <= j < |buf[n..]| && buf[n..][j] == x;
      assert buf[n + j] == x;
    }
  }

  function SlotFor(cfg: Config, kind: PacketType): nat
    requires Single(cfg)
  {
    if kind.Video? then 0 else FirstSlot(cfg.audio)
  }

  /** What can be cut away too soon and completes the streams is the first of its own. */
  lemma ArrivalIsFirst(cfg: Config, s: State, fs: Feeds, p: Packet)
    requires Single(cfg) && Settling(cfg, s, fs) && Belongs(cfg, p) && AllReceived(cfg, Arrived(cfg, s, p))
    requires var buf := Insert(s.buf, p); HasFirsts(cfg, buf) && Premature(cfg, buf)
    requires FrameUsec(First(Insert(s.buf, p), Video, 0)) >= 0
    ensures FirstIdx(Insert(s.buf, p), p.kind, SlotFor(cfg, p.kind)) >= 0
    ensures First(Insert(s.buf, p), p.kind, SlotFor(cfg, p.kind)) == p
    ensures p.kind.Video? ==> forall x <- s.buf :: x.kind.Audio?
    ensures p.kind.Audio? ==> forall x <- s.buf, y <- s.buf :: x.kind.Audio? && y.kind.Video? ==> x.dtsUsec < y.dtsUsec
  {
    var buf := Insert(s.buf, p);
    InsertMembers(s.buf, p);
    SlotOf(cfg, p);
    PrematureIff(cfg, buf);
    var v0, a0 := First(buf, Video, 0), First(buf, Audio, FirstSlot(cfg.audio));
    assert v0 == p || v0 in s.buf;
    assert a0 == p || a0 in s.buf;
  }

  lemma RestLacksArrival(cfg: Config, s: State, p: Packet, n: nat)
    requires Single(cfg) && s.Valid(cfg) && Belongs(cfg, p) && Strict(Insert(s.buf, p)) && n <= |s.buf| + 1
    requires FirstIdx(Insert(s.buf, p), p.kind, SlotFor(cfg, p.kind)) >= 0
    requires FirstIdx(Insert(s.buf, p), Video, 0) >= 0
    requires First(Insert(s.buf, p), p.kind, SlotFor(cfg, p.kind)) == p
    requires p.kind.Video? ==> forall x <- s.buf :: x.kind.Audio?
    requires p.kind.Audio? ==> forall x <- s.buf, y <- s.buf :: x.kind.Audio? && y.kind.Video? ==> x.dtsUsec < y.dtsUsec
    requires FirstIdx(Insert(s.buf, p), Video, 0) < n && FirstIdx(Insert(s.buf, p), p.kind, SlotFor(cfg, p.kind)) < n
    ensures |Insert(s.buf, p)| == |s.buf| + 1
    ensures forall x <- Insert(s.buf, p)[n..] :: x.kind != p.kind
  {
    var buf := Insert(s.buf, p);
    var v0 := First(buf, Video, 0);
    InsertMembers(s.buf, p);
    InsertBag(s.buf, p);
    OnceOnly(buf, FirstIdx(buf, Video, 0), n);
    OnceOnly(buf, FirstIdx(buf, p.kind, SlotFor(cfg, p.kind)), n);
    forall x <- buf[n..] ensures x.kind != p.kind {
      assert x != p && x in s.buf && Before(v0, x);
      assert p.kind.Audio? ==> v0 in s.buf;
    }
  }

  lemma CutIsPast(cfg: Config, buf: seq<Packet>, n: nat, kind: PacketType)
    requires Single(cfg) && HasFirsts(cfg, buf) && Premature(cfg, buf) && IsCut(cfg, buf, n)
    ensures FirstIdx(buf, Video, 0) < n <= |buf| && FirstIdx(buf, kind, SlotFor(cfg, kind)) < n
  {
    assert cfg.audio[FirstSlot(cfg.audio)];
  }

  /** Past the cut, the stream of the packet that has completed the streams has nothing left. */
  lemma CutTakesArrival(cfg: Config, s: State, fs: Feeds, p: Packet, buf: seq<Packet>, n: nat)
    requires Single(cfg) && Settling(cfg, s, fs) && Belongs(cfg, p) && fs.Of(p.kind).Brings(p)
    requires !Unwanted(cfg, s, p) && AllReceived(cfg, Arrived(cfg, s, p))
    requires buf == Insert(s.buf, p) && HasFirsts(cfg, buf) && Premature(cfg, buf) && IsCut(cfg, buf, n)
    requires FrameUsec(First(buf, Video, 0)) >= 0
    ensures forall x <- buf[n..] :: x.kind != p.kind
  {
    CutIsPast(cfg, buf, n, p.kind);
    ArrivalIsFirst(cfg, s, fs, p);
    ArrivalIsStrict(cfg, s, fs, p);
    RestLacksArrival(cfg, s, p, n);
  }

  lemma ArrivalIsStrict(cfg: Config, s: State, fs: Feeds, p: Packet)
    requires Single(cfg) && Settling(cfg, s, fs) && Belongs(cfg, p) && fs.Of(p.kind).Brings(p) && !Unwanted(cfg, s, p)
    ensures Strict(Insert(s.buf, p)) && |Insert(s.buf, p)| == |s.buf| + 1
  {
    InterleaveReset.ArrivedKeepsCore(cfg, s, fs, p);
    InsertBag(s.buf, p);
  }

  lemma LackingIsNotStartable(cfg: Config, buf: seq<Packet>, kind: PacketType)
    requires Single(cfg) && forall x <- buf :: x.kind != kind
    ensures !Startable(cfg, buf)
  {
    var i := SlotFor(cfg, kind);
    forall j | 0 <= j < |buf| ensures !Is(buf[j], kind, i) {
      assert buf[j] in buf;
    }
    assert !HasFirst(buf, if kind.Video? then cfg.video else cfg.audio, kind, i);
  }

  lemma FrameIsPositive(p: Packet)
    requires p.timebaseNum >= 0
    ensures FrameUsec(p) >= 0
  {
  }

  /** So with one video and one audio encoder the cut is never followed by a start. */
  lemma PrematureDoesNotStart(cfg: Config, s: State, fs: Feeds, p: Packet)
    requires Single(cfg) && Settling(cfg, s, fs) && Belongs(cfg, p) && fs.Of(p.kind).Brings(p) && StartsAt(cfg, s, p)
    ensures HasFirsts(cfg, Insert(s.buf, p))
    ensures First(Insert(s.buf, p), Video, 0).timebaseNum >= 0 ==> !Premature(cfg, Insert(s.buf, p))
  {
    StartsIff(cfg, s, p);
    var buf := Insert(s.buf, p);
    if First(buf, Video, 0).timebaseNum >= 0 && Premature(cfg, buf) {
      FrameIsPositive(First(buf, Video, 0));
      var n: nat :| IsCut(cfg, buf, n) && Startable(cfg, buf[n..]);
      CutTakesArrival(cfg, s, fs, p, buf, n);
      LackingIsNotStartable(cfg, buf[n..], p.kind);
    }
  }

  lemma StartedStays(cfg: Config, s: State, p: Packet)
    requires cfg.Valid() && s.Valid(cfg) && Belongs(cfg, p) && AllReceived(cfg, s)
    ensures AllReceived(cfg, Step(cfg, s, p))
  {
  }

  lemma {:induction false} RunSettles(cfg: Config, s: State, fs: Feeds, ps: seq<Packet>)
    requires Single(cfg) && s.Valid(cfg) && Fed(cfg, fs, ps) && (forall p <- ps :: Belongs(cfg, p))
    requires Settling(cfg, s, fs) || AllReceived(cfg, s)
    ensures Settling(cfg, Run(cfg, s, ps), InterleaveOrder.Ahead(fs, ps)) || AllReceived(cfg, Run(cfg, s, ps))
    decreases |ps|
  {
    if ps != [] {
      var p := ps[0];
      if AllReceived(cfg, s) {
        StartedStays(cfg, s, p);
      } else if StartsAt(cfg, s, p) {
        InterleaveSkips.StartKeepsReceived(cfg, Arrived(cfg, s, p));
      } else {
        SettlingStep(cfg, s, fs, p);
      }
      RunSettles(cfg, Step(cfg, s, p), fs.Next(p), ps[1..]);
    }
  }

  lemma UnstartedSettles(cfg: Config, fs: Feeds, ps: seq<Packet>)
    requires Single(cfg) && !fs.video.seen && !fs.audio.seen
    requires Fed(cfg, fs, ps) && (forall q <- ps :: Belongs(cfg, q)) && !AllReceived(cfg, Run(cfg, Reset, ps))
    ensures Settling(cfg, Run(cfg, Reset, ps), InterleaveOrder.Ahead(fs, ps))
  {
    InterleaveReset.ResetWaits(cfg, fs);
    RunSettles(cfg, Reset, fs, ps);
  }

  lemma SettledStartIsInTime(cfg: Config, s: State, fs: Feeds, p: Packet)
    requires Single(cfg) && Settling(cfg, s, fs) && Belongs(cfg, p) && fs.Of(p.kind).Brings(p) && StartsAt(cfg, s, p)
    ensures InTime(cfg, Insert(s.buf, p))
  {
    PrematureDoesNotStart(cfg, s, fs, p);
    PrematureIff(cfg, Insert(s.buf, p));
  }

  /** The first audio packet is at most one frame behind the first video packet. */
  ghost predicate InTime(cfg: Config, buf: seq<Packet>)
    requires Single(cfg)
  {
    && FirstIdx(buf, Video, 0) >= 0 && FirstIdx(buf, Audio, FirstSlot(cfg.audio)) >= 0
    && var v, a := First(buf, Video, 0), First(buf, Audio, FirstSlot(cfg.audio));
       v.timebaseNum >= 0 ==> a.dtsUsec - v.dtsUsec <= FrameUsec(v)
  }

  /** From a reset output with one video and one audio encoder: when a packet starts it, the
      first audio packet of the buffer is at most one frame behind the first video packet. */
  lemma StartIsInTime(cfg: Config, fs: Feeds, ps: seq<Packet>, p: Packet)
    requires Single(cfg) && !fs.video.seen && !fs.audio.seen
    requires Fed(cfg, fs, ps) && (forall q <- ps :: Belongs(cfg, q))
    requires Belongs(cfg, p) && InterleaveOrder.Ahead(fs, ps).Of(p.kind).Brings(p)
    requires StartsAt(cfg, Run(cfg, Reset, ps), p)
    ensures InTime(cfg, Insert(Run(cfg, Reset, ps).buf, p))
  {
    UnstartedSettles(cfg, fs, ps);
    SettledStartIsInTime(cfg, Run(cfg, Reset, ps), InterleaveOrder.Ahead(fs, ps), p);
  }

  /** With one audio encoder, in short. */
  lemma PrematureIff(cfg: Config, buf: seq<Packet>)
    requires Single(cfg) && HasFirsts(cfg, buf)
    ensures var a := FirstSlot(cfg.audio);
            && FirstIdx(buf, Audio, a) >= 0
            && (Premature(cfg, buf) <==>
                First(buf, Audio, a).dtsUsec - First(buf, Video, 0).dtsUsec > FrameUsec(First(buf, Video, 0)))
  {
    var a := FirstSlot(cfg.audio);
    assert HasFirst(buf, cfg.audio, Audio, a);
    assert IsLastSlot(cfg, MaxAudio, a) && !SeveralAudio(cfg, MaxAudio);
  }
}

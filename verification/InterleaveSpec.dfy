/** The packet interleaver of libobs/obs-output.c as a state machine on values: what each
    of its functions computes. InterleaveOutput holds the same functions as methods with
    loops over mutable fields. */
module InterleaveSpec {
  import opened Packets

  const MaxVideo := 6
  const MaxAudio := 6

  /** Which encoder slots are filled, and each audio encoder's packet duration. */
  datatype Config = Config(video: seq<bool>, audio: seq<bool>, audioDuration: seq<int>) {
    predicate Valid() {
      |video| == MaxVideo && |audio| == MaxAudio && |audioDuration| == MaxAudio
    }
  }

  /** `sent` is what the encoded_packet callback was handed, `dropped` what was released
      without being sent. */
  datatype State = State(buf: seq<Packet>, receivedVideo: seq<bool>, receivedAudio: bool, videoOffset: seq<int>,
                         audioOffset: seq<int>, highestVideo: seq<int>, highestAudio: int, sent: seq<Packet>,
                         dropped: seq<Packet>) {
    predicate Valid(cfg: Config)
      requires cfg.Valid()
    {
      && |receivedVideo| == MaxVideo && |videoOffset| == MaxVideo && |highestVideo| == MaxVideo
      && |audioOffset| == MaxAudio
      && forall p <- buf :: Belongs(cfg, p)
    }
  }

  /** get_encoder_index found the packet's encoder in a filled slot. */
  predicate Belongs(cfg: Config, p: Packet)
    requires cfg.Valid()
  {
    if p.kind.Video? then p.track < MaxVideo && cfg.video[p.track] else p.track < MaxAudio && cfg.audio[p.track]
  }

  /** reset_packet_data */
  const Reset := State([], [false, false, false, false, false, false], false, [0, 0, 0, 0, 0, 0], [0, 0, 0, 0, 0, 0],
                       [0, 0, 0, 0, 0, 0], 0, [], [])

  predicate AllReceived(cfg: Config, s: State)
    requires cfg.Valid() && s.Valid(cfg)
  {
    s.receivedAudio && forall i :: 0 <= i < MaxVideo && cfg.video[i] ==> s.receivedVideo[i]
  }

  function CheckReceived(cfg: Config, s: State, p: Packet): State
    requires cfg.Valid() && s.Valid(cfg) && Belongs(cfg, p)
  {
    if p.kind.Video? then s.(receivedVideo := s.receivedVideo[p.track := true]) else s.(receivedAudio := true)
  }

  /** apply_interleaved_packet_offset */
  function Rebase(cfg: Config, s: State, p: Packet): Packet
    requires cfg.Valid() && s.Valid(cfg) && Belongs(cfg, p)
  {
    var offset := if p.kind.Video? then s.videoOffset[p.track] else s.audioOffset[p.track];
    p.(dts := p.dts - offset, pts := p.pts - offset, dtsUsec := Usec(p.dts - offset, p.timebaseDen))
  }

  function RebaseAll(cfg: Config, s: State, ps: seq<Packet>): (r: seq<Packet>)
    requires cfg.Valid() && s.Valid(cfg) && forall p <- ps :: Belongs(cfg, p)
    ensures |r| == |ps| && forall i :: 0 <= i < |ps| ==> r[i] == Rebase(cfg, s, ps[i])
  {
    seq(|ps|, i requires 0 <= i < |ps| => Rebase(cfg, s, ps[i]))
  }

  /** set_higher_ts */
  function SetHigher(cfg: Config, s: State, p: Packet): State
    requires cfg.Valid() && s.Valid(cfg) && Belongs(cfg, p)
  {
    if p.kind.Video? then
      if s.highestVideo[p.track] < p.dtsUsec then s.(highestVideo := s.highestVideo[p.track := p.dtsUsec]) else s
    else
      if s.highestAudio < p.dtsUsec then s.(highestAudio := p.dtsUsec) else s
  }

  /** has_higher_opposing_ts: every other video track, and for a video packet also the
      audio, has been seen past the packet's time. */
  predicate Gate(cfg: Config, s: State, p: Packet)
    requires cfg.Valid() && s.Valid(cfg)
  {
    && (forall i :: 0 <= i < MaxVideo && cfg.video[i] && !(p.kind.Video? && i == p.track)
                    ==> s.highestVideo[i] > p.dtsUsec)
    && (p.kind.Video? ==> s.highestAudio > p.dtsUsec)
  }

  /** send_interleaved */
  function Send(cfg: Config, s: State): (r: State)
    requires cfg.Valid() && s.Valid(cfg) && s.buf != []
    ensures r.Valid(cfg)
  {
    if Gate(cfg, s, s.buf[0]) then s.(buf := s.buf[1..], sent := s.sent + [s.buf[0]]) else s
  }

  function Discard(s: State, idx: nat): State
    requires idx <= |s.buf|
  {
    s.(buf := s.buf[idx..], dropped := s.dropped + s.buf[..idx])
  }

  predicate Is(p: Packet, kind: PacketType, track: nat) {
    p.kind == kind && p.track == track
  }

  /** find_first_packet_type_idx */
  function FirstIdx(buf: seq<Packet>, kind: PacketType, track: nat): (r: int)
    ensures -1 <= r < |buf|
    ensures r >= 0 ==> Is(buf[r], kind, track) && forall j :: 0 <= j < r ==> !Is(buf[j], kind, track)
    ensures r == -1 ==> forall j :: 0 <= j < |buf| ==> !Is(buf[j], kind, track)
  {
    if buf == [] then -1
    else if Is(buf[0], kind, track) then 0
    else
      var r := FirstIdx(buf[1..], kind, track);
      assert forall j :: 0 < j < |buf| ==> buf[j] == buf[1..][j - 1];
      if r == -1 then -1 else r + 1
  }

  /** find_last_packet_type_idx */
  function LastIdx(buf: seq<Packet>, kind: PacketType, track: nat): (r: int)
    ensures -1 <= r < |buf|
    ensures r >= 0 ==> Is(buf[r], kind, track) && forall j :: r < j < |buf| ==> !Is(buf[j], kind, track)
    ensures r == -1 ==> forall j :: 0 <= j < |buf| ==> !Is(buf[j], kind, track)
  {
    if buf == [] then -1
    else if Is(buf[|buf| - 1], kind, track) then |buf| - 1
    else LastIdx(buf[..|buf| - 1], kind, track)
  }

  function Abs(x: int): int {
    if x < 0 then -x else x
  }

  const LargestDiff := 0x7FFF_FFFF_FFFF_FFFF

  /** How far buffer entry i is from time t; only audio entries are near anything. */
  function Distance(buf: seq<Packet>, t: int, i: nat): int
    requires i < |buf|
  {
    if buf[i].kind.Audio? && Abs(buf[i].dtsUsec - t) < LargestDiff then Abs(buf[i].dtsUsec - t) else LargestDiff
  }

  /** idx is the first of the audio packets nearest to time t, or 0 when there is none. */
  ghost predicate IsClosestAudio(buf: seq<Packet>, t: int, idx: nat) {
    || (idx == 0 && forall i :: 0 <= i < |buf| ==> Distance(buf, t, i) == LargestDiff)
    || (&& idx < |buf| && Distance(buf, t, idx) < LargestDiff
        && (forall i :: 0 <= i < |buf| ==> Distance(buf, t, idx) <= Distance(buf, t, i))
        && (forall i :: 0 <= i < idx ==> Distance(buf, t, idx) < Distance(buf, t, i)))
  }

  /** The running minimum over the first n entries. */
  function ClosestAudio(buf: seq<Packet>, t: int, n: nat): (idx: nat)
    requires n <= |buf|
    ensures idx < n || idx == 0
  {
    if n == 0 then 0
    else
      var idx := ClosestAudio(buf, t, n - 1);
      var best := if idx < n - 1 then Distance(buf, t, idx) else LargestDiff;
      if Distance(buf, t, n - 1) < best then n - 1 else idx
  }

  lemma {:induction false} ClosestIsNearest(buf: seq<Packet>, t: int, n: nat)
    requires n <= |buf|
    ensures IsClosestAudio(buf[..n], t, ClosestAudio(buf, t, n))
  {
    if n > 0 {
      ClosestIsNearest(buf, t, n - 1);
      assert forall i :: 0 <= i < n - 1 ==>
               Distance(buf[..n], t, i) == Distance(buf[..n - 1], t, i) == Distance(buf, t, i);
      assert Distance(buf[..n], t, n - 1) == Distance(buf, t, n - 1);
    }
  }

  /** get_interleaved_start_idx; the source reads through the first packet of video slot 0. */
  function StartIdx(buf: seq<Packet>): (idx: nat)
    requires FirstIdx(buf, Video, 0) >= 0
    ensures idx <= FirstIdx(buf, Video, 0)
  {
    var v := FirstIdx(buf, Video, 0);
    var a := ClosestAudio(buf, buf[v].dtsUsec, |buf|);
    if v < a then v else a
  }

  /** The audio loop of prune_premature_packets, from slot i on. */
  datatype PruneScan = AudioMissing | Scanned(maxIdx: int, diff: int, maxDuration: int, encoders: nat)

  function ScanAudio(cfg: Config, buf: seq<Packet>, videoUsec: int, i: nat, at: PruneScan): (r: PruneScan)
    requires cfg.Valid() && i <= |cfg.audio| && at.Scanned?
    requires 0 <= at.maxIdx < |buf|
    ensures r.Scanned? ==> 0 <= r.maxIdx < |buf|
    decreases |cfg.audio| - i
  {
    if i == |cfg.audio| then at
    else if !cfg.audio[i] then ScanAudio(cfg, buf, videoUsec, i + 1, at)
    else
      var a := FirstIdx(buf, Audio, i);
      if a == -1 then AudioMissing
      else
        ScanAudio(cfg, buf, videoUsec, i + 1,
                  Scanned(if a > at.maxIdx then a else at.maxIdx, buf[a].dtsUsec - videoUsec,
                          if cfg.audioDuration[i] > at.maxDuration then cfg.audioDuration[i] else at.maxDuration,
                          at.encoders + 1))
  }

  /** prune_premature_packets: the new state and the index to prune to, -1 to give up. */
  function PrunePremature(cfg: Config, s: State): (r: (State, int))
    requires cfg.Valid() && s.Valid(cfg)
    ensures -1 <= r.1 <= |s.buf| && r.0.buf == s.buf && r.0.Valid(cfg)
    ensures r.1 != -1 ==> FirstIdx(s.buf, Video, 0) >= 0 && r.0 == s
  {
    var v := FirstIdx(s.buf, Video, 0);
    if v == -1 then (s, -1)
    else
      var video := s.buf[v];
      match ScanAudio(cfg, s.buf, video.dtsUsec, 0, Scanned(v, 0, 0, 0))
      case AudioMissing => (s.(receivedAudio := false), -1)
      case Scanned(maxIdx, diff, maxDuration, encoders) =>
        var frame := TruncDiv(video.timebaseNum * 1_000_000, video.timebaseDen);
        var duration := if encoders > 1 && frame < maxDuration then maxDuration else frame;
        (s, if diff > duration then maxIdx + 1 else 0)
  }

  /** prune_interleaved_packets */
  function Prune(cfg: Config, s: State): (r: (State, bool))
    requires cfg.Valid() && s.Valid(cfg)
    ensures r.0.Valid(cfg) && (r.1 ==> cfg.video[0])
  {
    var (s1, prune) := PrunePremature(cfg, s);
    if prune == -1 then (s1, false)
    else
      assert Belongs(cfg, s.buf[FirstIdx(s.buf, Video, 0)]);
      (Discard(s1, if prune != 0 then prune else StartIdx(s.buf)), true)
  }

  predicate HasFirst(buf: seq<Packet>, slots: seq<bool>, kind: PacketType, i: nat)
    requires i < |slots|
  {
    slots[i] ==> FirstIdx(buf, kind, i) >= 0
  }

  /** The first filled slot from i on whose stream has no packet in the buffer, else |slots|. */
  function MissingSlot(buf: seq<Packet>, slots: seq<bool>, kind: PacketType, i: nat): (r: nat)
    requires i <= |slots|
    ensures i <= r <= |slots|
    ensures r < |slots| ==> !HasFirst(buf, slots, kind, r)
    ensures forall j :: i <= j < r ==> HasFirst(buf, slots, kind, j)
    decreases |slots| - i
  {
    if i == |slots| || !HasFirst(buf, slots, kind, i) then i else MissingSlot(buf, slots, kind, i + 1)
  }

  /** get_audio_and_video_packets: a stream without a packet must be received again. */
  function CheckStreams(cfg: Config, s: State): (r: (State, bool))
    requires cfg.Valid() && s.Valid(cfg)
    ensures r.0.Valid(cfg) && r.0.buf == s.buf && r.0.sent == s.sent && r.0.dropped == s.dropped
    ensures r.1 <==> (&& MissingSlot(s.buf, cfg.video, Video, 0) == MaxVideo
                      && MissingSlot(s.buf, cfg.audio, Audio, 0) == MaxAudio && true in cfg.video)
    ensures r.1 ==> r.0 == s
  {
    var v := MissingSlot(s.buf, cfg.video, Video, 0);
    if v < MaxVideo then (s.(receivedVideo := s.receivedVideo[v := false]), false)
    else if MissingSlot(s.buf, cfg.audio, Audio, 0) < MaxAudio then (s.(receivedAudio := false), false)
    else (s, true in cfg.video)
  }

  /** The first filled slot, or the number of slots. */
  function FirstSlot(slots: seq<bool>): (i: nat)
    ensures i <= |slots|
    ensures forall j :: 0 <= j < i ==> !slots[j]
    ensures i < |slots| ==> slots[i]
    ensures i < |slots| <==> true in slots
  {
    if slots == [] then 0
    else if slots[0] then 0
    else
      assert forall j :: 0 < j < |slots| ==> slots[j] == slots[1..][j - 1];
      1 + FirstSlot(slots[1..])
  }

  /** Some audio stream has no packet at or past the first video packet. */
  predicate AudioTooEarly(cfg: Config, s: State)
    requires cfg.Valid() && s.Valid(cfg)
    requires true in cfg.video && FirstIdx(s.buf, Video, FirstSlot(cfg.video)) >= 0
  {
    exists i :: 0 <= i < MaxAudio && cfg.audio[i] && LastIdx(s.buf, Audio, i) >= 0
                && s.buf[LastIdx(s.buf, Audio, i)].dtsUsec < s.buf[FirstIdx(s.buf, Video, FirstSlot(cfg.video))].dtsUsec
  }

  /** Every filled slot has a packet in the buffer. */
  predicate Complete(cfg: Config, buf: seq<Packet>)
    requires cfg.Valid()
  {
    && true in cfg.video && true in cfg.audio
    && (forall i :: 0 <= i < MaxVideo ==> HasFirst(buf, cfg.video, Video, i))
    && (forall i :: 0 <= i < MaxAudio ==> HasFirst(buf, cfg.audio, Audio, i))
  }

  function First(buf: seq<Packet>, kind: PacketType, i: nat): (p: Packet)
    requires FirstIdx(buf, kind, i) >= 0
    ensures p in buf && Is(p, kind, i)
  {
    buf[FirstIdx(buf, kind, i)]
  }

  /** What a slot's first packet sets the slot's field to. */
  datatype Pick = TakePts | TakeDts | LessUsec {
    function Of(before: int, p: Packet): int {
      match this
      case TakePts => p.pts
      case TakeDts => p.dts
      case LessUsec => before - p.dtsUsec
    }
  }

  /** Per slot, what is picked from the slot's first packet, or the old value where the slot
      is empty. */
  function PerSlot(buf: seq<Packet>, slots: seq<bool>, kind: PacketType, was: seq<int>, pick: Pick): (r: seq<int>)
    requires |was| == |slots| && forall i :: 0 <= i < |slots| ==> HasFirst(buf, slots, kind, i)
    ensures |r| == |slots|
    ensures forall i :: 0 <= i < |slots| && HasFirst(buf, slots, kind, i)
                        ==> r[i] == if slots[i] then pick.Of(was[i], First(buf, kind, i)) else was[i]
  {
    if slots == [] then []
    else
      var n := |slots| - 1;
      assert HasFirst(buf, slots, kind, n);
      assert forall i :: 0 <= i < n ==> HasFirst(buf, slots, kind, i) == HasFirst(buf, slots[..n], kind, i);
      PerSlot(buf, slots[..n], kind, was[..n], pick)
        + [if slots[n] then pick.Of(was[n], First(buf, kind, n)) else was[n]]
  }

  /** Offsets from the first packet of each stream: a pts for video, a dts for audio. */
  function StartOffsets(cfg: Config, s: State): (r: State)
    requires cfg.Valid() && s.Valid(cfg) && Complete(cfg, s.buf)
    ensures r.Valid(cfg) && r.buf == s.buf
  {
    s.(videoOffset := PerSlot(s.buf, cfg.video, Video, s.videoOffset, TakePts),
       audioOffset := PerSlot(s.buf, cfg.audio, Audio, s.audioOffset, TakeDts))
  }

  /** The highest marks less the dts of the first packet of each stream, video included. */
  function StartHighest(cfg: Config, s: State): (r: State)
    requires cfg.Valid() && s.Valid(cfg) && Complete(cfg, s.buf)
    ensures r.Valid(cfg) && r.buf == s.buf
  {
    assert HasFirst(s.buf, cfg.audio, Audio, FirstSlot(cfg.audio));
    s.(highestVideo := PerSlot(s.buf, cfg.video, Video, s.highestVideo, LessUsec),
       highestAudio := s.highestAudio - First(s.buf, Audio, FirstSlot(cfg.audio)).dtsUsec)
  }

  function StartMarks(cfg: Config, s: State): (r: State)
    requires cfg.Valid() && s.Valid(cfg) && Complete(cfg, s.buf)
    ensures r.Valid(cfg) && r.buf == s.buf
  {
    StartHighest(cfg, StartOffsets(cfg, s))
  }

  /** The last part of initialize_interleaved_packets, which ends by rebasing the buffer. */
  function StartTimes(cfg: Config, s: State): (r: State)
    requires cfg.Valid() && s.Valid(cfg) && Complete(cfg, s.buf)
    ensures r.Valid(cfg) && |r.buf| == |s.buf|
  {
    var s1 := StartMarks(cfg, s);
    var ps := RebaseAll(cfg, s1, s.buf);
    assert forall i :: 0 <= i < |ps| ==> Belongs(cfg, s.buf[i]) && Belongs(cfg, ps[i]);
    s1.(buf := ps)
  }

  /** The second half of initialize_interleaved_packets: clear out excess audio, then start
      the clocks. (Where nothing is cleared the source does not look again; the second look
      would find what the first one found.) */
  function TrimAndStart(cfg: Config, s: State): (r: (State, bool))
    requires cfg.Valid() && s.Valid(cfg) && true in cfg.audio && FirstIdx(s.buf, Video, 0) >= 0
    ensures r.0.Valid(cfg) && (r.1 ==> r.0.buf != [])
  {
    var (s1, ok) := CheckStreams(cfg, Discard(s, StartIdx(s.buf)));
    if !ok then (s1, false)
    else
      assert HasFirst(s1.buf, cfg.video, Video, FirstSlot(cfg.video));
      (StartTimes(cfg, s1), true)
  }

  /** initialize_interleaved_packets */
  function Initialize(cfg: Config, s: State): (r: (State, bool))
    requires cfg.Valid() && s.Valid(cfg) && cfg.video[0]
    ensures r.0.Valid(cfg)
    ensures r.1 ==> r.0.buf != []
  {
    if true !in cfg.audio then (s, false)
    else
      var (s1, ok) := CheckStreams(cfg, s);
      if !ok then (s1, false)
      else
        assert HasFirst(s.buf, cfg.video, Video, 0) && HasFirst(s.buf, cfg.video, Video, FirstSlot(cfg.video));
        if AudioTooEarly(cfg, s1) then (s1.(receivedAudio := false), false) else TrimAndStart(cfg, s1)
  }

  /** The packet is passed over: its track waits for a keyframe. */
  predicate Unwanted(cfg: Config, s: State, p: Packet)
    requires cfg.Valid() && s.Valid(cfg) && Belongs(cfg, p)
  {
    p.kind.Video? && !s.receivedVideo[p.track] && !p.keyframe
  }

  /** interleave_packets */
  function Step(cfg: Config, s: State, p: Packet): (r: State)
    requires cfg.Valid() && s.Valid(cfg) && Belongs(cfg, p)
    ensures r.Valid(cfg)
  {
    if Unwanted(cfg, s, p) then
      var s1 := Discard(s, UnusedIdx(s.buf, p.dtsUsec));
      s1.(dropped := s1.dropped + [p])
    else
      var started := AllReceived(cfg, s);
      var out := if started then Rebase(cfg, s, p) else p;
      var s1 := if started then s else CheckReceived(cfg, s, p);
      var s2 := Accept(cfg, s1, out);
      if !AllReceived(cfg, s2) then s2
      else if started then Send(cfg, s2)
      else Start(cfg, s2)
  }

  /** discard_unused_audio_packets stops at the first packet that is not older. */
  function UnusedIdx(buf: seq<Packet>, t: int): (idx: nat)
    ensures idx <= |buf|
    ensures forall j :: 0 <= j < idx ==> buf[j].dtsUsec < t
    ensures idx < |buf| ==> buf[idx].dtsUsec >= t
  {
    if buf == [] || buf[0].dtsUsec >= t then 0 else 1 + UnusedIdx(buf[1..], t)
  }

  function Accept(cfg: Config, s: State, out: Packet): (r: State)
    requires cfg.Valid() && s.Valid(cfg) && Belongs(cfg, out)
    ensures r.Valid(cfg) && r.buf != []
  {
    InsertMembers(s.buf, out);
    SetHigher(cfg, s.(buf := Insert(s.buf, out)), out)
  }

  function ResortAndSend(cfg: Config, s: State): (r: State)
    requires cfg.Valid() && s.Valid(cfg) && s.buf != []
    ensures r.Valid(cfg)
  {
    ResortBag(s.buf);
    assert forall p <- Resort(s.buf) :: p in multiset(Resort(s.buf));
    Send(cfg, s.(buf := Resort(s.buf)))
  }

  /** Prune, initialize, sort again and send, as far as each stage allows. */
  function Start(cfg: Config, s: State): (r: State)
    requires cfg.Valid() && s.Valid(cfg)
    ensures r.Valid(cfg)
  {
    var (s1, pruned) := Prune(cfg, s);
    if !pruned then s1
    else
      var (s2, ready) := Initialize(cfg, s1);
      if !ready then s2 else ResortAndSend(cfg, s2)
  }

  /** The start goes through: both stages do. */
  predicate Ready(cfg: Config, s: State)
    requires cfg.Valid() && s.Valid(cfg)
  {
    var (s1, pruned) := Prune(cfg, s);
    pruned && Initialize(cfg, s1).1
  }

  /** What a start that goes through takes its offsets from. */
  function Trimmed(cfg: Config, s: State): (r: State)
    requires cfg.Valid() && s.Valid(cfg) && Ready(cfg, s)
    ensures r.Valid(cfg) && Complete(cfg, r.buf) && StartTimes(cfg, r).buf != []
    ensures Start(cfg, s) == ResortAndSend(cfg, StartTimes(cfg, r))
  {
    var s1 := Prune(cfg, s).0;
    assert CheckStreams(cfg, s1) == (s1, true);
    assert HasFirst(s1.buf, cfg.video, Video, 0);
    Discard(s1, StartIdx(s1.buf))
  }

  /** A packet of an output that has not started, kept: the state a start is tried from. */
  function Arrived(cfg: Config, s: State, p: Packet): (r: State)
    requires cfg.Valid() && s.Valid(cfg) && Belongs(cfg, p)
    ensures r.Valid(cfg)
  {
    Accept(cfg, CheckReceived(cfg, s, p), p)
  }

  /** This callback is the one that starts the output. */
  predicate StartsAt(cfg: Config, s: State, p: Packet)
    requires cfg.Valid() && s.Valid(cfg) && Belongs(cfg, p)
  {
    && !AllReceived(cfg, s) && !Unwanted(cfg, s, p)
    && AllReceived(cfg, Arrived(cfg, s, p)) && Ready(cfg, Arrived(cfg, s, p))
  }
}

/** Pausing a recording: the pause fields of libobs/obs-output.c and libobs/obs-encoder.c,
    which drop whole frames between two points of the frame grid. Times are nanoseconds. */
module Pause {
  import opened Basics

  const U64 := 0x1_0000_0000_0000_0000

  /** Unsigned 64-bit arithmetic: a result that fits is left alone. */
  function Wrap(x: int): (r: nat)
    ensures r < U64
  {
    if 0 <= x < U64 then x else x % U64
  }

  /** Zero in tsStart or tsEnd means unset. */
  datatype PauseState = PauseState(lastVideoTs: nat, tsStart: nat, tsEnd: nat, tsOffset: nat) {
    predicate CanStart() {
      tsStart == 0 && tsEnd == 0
    }

    predicate CanStop() {
      tsStart != 0 && tsEnd == 0
    }
  }

  /** The time of n whole frames. */
  function Times(n: nat, interval: pos): nat {
    n * interval
  }

  /** get_closest_v_ts: unsigned arithmetic, so a clock more than two intervals behind the
      last frame wraps around. */
  function ClosestVideoTs(p: PauseState, interval: pos, now: nat): nat {
    Wrap(p.lastVideoTs + Times(Wrap(now - p.lastVideoTs + 2 * interval) / interval, interval))
  }

  /** end_pause, where an end before the start would wrap around. */
  function EndPause(p: PauseState, ts: nat): PauseState {
    if p.tsEnd == 0 then p.(tsEnd := ts, tsOffset := Wrap(p.tsOffset + ts - p.tsStart)) else p
  }

  /** A request to pause, or to resume, where the state allows it. */
  function PauseAt(p: PauseState, ts: nat): PauseState {
    if p.CanStart() then p.(tsStart := ts) else p
  }

  function ResumeAt(p: PauseState, ts: nat): PauseState {
    if p.CanStop() then EndPause(p, ts) else p
  }

  /** video_pause_check_internal: the new state, and whether the frame is dropped. */
  function CheckFrame(p: PauseState, ts: nat): (PauseState, bool) {
    var q := p.(lastVideoTs := ts);
    if q.tsStart == 0 then (q, false)
    else if ts == q.tsEnd then (q.(tsStart := 0, tsEnd := 0), false)
    else (q, ts >= q.tsStart)
  }

  class PauseData {
    var lastVideoTs: nat
    var tsStart: nat
    var tsEnd: nat
    var tsOffset: nat

    function View(): PauseState
      reads this
    {
      PauseState(lastVideoTs, tsStart, tsEnd, tsOffset)
    }

    /** The one point of the grid through the last frame that is more than one and at most two
        intervals past the clock, unless the subtraction wraps around. */
    method GetClosestVTs(interval: pos, now: nat) returns (ts: nat)
      ensures ts == ClosestVideoTs(View(), interval, now)
      ensures lastVideoTs <= now + 2 * interval < U64 ==>
                now + interval < ts <= now + 2 * interval && exists n: nat :: ts == lastVideoTs + Times(n, interval)
    {
      var i2 := interval * 2;
      ts := Wrap(lastVideoTs + Times(Wrap(now - lastVideoTs + i2) / interval, interval));
      FloorBounds(Wrap(now - lastVideoTs + i2), interval);
    }

    method End(ts: nat)
      modifies this
      ensures View() == EndPause(old(View()), ts)
    {
      if tsEnd == 0 {
        tsEnd := ts;
        tsOffset := Wrap(tsOffset + tsEnd - tsStart);
      }
    }

    method VideoPauseCheck(ts: nat) returns (ignoreFrame: bool)
      modifies this
      ensures (View(), ignoreFrame) == CheckFrame(old(View()), ts)
    {
      lastVideoTs := ts;
      if tsStart == 0 {
        return false;
      }
      if ts == tsEnd {
        tsStart := 0;
        tsEnd := 0;
      } else if ts >= tsStart {
        return true;
      }
      ignoreFrame := false;
    }

    /** obs_raw_output_pause */
    method RawOutputPause(interval: pos, now: nat, pause: bool) returns (success: bool)
      modifies this
      ensures success == if pause then old(View()).CanStart() else old(View()).CanStop()
      ensures var closest := ClosestVideoTs(old(View()), interval, now);
              View() == if pause then PauseAt(old(View()), closest) else ResumeAt(old(View()), closest)
    {
      var closest := GetClosestVTs(interval, now);
      if pause {
        success := View().CanStart();
        if success {
          tsStart := closest;
        }
      } else {
        success := View().CanStop();
        if success {
          End(closest);
        }
      }
    }
  }

  /** The body of obs_encoded_output_pause: all encoders of an output pause or resume at one
      time, or none does. The first video encoder's last frame gives the time; without one
      the call fails. */
  method EncodedOutputPause(video: seq<PauseData>, audio: seq<PauseData>, interval: pos, now: nat, pause: bool)
    returns (success: bool)
    requires forall i, j :: 0 <= i < j < |video + audio| ==> (video + audio)[i] != (video + audio)[j]
    modifies video, audio
    ensures success == old(video != [] && forall e <- video + audio ::
                             if pause then e.View().CanStart() else e.View().CanStop())
    ensures !success ==> forall e <- video + audio :: e.View() == old(e.View())
    ensures success ==> forall e <- video + audio ::
                var closest := old(ClosestVideoTs(video[0].View(), interval, now));
                e.View() == if pause then PauseAt(old(e.View()), closest) else ResumeAt(old(e.View()), closest)
  {
    if video == [] {
      return false;
    }
    ghost var was := video[0].View();
    var closest := video[0].GetClosestVTs(interval, now);
    var encoders := video + audio;
    for i := 0 to |encoders|
      invariant forall j :: 0 <= j < i ==> if pause then encoders[j].View().CanStart() else encoders[j].View().CanStop()
    {
      if !(if pause then encoders[i].View().CanStart() else encoders[i].View().CanStop()) {
        assert encoders[i] in encoders;
        return false;
      }
    }
    for i := 0 to |encoders|
      invariant forall j :: i <= j < |encoders| ==> encoders[j].View() == old(encoders[j].View())
      invariant forall j :: 0 <= j < i ==>
                  encoders[j].View() == if pause then PauseAt(old(encoders[j].View()), closest)
                                        else ResumeAt(old(encoders[j].View()), closest)
    {
      assert encoders[i] in encoders;
      if pause {
        encoders[i].tsStart := closest;
      } else {
        encoders[i].End(closest);
      }
    }
    success := true;
  }

  // ----- On the frame grid -----

  /** Frames run at times base + interval * n; the state in terms of frame numbers: the last
      frame k; the pause it holds from frame s up to frame e, and the first frame it can still
      drop; and how many frames have been dropped, encoded, and encoded although a pause
      counts them, because it was asked for too late. A pause asked for before the first frame
      is early: it need not begin on a frame, and its lead is how much it is longer than its
      frames. */
  datatype Grid = Grid(base: int, interval: pos, k: int, s: int, from: int, e: int, dropped: nat, encoded: nat,
                       late: nat, early: bool, lead: int) {
    function At(n: int): int {
      base + n * interval
    }

    /** How far the pending pause begins ahead of its first frame. */
    function Ahead(): int {
      if early then lead else 0
    }
  }

  lemma GridOrder(g: Grid, a: int, b: int)
    ensures g.At(a) <= g.At(b) <==> a <= b
    ensures g.At(a) == g.At(b) <==> a == b
    ensures g.At(b) - g.At(a) == (b - a) * g.interval
    ensures a < b ==> g.At(a) + g.interval <= g.At(b)
  {
    Distribute(b - a, a, g.interval);
    MulSign(a - b, g.interval);
    MulSign(a - b + 1, g.interval);
    Distribute(a - b, 1, g.interval);
  }

  /** Frames dropped so far of a pause that began with frame s. */
  function Open(k: int, s: int): int {
    if k < s then 0 else k - s + 1
  }

  /** Frames of the pause from s to e that are still to come after frame k. */
  function Remaining(k: int, s: int, e: int): int {
    e - (if k + 1 < s then s else k + 1)
  }

  /** The offset of so many frames and the lead of an early pause. */
  function Length(g: Grid, frames: int, lead: int): int {
    frames * g.interval + lead
  }

  /** The offset while a pause is open. */
  function OpenLength(g: Grid): int {
    Length(g, g.dropped - Open(g.k, g.from) + g.late - (g.from - g.s), g.lead - g.Ahead())
  }

  /** A pending pause: it begins ahead of its first frame by less than an interval, or before
      all frames; after it only where its end came before its first frame. */
  ghost predicate Placed(p: PauseState, g: Grid) {
    && p.tsStart + g.Ahead() == g.At(g.s) && g.s <= g.from && (g.s < g.from ==> g.from <= g.k + 1 && !g.early)
    && (g.s > 0 ==> g.Ahead() < g.interval)
    && (g.Ahead() < 0 ==> p.tsEnd != 0 && g.k < g.s == g.e)
  }

  /** The pause ends with frame e if that is still to come, and otherwise never. */
  ghost predicate Fixed(p: PauseState, g: Grid) {
    forall n :: g.k < n ==> (g.At(n) == p.tsEnd <==> n == g.e)
  }

  /** What holds after every event. The offset is one interval for every frame dropped, or
      late, and the lead of an early pause, except that while a pause is open it is not yet in
      it, and once its end is known all of its frames are. */
  ghost predicate Inv(p: PauseState, g: Grid) {
    && 0 < p.lastVideoTs == g.At(g.k) && g.base >= 0 && g.k >= 0 && g.dropped + g.encoded == g.k + 1
    && g.late + (if p.tsStart == 0 then 1 else 0) + (if g.lead > g.base then 1 else 0) <= g.encoded
    && 0 < g.lead + g.interval && 0 < g.lead + U64 && (g.lead > g.base ==> g.lead < g.interval)
    && (p.tsStart == 0 ==> p.tsEnd == 0 && Counts(p, Length(g, g.dropped + g.late, g.lead)))
    && (p.tsStart != 0 ==> Placed(p, g))
    && (p.tsStart != 0 && p.tsEnd == 0 ==>
          p.tsOffset == Wrap(OpenLength(g)))
    && (p.tsEnd != 0 ==> p.tsStart != 0 && Fixed(p, g))
    && (p.tsEnd != 0 && g.k < g.e ==>
          g.s <= g.e && g.from <= g.e
          && Counts(p, Length(g, g.dropped + g.late + Remaining(g.k, g.from, g.e), g.lead)))
  }

  /** The offset is x, which may be below zero but is in range. */
  predicate Counts(p: PauseState, x: int) {
    x < U64 && p.tsOffset == Wrap(x)
  }

  /** The frame number of the grid point two frames past the clock's own. */
  function ClosestFrame(g: Grid, now: int): int {
    (now - g.base) / g.interval + 2
  }

  /** With a clock at most two intervals behind the last frame, the point chosen is two grid
      points past the clock, whichever frame was last; and it is ahead of that frame if and
      only if the clock is at most one interval behind. */
  lemma ClosestOnGrid(p: PauseState, g: Grid, now: nat)
    requires p.lastVideoTs == g.At(g.k) <= now + 2 * g.interval < U64
    ensures ClosestVideoTs(p, g.interval, now) == g.At(ClosestFrame(g, now)) < U64 && g.k <= ClosestFrame(g, now)
    ensures g.k < ClosestFrame(g, now) <==> g.At(g.k) <= now + g.interval
    ensures now + g.interval < g.At(ClosestFrame(g, now)) <= now + 2 * g.interval
  {
    var x, i := now - g.base, g.interval;
    var y := now - p.lastVideoTs + 2 * i;
    assert y == (2 - g.k) * i + x;
    DivOfSum(2 - g.k, x, i);
    FloorBounds(y, i);
    var q := y / i;
    assert q == ClosestFrame(g, now) - g.k;
    MulSign(-q, i);
    MulSign(1 - q, i);
    Distribute(g.k, q, i);
  }

  /** A clock more than one interval behind the last frame picks a point that is not ahead
      of that frame; the frame has gone out already and the pause counts it. */
  lemma ClosestIsAheadIff(p: PauseState, interval: pos, now: nat)
    requires p.lastVideoTs <= now + 2 * interval < U64
    ensures ClosestVideoTs(p, interval, now) > p.lastVideoTs <==> p.lastVideoTs <= now + interval
  {
    var g := Grid(p.lastVideoTs, interval, 0, 0, 0, 0, 0, 0, 0, false, 0);
    ClosestOnGrid(p, g, now);
    GridOrder(g, 0, ClosestFrame(g, now));
  }

  // ----- Events -----

  datatype Event = Frame | Stop(now: nat) | Resume(now: nat)

  /** One event: the next frame of the grid arrives, or the recording is paused or resumed.
      `clock` is the latest time a pause or resume was asked for. */
  datatype World = World(p: PauseState, g: Grid, clock: nat) {
    predicate Valid() {
      0 < p.lastVideoTs == g.At(g.k)
    }
  }

  /** The clock does not go back, and no request finds it so far behind the last frame that
      the subtraction wraps around. */
  predicate Timely(w: World, ev: Event) {
    match ev
    case Frame => true
    case Stop(now) => w.clock <= now && w.g.At(w.g.k) <= now + 2 * w.g.interval < U64
    case Resume(now) => w.clock <= now && w.g.At(w.g.k) <= now + 2 * w.g.interval < U64
  }

  ghost predicate Sound(w: World) {
    Inv(w.p, w.g) && (w.p.tsStart != 0 && w.p.tsEnd == 0 ==> w.p.tsStart <= w.clock + 2 * w.g.interval)
  }

  /** The pause is given its end at frame c; where that is before its first frame, it has no
      frames, and its lead is what it is short of none. */
  function EndAt(g: Grid, c: int): Grid {
    if g.k < c < g.s then g.(e := c, s := c, from := c, lead := g.lead - (g.s - c) * g.interval) else g.(e := c)
  }

  function Apply(w: World, ev: Event): (u: World)
    requires Timely(w, ev) && w.Valid()
    ensures u.Valid()
  {
    var (p, g) := (w.p, w.g);
    match ev
    case Frame =>
      GridOrder(g, g.k, g.k + 1);
      var (q, drop) := CheckFrame(p, g.At(g.k + 1));
      World(q, if drop then g.(k := g.k + 1, dropped := g.dropped + 1) else g.(k := g.k + 1, encoded := g.encoded + 1),
            w.clock)
    case Stop(now) =>
      var q := PauseAt(p, ClosestVideoTs(p, g.interval, now));
      var s := ClosestFrame(g, now);
      World(q,
            if !p.CanStart() then g
            else if g.k < s then g.(s := s, from := s, early := false)
            else g.(s := s, from := s + 1, late := g.late + 1, early := false),
            now)
    case Resume(now) =>
      var q := ResumeAt(p, ClosestVideoTs(p, g.interval, now));
      World(q, if p.CanStop() then EndAt(g, ClosestFrame(g, now)) else g, now)
  }

  lemma FrameVerdict(w: World)
    requires Sound(w)
    ensures var n, (q, drop) := w.g.k + 1, CheckFrame(w.p, w.g.At(w.g.k + 1));
            && (drop <==> w.p.tsStart != 0 && w.g.s <= n && !(w.p.tsEnd != 0 && n == w.g.e))
            && (w.p.tsStart != 0 ==> (q.tsStart == 0 <==> w.p.tsEnd != 0 && n == w.g.e))
            && 0 < q.lastVideoTs == w.g.At(n)
  {
    var n := w.g.k + 1;
    GridOrder(w.g, w.g.k, n);
    GridOrder(w.g, w.g.s, n);
    GridOrder(w.g, n, w.g.s);
  }

  /** A frame: dropped exactly when it lies in the pause, s <= n, and is not its end; and a
      pause whose end is not ahead drops every frame from its first one on. */
  lemma FrameKeepsInv(w: World)
    requires Sound(w)
    ensures Sound(Apply(w, Frame))
    ensures var n := w.g.k + 1;
            Apply(w, Frame).g.dropped == w.g.dropped + 1
            <==> w.p.tsStart != 0 && w.g.s <= n && !(w.p.tsEnd != 0 && n == w.g.e)
    ensures w.p.tsEnd != 0 && w.g.e <= w.g.k ==>
              var u := Apply(w, Frame);
              && u.p.tsStart == w.p.tsStart && u.p.tsEnd == w.p.tsEnd && u.g.s == w.g.s && u.g.e <= u.g.k
              && (w.g.s <= u.g.k ==> u.g.dropped == w.g.dropped + 1)
  {
    FrameVerdict(w);
    assert forall m :: Apply(w, Frame).g.At(m) == w.g.At(m);
  }

  lemma StopKeepsInv(w: World, now: nat)
    requires Sound(w) && Timely(w, Stop(now))
    ensures Sound(Apply(w, Stop(now)))
    ensures Apply(w, Stop(now)).g.late
            == w.g.late + (if w.p.CanStart() && now + w.g.interval < w.p.lastVideoTs then 1 else 0)
    ensures Apply(w, Stop(now)).g.lead == w.g.lead
  {
    ClosestOnGrid(w.p, w.g, now);
    GridOrder(w.g, w.g.k, ClosestFrame(w.g, now));
  }

  lemma WrapSum(x: int, y: int)
    ensures Wrap(Wrap(x) + y) == Wrap(x + y)
  {
  }

  /** The length of a pause is one interval for each of its frames, those dropped while it was
      open, those still to come, and one that it came too late for, and its lead. */
  lemma PauseLength(g: Grid, c: int)
    requires g.s <= g.from <= c && g.k < c
    ensures OpenLength(g) + (g.At(c) - g.At(g.s) + g.Ahead())
            == Length(g, g.dropped + g.late + Remaining(g.k, g.from, c), g.lead)
  {
    GridOrder(g, g.s, c);
    Distribute(g.dropped - Open(g.k, g.from) + g.late - (g.from - g.s), c - g.s, g.interval);
  }

  /** An offset is shorter than the time since time zero, so it does not wrap. */
  lemma NoWrap(g: Grid, c: int)
    requires g.base >= 0 && g.dropped + g.encoded == g.k + 1 && -1 <= g.k < c && g.from <= c && g.At(c) < U64
    requires g.late + (if g.lead > g.base then 1 else 0) <= g.encoded && (g.lead > g.base ==> g.lead < g.interval)
    ensures Length(g, g.dropped + g.late + Remaining(g.k, g.from, c), g.lead) < U64
  {
    var m := g.dropped + g.late + Remaining(g.k, g.from, c);
    assert m <= if g.lead > g.base then c - 1 else c;
    GridOrder(g, m, c);
  }

  /** What a resume that is granted does, with c the frame picked. */
  lemma ResumeIsEnd(w: World, now: nat)
    requires Sound(w) && Timely(w, Resume(now)) && w.p.CanStop()
    ensures var c := ClosestFrame(w.g, now);
            && w.g.k <= c && 0 <= w.g.At(c) < U64 && EndsInPlace(w, c)
            && ClosestVideoTs(w.p, w.g.interval, now) == w.g.At(c)
            && Apply(w, Resume(now)) == World(EndPause(w.p, w.g.At(c)), EndAt(w.g, c), now)
  {
    var c := ClosestFrame(w.g, now);
    ClosestOnGrid(w.p, w.g, now);
    GridOrder(w.g, c, w.g.s);
    GridOrder(w.g, w.g.k, c);
  }

  /** Only an early pause, not begun on a frame, can be ended before its first frame, and
      then by less than an interval. */
  predicate EndsInPlace(w: World, c: int) {
    || w.g.s <= c
    || (&& w.g.early && w.g.lead > 0 && w.g.s > 0
        && w.g.At(c) < w.p.tsStart < w.g.At(c) + w.g.interval && w.p.tsStart < U64)
  }

  /** An end that is not before the pause's first frame, and one that is. */
  lemma EndCounts(w: World, c: int)
    requires Sound(w) && w.p.CanStop() && w.g.k < c && EndsInPlace(w, c)
    ensures var g := EndAt(w.g, c);
            && g.s <= c && g.from <= c
            && OpenLength(w.g) + (w.g.At(c) - w.p.tsStart)
               == Length(g, g.dropped + g.late + Remaining(g.k, g.from, c), g.lead)
  {
    if w.g.s <= c {
      PauseLength(w.g, c);
    } else {
      GridOrder(w.g, c, w.g.s);
    }
  }

  lemma CountsAtEnd(w: World, c: int)
    requires Sound(w) && w.p.CanStop() && w.g.k < c && w.g.At(c) < U64 && EndAt(w.g, c).lead <= w.g.lead
    requires var g := EndAt(w.g, c);
             && g.from <= c
             && OpenLength(w.g) + (w.g.At(c) - w.p.tsStart)
                == Length(g, g.dropped + g.late + Remaining(g.k, g.from, c), g.lead)
    ensures var g := EndAt(w.g, c);
            w.g.At(c) >= 0
            && Counts(EndPause(w.p, w.g.At(c)), Length(g, g.dropped + g.late + Remaining(g.k, g.from, c), g.lead))
  {
    GridOrder(w.g, w.g.k, c);
    NoWrap(EndAt(w.g, c), c);
    WrapSum(OpenLength(w.g), w.g.At(c) - w.p.tsStart);
  }

  lemma LeadInRange(g: Grid, c: int)
    requires g.lead > g.base ==> g.lead < g.interval
    ensures EndAt(g, c).lead <= g.lead
  {
    GridOrder(g, c, g.s);
  }

  lemma EndKeepsInv(w: World, c: int)
    requires Sound(w) && w.p.CanStop() && w.g.k <= c && 0 <= w.g.At(c) < U64 && EndsInPlace(w, c)
    ensures Inv(EndPause(w.p, w.g.At(c)), EndAt(w.g, c))
    ensures EndPause(w.p, w.g.At(c)).tsEnd != 0 && (EndAt(w.g, c).lead == 0 <==> w.g.lead == 0)
    ensures w.g.s <= c ==> w.p.tsStart <= w.g.At(c)
  {
    var g := EndAt(w.g, c);
    forall n ensures g.At(n) == w.g.At(c) <==> n == c {
      GridOrder(w.g, n, c);
    }
    GridOrder(w.g, w.g.k, c);
    GridOrder(w.g, c, w.g.s);
    GridOrder(w.g, w.g.s, c);
    if w.g.k < c {
      EndCounts(w, c);
      LeadInRange(w.g, c);
      CountsAtEnd(w, c);
    }
  }

  lemma ResumeKeepsInv(w: World, now: nat)
    requires Sound(w) && Timely(w, Resume(now))
    ensures Sound(Apply(w, Resume(now)))
    ensures Apply(w, Resume(now)).g.lead == 0 <==> w.g.lead == 0
    ensures w.p.CanStop() ==>
              var end := ClosestVideoTs(w.p, w.g.interval, now);
              w.p.tsStart <= end || (w.g.early && w.g.lead > 0 && w.p.tsStart < end + w.g.interval)
  {
    if w.p.CanStop() {
      var c := ClosestFrame(w.g, now);
      ResumeIsEnd(w, now);
      EndKeepsInv(w, c);
    }
  }

  lemma EventKeepsSound(w: World, ev: Event)
    requires Sound(w) && Timely(w, ev)
    ensures Sound(Apply(w, ev)) && (Apply(w, ev).g.lead == 0 <==> w.g.lead == 0)
  {
    match ev
    case Frame => FrameKeepsInv(w);
    case Stop(now) => StopKeepsInv(w, now);
    case Resume(now) => ResumeKeepsInv(w, now);
  }

  ghost predicate IsRun(w: World, evs: seq<Event>, u: World)
    requires w.Valid()
    decreases |evs|
  {
    if evs == [] then u == w
    else Timely(w, evs[0]) && IsRun(Apply(w, evs[0]), evs[1..], u)
  }

  lemma {:induction false} RunKeepsSound(w: World, evs: seq<Event>, u: World)
    requires Sound(w) && IsRun(w, evs, u)
    ensures Sound(u) && u.g.base == w.g.base && u.g.interval == w.g.interval
    ensures u.g.lead == 0 <==> w.g.lead == 0
    decreases |evs|
  {
    if evs != [] {
      EventKeepsSound(w, evs[0]);
      RunKeepsSound(Apply(w, evs[0]), evs[1..], u);
    }
  }

  // ----- From the reset state on -----

  /** Before the first frame: the fields, and the latest time a request was made. */
  datatype Waiting = Waiting(p: PauseState, clock: nat)

  const Reset := Waiting(PauseState(0, 0, 0, 0), 0)

  predicate Asks(x: Waiting, interval: pos, ev: Event) {
    !ev.Frame? && x.clock <= ev.now && ev.now + 2 * interval < U64
  }

  function Ask(x: Waiting, interval: pos, ev: Event): Waiting
    requires Asks(x, interval, ev)
  {
    var closest := ClosestVideoTs(x.p, interval, ev.now);
    Waiting(if ev.Stop? then PauseAt(x.p, closest) else ResumeAt(x.p, closest), ev.now)
  }

  predicate IsWait(x: Waiting, interval: pos, evs: seq<Event>, y: Waiting)
    decreases |evs|
  {
    if evs == [] then y == x
    else Asks(x, interval, evs[0]) && IsWait(Ask(x, interval, evs[0]), interval, evs[1..], y)
  }

  /** What waiting comes to: no pause, one, or one with an end, at multiples of the interval. */
  ghost predicate Early(x: Waiting, interval: pos) {
    var p := x.p;
    && p.lastVideoTs == 0 && p.tsOffset == (if p.tsEnd == 0 then 0 else p.tsEnd - p.tsStart)
    && p.tsStart % interval == 0 && p.tsStart <= x.clock + 2 * interval
    && (p.tsEnd != 0 ==> 0 < p.tsStart <= p.tsEnd < U64 && p.tsEnd % interval == 0)
  }

  /** Before the first frame, a request picks a multiple of the interval. */
  lemma EarlyClosest(p: PauseState, interval: pos, now: nat)
    requires p.lastVideoTs == 0 && now + 2 * interval < U64
    ensures var c := ClosestVideoTs(p, interval, now);
            c == (now / interval + 2) * interval && now + interval < c <= now + 2 * interval && c % interval == 0
  {
    DivOfSum(2, now, interval);
    FloorBounds(now + 2 * interval, interval);
    var n := now / interval + 2;
    MulSign(-n, interval);
    DivOfSum(n, 0, interval);
    FloorBounds(n * interval, interval);
    MultipleIsExact(n, interval);
  }

  lemma MultipleIsExact(n: int, i: pos)
    ensures n * i % i == 0 && n * i / i == n
  {
    DivOfSum(n, 0, i);
    assert n * i == n * i / i * i + n * i % i;
  }

  lemma AskKeepsEarly(x: Waiting, interval: pos, ev: Event)
    requires Early(x, interval) && Asks(x, interval, ev)
    ensures Early(Ask(x, interval, ev), interval)
  {
    EarlyClosest(x.p, interval, ev.now);
    if ev.Resume? && x.p.CanStop() {
      EarlyInOrder(x, interval, ev.now);
    }
  }

  /** A multiple that is not past the clock by more than two intervals is not past the point a
      request picks. */
  lemma EarlyInOrder(x: Waiting, interval: pos, now: nat)
    requires x.p.lastVideoTs == 0 && x.p.tsStart % interval == 0 && x.p.tsStart <= x.clock + 2 * interval
    requires x.clock <= now && now + 2 * interval < U64
    ensures x.p.tsStart <= ClosestVideoTs(x.p, interval, now)
  {
    EarlyClosest(x.p, interval, now);
    var m, n := x.p.tsStart / interval, now / interval + 2;
    assert x.p.tsStart == m * interval;
    MulSign(n - m + 1, interval);
    Distribute(n - m, 1, interval);
    Distribute(n - m, m, interval);
    MulSign(m - n, interval);
    DivOfSum(2, now, interval);
    FloorBounds(now + 2 * interval, interval);
    Distribute(m - n, n, interval);
  }

  lemma {:induction false} WaitKeepsEarly(x: Waiting, interval: pos, evs: seq<Event>, y: Waiting)
    requires Early(x, interval) && IsWait(x, interval, evs, y)
    ensures Early(y, interval)
    decreases |evs|
  {
    if evs != [] {
      AskKeepsEarly(x, interval, evs[0]);
      WaitKeepsEarly(Ask(x, interval, evs[0]), interval, evs[1..], y);
    }
  }

  /** The first frame at or past a time. */
  function FrameFrom(base: nat, interval: pos, ts: nat): (s: int)
    ensures s >= 0
  {
    if ts <= base then 0 else (FloorBounds(ts - base - 1, interval); (ts - base - 1) / interval + 1)
  }

  lemma FrameFromIsFirst(base: nat, interval: pos, ts: nat)
    ensures var s := FrameFrom(base, interval, ts);
            ts <= base + s * interval && (s > 0 ==> base + s * interval < ts + interval) && (s == 0 <==> ts <= base)
  {
    if ts > base {
      var q := (ts - base - 1) / interval;
      FloorBounds(ts - base - 1, interval);
      Distribute(q, 1, interval);
      MulSign(q + 1, interval);
    }
  }

  /** The first frame, at time base. */
  function Begin(x: Waiting, base: pos, interval: pos): (w: World)
    ensures w.Valid()
  {
    var (q, drop) := CheckFrame(x.p, base);
    var s := FrameFrom(base, interval, x.p.tsStart);
    var e := if base % interval == 0 && base <= x.p.tsEnd then (x.p.tsEnd - base) / interval else -1;
    World(q,
          Grid(base, interval, 0, s, s, e, if drop then 1 else 0, if drop then 0 else 1, 0, x.p.tsStart != 0,
               if x.p.tsStart == 0 then 0 else base + s * interval - x.p.tsStart),
          x.clock)
  }

  /** No pause was asked for before the first frame, or it begins on a frame. */
  predicate OnFrame(p: PauseState, base: pos, interval: pos) {
    p.tsStart == 0 || (base <= p.tsStart && base % interval == 0)
  }

  lemma QuotientOfDifference(m: int, n: int, i: pos)
    ensures n * i - m * i == (n - m) * i && (n * i - m * i) / i == n - m
    ensures (n * i - m * i - 1) / i == n - m - 1
  {
    Distribute(n - m, m, i);
    DivOfSum(n - m, 0, i);
    DivOfSum(n - m, -1, i);
  }

  lemma MultiplesDiffer(b: int, c: int, i: pos)
    requires b % i == 0 && c % i == 0
    ensures c - b == (c / i - b / i) * i && (c - b) / i == c / i - b / i && (c - b - 1) / i == c / i - b / i - 1
  {
    var m, n := b / i, c / i;
    assert b == m * i && c == n * i;
    QuotientOfDifference(m, n, i);
  }

  /** An end that is a multiple of the interval falls on frame e, or on none. */
  lemma EndFalls(base: nat, interval: pos, end: nat, n: nat)
    requires end % interval == 0
    ensures base + n * interval == end <==> base % interval == 0 && base <= end && n == (end - base) / interval
  {
    var m := end / interval;
    assert end == m * interval;
    GridMeets(base, interval, n, m);
    if base % interval == 0 {
      NotPastIff(base, interval, m);
      MultiplesDiffer(base, end, interval);
    }
  }

  /** The first frame at or past a multiple of the interval is right at it if and only if the
      frames begin by then and run through the multiples. */
  lemma StartsOnFrame(base: nat, interval: pos, ts: nat)
    requires ts % interval == 0
    ensures base + FrameFrom(base, interval, ts) * interval == ts <==> base <= ts && base % interval == 0
  {
    EndFalls(base, interval, ts, FrameFrom(base, interval, ts));
    if base < ts && base % interval == 0 {
      MultiplesDiffer(base, ts, interval);
    }
  }

  lemma LeadIsZeroIff(x: Waiting, base: pos, interval: pos)
    requires Early(x, interval)
    ensures Begin(x, base, interval).g.lead == 0 <==> OnFrame(x.p, base, interval)
  {
    StartsOnFrame(base, interval, x.p.tsStart);
  }

  /** The first frame finds the accounting in order. */
  lemma BeginIsSound(x: Waiting, base: pos, interval: pos)
    requires Early(x, interval)
    ensures Sound(Begin(x, base, interval))
  {
    var w := Begin(x, base, interval);
    FrameFromIsFirst(base, interval, x.p.tsStart);
    if x.p.tsEnd != 0 {
      forall n | n >= 0 ensures w.g.At(n) == x.p.tsEnd <==> n == w.g.e {
        EndFalls(base, interval, x.p.tsEnd, n);
      }
      if w.g.e >= 0 {
        assert w.g.At(w.g.e) == x.p.tsEnd;
        GridOrder(w.g, w.g.s, w.g.e);
        GridOrder(w.g, w.g.e, w.g.s);
      }
    }
  }

  /** Over any run from the reset state, pauses asked for before the first frame included:
      whenever none is pending, the offset is one interval for every frame dropped, and the
      time of the last frame, less the offset, is one interval for every frame encoded after
      the first, if and only if no pause came late, that is, with the clock more than one
      interval behind the last frame, and one asked for before the first frame began on a
      frame. */
  lemma OffsetIsDroppedTime(base: pos, interval: pos, asked: seq<Event>, x: Waiting, evs: seq<Event>, u: World)
    requires IsWait(Reset, interval, asked, x) && IsRun(Begin(x, base, interval), evs, u) && u.p.tsStart == 0
    ensures u.p.tsOffset == Wrap((u.g.dropped + u.g.late) * interval + u.g.lead)
    ensures u.g.lead == 0 <==> OnFrame(x.p, base, interval)
    ensures u.p.tsOffset == u.g.dropped * interval <==> u.g.late == 0 && OnFrame(x.p, base, interval)
    ensures u.p.lastVideoTs - base - u.p.tsOffset == (u.g.encoded - 1) * interval
            <==> u.g.late == 0 && OnFrame(x.p, base, interval)
  {
    MultipleIsExact(0, interval);
    WaitKeepsEarly(Reset, interval, asked, x);
    BeginIsSound(x, base, interval);
    LeadIsZeroIff(x, base, interval);
    RunKeepsSound(Begin(x, base, interval), evs, u);
    CountIff(u.g, u.p);
  }

  lemma CountIff(g: Grid, p: PauseState)
    requires Counts(p, Length(g, g.dropped + g.late, g.lead)) && 0 < g.lead + g.interval && 0 < g.lead + U64
    requires p.lastVideoTs == g.At(g.k) && g.dropped + g.encoded == g.k + 1
    ensures p.tsOffset == g.dropped * g.interval <==> g.late == 0 && g.lead == 0
    ensures p.lastVideoTs - g.base - p.tsOffset == (g.encoded - 1) * g.interval <==> g.late == 0 && g.lead == 0
  {
    Distribute(g.dropped, g.late, g.interval);
    Distribute(g.encoded - 1, g.dropped, g.interval);
    Product(g.late, g.interval);
    Product(g.dropped, g.interval);
  }

  lemma Product(n: nat, i: pos)
    ensures n * i >= if n == 0 then 0 else i
  {
  }

  // ----- Which pauses end -----

  /** After n frames, the first of them at time first. */
  function AfterFrames(p: PauseState, first: nat, interval: pos, n: nat): PauseState {
    if n == 0 then p else CheckFrame(AfterFrames(p, first, interval, n - 1), first + Times(n - 1, interval)).0
  }

  lemma {:induction false} StillPaused(p: PauseState, first: nat, interval: pos, n: nat)
    requires p.tsStart != 0 && forall m: nat :: m < n ==> first + Times(m, interval) != p.tsEnd
    ensures var q := AfterFrames(p, first, interval, n); q.tsStart == p.tsStart && q.tsEnd == p.tsEnd
  {
    if n > 0 {
      StillPaused(p, first, interval, n - 1);
    }
  }

  /** The pause is over after some frame. */
  ghost predicate Ends(p: PauseState, first: nat, interval: pos) {
    exists n: nat :: AfterFrames(p, first, interval, n).tsStart == 0
  }

  /** Some frame falls on the end of the pause. */
  ghost predicate MeetsEnd(p: PauseState, first: nat, interval: pos) {
    exists m: nat :: first + Times(m, interval) == p.tsEnd
  }

  lemma EndsAt(p: PauseState, first: nat, interval: pos, m: nat)
    requires p.tsStart != 0 && first + Times(m, interval) == p.tsEnd
    ensures AfterFrames(p, first, interval, m + 1).tsStart == 0
  {
    forall j: nat | j < m ensures first + Times(j, interval) != p.tsEnd {
      MulSign(m - j, interval);
      Distribute(m - j, j, interval);
    }
    StillPaused(p, first, interval, m);
  }

  /** A pause whose end is set is over after some frame if and only if a frame falls on that
      end. */
  lemma PauseEndsIff(p: PauseState, first: nat, interval: pos)
    requires p.tsStart != 0
    ensures Ends(p, first, interval) <==> MeetsEnd(p, first, interval)
  {
    if MeetsEnd(p, first, interval) {
      var m: nat :| first + Times(m, interval) == p.tsEnd;
      EndsAt(p, first, interval, m);
    } else {
      forall n: nat ensures AfterFrames(p, first, interval, n).tsStart != 0 {
        StillPaused(p, first, interval, n);
      }
    }
  }

  /** A resume on the frame grid ends the pause if and only if it finds the clock at most one
      interval behind the last frame. */
  lemma ResumeEndsIff(w: World, now: nat)
    requires Sound(w) && Timely(w, Resume(now)) && w.p.CanStop()
    ensures var g, u := w.g, Apply(w, Resume(now));
            g.At(g.k + 1) >= 0 && (Ends(u.p, g.At(g.k + 1), g.interval) <==> g.At(g.k) <= now + g.interval)
  {
    var g, u, c := w.g, Apply(w, Resume(now)), ClosestFrame(w.g, now);
    ClosestOnGrid(w.p, g, now);
    GridOrder(g, g.k, g.k + 1);
    ResumeKeepsInv(w, now);
    PauseEndsIff(u.p, g.At(g.k + 1), g.interval);
    forall m: nat ensures g.At(g.k + 1) + Times(m, g.interval) == u.p.tsEnd <==> g.k + 1 + m == c {
      Distribute(g.k + 1, m, g.interval);
      GridOrder(g, g.k + 1 + m, c);
    }
    if g.k < c {
      assert g.At(g.k + 1) + Times(c - g.k - 1, g.interval) == u.p.tsEnd;
    }
  }

  // ----- Before the first frame -----

  /** Paused at t1 and resumed at t2, both before the first frame. */
  function EarlyPause(interval: pos, t1: nat, t2: nat): PauseState {
    var paused := PauseAt(PauseState(0, 0, 0, 0), ClosestVideoTs(PauseState(0, 0, 0, 0), interval, t1));
    ResumeAt(paused, ClosestVideoTs(paused, interval, t2))
  }

  /** The points chosen are multiples of the interval, not points of the frames' own grid. */
  lemma EarlyPoints(interval: pos, t1: nat, t2: nat)
    requires t1 <= t2 && t2 + 2 * interval < U64
    ensures var p, n1, n2 := EarlyPause(interval, t1, t2), t1 / interval + 2, t2 / interval + 2;
            p.tsStart == n1 * interval && p.tsEnd == n2 * interval && 0 < p.tsStart <= p.tsEnd
  {
    EarlyClosest(PauseState(0, 0, 0, 0), interval, t1);
    var paused := Ask(Reset, interval, Stop(t1));
    assert Early(paused, interval);
    EarlyClosest(paused.p, interval, t2);
    EarlyInOrder(paused, interval, t2);
  }

  /** Such a pause ends, after some frame of those at base + n * interval, if and only if the
      frames run through the multiples of the interval and the first is not past the end. */
  lemma EarlyPauseEndsIff(base: pos, interval: pos, t1: nat, t2: nat)
    requires t1 <= t2 && t2 + 2 * interval < U64
    ensures var p := EarlyPause(interval, t1, t2);
            Ends(p, base, interval) <==> base % interval == 0 && base <= p.tsEnd
  {
    var p, e := EarlyPause(interval, t1, t2), t2 / interval + 2;
    EarlyPoints(interval, t1, t2);
    PauseEndsIff(p, base, interval);
    forall m: nat ensures base + Times(m, interval) == p.tsEnd <==> base % interval == 0 && m == e - base / interval {
      GridMeets(base, interval, m, e);
    }
    if base % interval == 0 {
      NotPastIff(base, interval, e);
    }
    if base % interval == 0 && base <= p.tsEnd {
      assert base + Times(e - base / interval, interval) == p.tsEnd;
    }
  }

  lemma GridMeets(b: int, i: pos, m: int, e: int)
    ensures b + m * i == e * i <==> b % i == 0 && m == e - b / i
  {
    var q, r := b / i, b % i;
    var d := q + m - e;
    assert b == q * i + r;
    Distribute(q + m, -e, i);
    Distribute(q, m, i);
    assert b + m * i - e * i == d * i + r;
    MulSign(d, i);
    MulSign(d + 1, i);
    Distribute(d, 1, i);
  }

  lemma NotPastIff(b: int, i: pos, e: int)
    requires b % i == 0
    ensures b <= e * i <==> b / i <= e
  {
    assert b == b / i * i;
    MulSign(b / i - e, i);
    Distribute(b / i - e, e, i);
  }

  /** Where it does not, every frame from the pause on is dropped for good. */
  lemma ResumeNeverComes(base: pos, interval: pos, t1: nat, t2: nat, n: nat)
    requires t1 <= t2 && t2 + 2 * interval < U64
    requires base % interval != 0 || EarlyPause(interval, t1, t2).tsEnd < base
    ensures var p, first: nat := EarlyPause(interval, t1, t2), base;
            CheckFrame(AfterFrames(p, first, interval, n), first + Times(n, interval)).1
            == (first + Times(n, interval) >= p.tsStart)
  {
    var p := EarlyPause(interval, t1, t2);
    EarlyPoints(interval, t1, t2);
    EarlyPauseEndsIff(base, interval, t1, t2);
    PauseEndsIff(p, base, interval);
    StillPaused(p, base, interval, n);
  }

  /** One such run: a 100 Hz grid that is off by half a frame, paused and resumed 5 and 10 ms
      after time zero, 15 ms before the first frame. All its frames are dropped. */
  lemma EarlyPauseDropsEverything(n: nat)
    ensures var p := EarlyPause(10_000_000, 5_000_000, 10_000_000);
            && p.tsStart == 20_000_000 && p.tsEnd == 30_000_000
            && CheckFrame(AfterFrames(p, 25_000_000, 10_000_000, n), 25_000_000 + Times(n, 10_000_000)).1
  {
    EarlyPoints(10_000_000, 5_000_000, 10_000_000);
    ResumeNeverComes(25_000_000, 10_000_000, 5_000_000, 10_000_000, n);
  }

  lemma RunOfOne(w: World, ev: Event, u: World)
    requires w.Valid() && Timely(w, ev) && u == Apply(w, ev)
    ensures IsRun(w, [ev], u)
  {
    assert [ev][1..] == [];
  }

  /** Another, with no request made late: a 100 Hz grid on the multiples, paused 5 ms and
      resumed 35 ms after time zero, the first frame at 40 ms. The pause runs from 20 to 50 ms,
      so 30 ms are taken off for the one frame that is dropped. */
  lemma EarlyPauseMiscounts()
    ensures exists x, u ::
              && IsWait(Reset, 10_000_000, [Stop(5_000_000), Resume(35_000_000)], x)
              && IsRun(Begin(x, 40_000_000, 10_000_000), [Frame], u)
              && u.p == PauseState(50_000_000, 0, 0, 30_000_000)
              && u.g.dropped == 1 && u.g.encoded == 1 && u.g.late == 0
  {
    var a := Ask(Reset, 10_000_000, Stop(5_000_000));
    var x := Ask(a, 10_000_000, Resume(35_000_000));
    assert [Resume(35_000_000)][1..] == [];
    assert [Stop(5_000_000), Resume(35_000_000)][1..] == [Resume(35_000_000)];
    assert IsWait(Reset, 10_000_000, [Stop(5_000_000), Resume(35_000_000)], x);
    var w := Begin(x, 40_000_000, 10_000_000);
    RunOfOne(w, Frame, Apply(w, Frame));
  }

  const EarlyStop := Waiting(PauseState(0, 30_000_000, 0, 0), 10_000_000)
  const LeadBack :=
    World(PauseState(5_000_000, 30_000_000, 25_000_000, U64 - 5_000_000),
          Grid(5_000_000, 10_000_000, 0, 2, 2, 2, 0, 1, 0, true, -5_000_000), 11_000_000)

  lemma StopsEarly()
    ensures IsWait(Reset, 10_000_000, [Stop(10_000_000)], EarlyStop)
  {
    assert [Stop(10_000_000)][1..] == [];
    assert ClosestVideoTs(Reset.p, 10_000_000, 10_000_000) == 30_000_000;
  }

  lemma ResumesEarlier()
    ensures IsRun(Begin(EarlyStop, 5_000_000, 10_000_000), [Resume(11_000_000)], LeadBack)
  {
    var b := Begin(EarlyStop, 5_000_000, 10_000_000);
    assert FrameFrom(5_000_000, 10_000_000, 30_000_000) == 3;
    assert b.p == PauseState(5_000_000, 30_000_000, 0, 0);
    assert b.g.lead == 5_000_000 && ClosestFrame(b.g, 11_000_000) == 2;
    assert ClosestVideoTs(b.p, 10_000_000, 11_000_000) == 25_000_000;
    RunOfOne(b, Resume(11_000_000), LeadBack);
  }

  lemma NothingIsDropped()
    ensures var u := Apply(Apply(LeadBack, Frame), Frame);
            && u.p == PauseState(25_000_000, 0, 0, U64 - 5_000_000) && u.g.dropped == 0 && u.g.late == 0
            && IsRun(LeadBack, [Frame, Frame], u)
  {
    var v := Apply(LeadBack, Frame);
    assert v.p == LeadBack.p.(lastVideoTs := 15_000_000);
    assert [Frame, Frame][1..] == [Frame];
    RunOfOne(v, Frame, Apply(v, Frame));
  }

  /** And one resumed after the first frame, at a point before that of the pause: a 100 Hz grid
      5 ms off the multiples, paused 10 ms after time zero for 30 ms, resumed at 11 ms for
      25 ms. No frame is dropped, and the offset wraps around to 5 ms below zero. */
  lemma EarlyPauseWrapsAround()
    ensures exists u ::
              && IsWait(Reset, 10_000_000, [Stop(10_000_000)], EarlyStop)
              && IsRun(Begin(EarlyStop, 5_000_000, 10_000_000), [Resume(11_000_000)], LeadBack)
              && IsRun(LeadBack, [Frame, Frame], u)
              && u.p == PauseState(25_000_000, 0, 0, U64 - 5_000_000) && u.g.dropped == 0 && u.g.late == 0
  {
    StopsEarly();
    ResumesEarlier();
    NothingIsDropped();
  }
}

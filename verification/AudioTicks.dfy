/** The timestamp queue of libobs/obs-audio.c: one window per audio tick goes in, and
    phantom windows are pushed in front of it when a source lags behind. Times are in
    nanoseconds; a window is 1024 samples long up to rounding. */
module AudioTicks {
  import opened Basics
  import opened Seqs

  const OutputFrames := 1024
  const Second := 1_000_000_000

  /** util_mul_div64 on values whose product may be large. */
  function MulDiv(num: nat, mul: nat, div: pos): (r: nat) {
    num * mul / div
  }

  /** The two-part form the source computes, which does not overflow as soon, agrees. */
  lemma MulDivInParts(num: nat, mul: nat, div: pos)
    ensures MulDiv(num, mul, div) == num / div * mul + num % div * mul / div
  {
    var q, r := num / div, num % div;
    assert num * mul == (q * mul) * div + r * mul by {
      assert num == q * div + r;
      assert (q * div + r) * mul == q * div * mul + r * mul;
    }
    DivOfSum(q * mul, r * mul, div);
  }

  function FramesToNs(rate: pos, frames: nat): nat {
    MulDiv(frames, Second, rate)
  }

  function NsToFrames(rate: pos, ns: nat): nat {
    MulDiv(ns, rate, Second)
  }

  datatype Window = Window(start: int, end: int)

  /** The timing fields of the audio core. Between callbacks and inside them `stamps` is
      buffered_timestamps, front first. */
  datatype Timing = Timing(total: nat, wait: nat, bufferedTs: int, stamps: seq<Window>)

  /** The k-th window in front of the first real one, counted backwards in time. */
  function Phantom(rate: pos, base: int, k: nat): Window
    requires k > 0
  {
    Window(base - FramesToNs(rate, k * OutputFrames), base - FramesToNs(rate, (k - 1) * OutputFrames))
  }

  function Phantoms(rate: pos, base: int, n: nat): seq<Window> {
    if n == 0 then [] else [Phantom(rate, base, n)] + Phantoms(rate, base, n - 1)
  }

  /** The push loop both buffering functions end with. */
  function PushTicks(rate: pos, t: Timing, ticks: nat): (r: Timing)
    ensures |r.stamps| == |t.stamps| + ticks && r.total == t.total
    decreases ticks
  {
    if ticks == 0 then t
    else
      PushTicks(rate, t.(wait := t.wait + 1, stamps := [Phantom(rate, t.bufferedTs, t.wait + 1)] + t.stamps), ticks - 1)
  }

  /** What the loop leaves in new_ts: its end stays unset when the loop does not run. */
  function NewWindow(rate: pos, base: int, wait: nat, ticks: nat, unset: int): Window {
    if ticks > 0 then Phantom(rate, base, wait + ticks)
    else Window(base - FramesToNs(rate, wait * OutputFrames), unset)
  }

  function Ticks(rate: pos, lag: nat): nat {
    (NsToFrames(rate, lag) + OutputFrames - 1) / OutputFrames
  }

  /** Add a number of ticks of buffering. */
  function Extend(rate: pos, t: Timing, ts: Window, ticks: nat, unset: int): (Timing, Window) {
    var base := if t.wait == 0 then ts.start else t.bufferedTs;
    (PushTicks(rate, t.(total := t.total + ticks, bufferedTs := base), ticks),
     NewWindow(rate, base, t.wait, ticks, unset))
  }

  /** How many ticks add_audio_buffering adds, clipped at the maximum. */
  function AddedTicks(rate: pos, max: nat, total: nat, lag: nat): (n: nat)
    requires total <= max
    ensures total + n <= max
  {
    if total + Ticks(rate, lag) >= max then max - total else Ticks(rate, lag)
  }

  /** add_audio_buffering */
  function AddBuffering(rate: pos, max: nat, t: Timing, ts: Window, minTs: int, unset: int): (Timing, Window)
    requires minTs <= ts.start && t.total <= max
  {
    if t.total == max then (t, ts) else Extend(rate, t, ts, AddedTicks(rate, max, t.total, ts.start - minTs), unset)
  }

  /** set_fixed_audio_buffering */
  function SetFixed(rate: pos, max: nat, t: Timing, ts: Window, unset: int): (Timing, Window)
    requires t.total <= max
  {
    if t.total == max then (t, ts) else Extend(rate, t, ts, max - t.total, unset)
  }

  /** What one audio callback brings: its window, the earliest source time, and whether
      buffering is fixed. `unset` is the value of the uninitialised window end. */
  datatype Tick = Tick(window: Window, sources: int, fixed: bool, unset: int)

  datatype Outcome = Outcome(timing: Timing, ts: Window, emits: bool)

  /** The choice audio_callback makes, with the new window already queued. */
  function Buffer(rate: pos, max: nat, t: Timing, k: Tick): (r: (Timing, Window))
    requires t.total <= max && t.stamps != []
    ensures r.0.stamps != [] && r.0.total <= max
  {
    var front := t.stamps[0];
    var minTs := if k.sources < front.start then k.sources else front.start;
    if k.fixed then SetFixed(rate, max, t, front, k.unset)
    else if minTs < front.start then AddBuffering(rate, max, t, front, minTs, k.unset)
    else (t, front)
  }

  /** The end of audio_callback: drop the front window, and wait or emit. */
  function Finish(t: Timing, ts: Window): Outcome
    requires t.stamps != []
  {
    var u := t.(stamps := t.stamps[1..]);
    if t.wait > 0 then Outcome(u.(wait := t.wait - 1), ts, false) else Outcome(u, ts, true)
  }

  /** The timestamp part of audio_callback. */
  function Callback(rate: pos, max: nat, t: Timing, k: Tick): (o: Outcome)
    requires t.total <= max
    ensures o.timing.total <= max
  {
    var (u, ts) := Buffer(rate, max, t.(stamps := t.stamps + [k.window]), k);
    Finish(u, ts)
  }

  // ----- The invariant -----

  /** The windows that have come in and not been given out. */
  function Held(t: Timing): seq<Window>
    requires t.wait <= |t.stamps|
  {
    t.stamps[t.wait..]
  }

  /** The queue is the phantom windows that are still to be waited for, then the held ones. */
  ghost predicate Queued(rate: pos, t: Timing) {
    && t.wait <= |t.stamps|
    && t.stamps == Phantoms(rate, t.bufferedTs, t.wait) + Held(t)
    && (t.wait > 0 ==> Held(t) != [] && t.bufferedTs == Held(t)[0].start)
  }

  ghost predicate Inv(rate: pos, max: nat, t: Timing) {
    Queued(rate, t) && |t.stamps| == t.total <= max
  }

  lemma {:induction false} PhantomsLength(rate: pos, base: int, n: nat)
    ensures |Phantoms(rate, base, n)| == n
  {
    if n > 0 {
      PhantomsLength(rate, base, n - 1);
    }
  }

  lemma {:induction false} PushKeepsQueue(rate: pos, t: Timing, ticks: nat)
    requires Queued(rate, t) && Held(t) != [] && t.bufferedTs == Held(t)[0].start
    ensures var u := PushTicks(rate, t, ticks);
            && Queued(rate, u) && Held(u) == Held(t) && u.wait == t.wait + ticks && |u.stamps| == |t.stamps| + ticks
            && u.total == t.total && u.bufferedTs == t.bufferedTs
    decreases ticks
  {
    if ticks > 0 {
      var p := Phantom(rate, t.bufferedTs, t.wait + 1);
      var u := t.(wait := t.wait + 1, stamps := [p] + t.stamps);
      PhantomsLength(rate, t.bufferedTs, t.wait);
      Assoc([p], Phantoms(rate, t.bufferedTs, t.wait), Held(t));
      assert u.stamps[u.wait..] == t.stamps[t.wait..];
      PushKeepsQueue(rate, u, ticks - 1);
    }
  }

  /** The front window is the phantom furthest back, or the first held window. */
  lemma FrontOfQueue(rate: pos, t: Timing)
    requires Queued(rate, t) && t.stamps != []
    ensures t.stamps[0] == if t.wait > 0 then Phantom(rate, t.bufferedTs, t.wait) else Held(t)[0]
    ensures t.wait > 0 ==> Queued(rate, t.(wait := t.wait - 1, stamps := t.stamps[1..]))
                           && Held(t.(wait := t.wait - 1, stamps := t.stamps[1..])) == Held(t)
    ensures t.wait == 0 ==> Queued(rate, t.(stamps := t.stamps[1..]))
                            && Held(t.(stamps := t.stamps[1..])) == Held(t)[1..]
  {
    PhantomsLength(rate, t.bufferedTs, t.wait);
    if t.wait > 0 {
      var p, q := Phantom(rate, t.bufferedTs, t.wait), Phantoms(rate, t.bufferedTs, t.wait - 1);
      Assoc([p], q, Held(t));
      assert t.stamps[1..] == q + Held(t);
      PhantomsLength(rate, t.bufferedTs, t.wait - 1);
    } else {
      assert Held(t) == t.stamps;
      assert Phantoms(rate, t.bufferedTs, 0) + Held(t)[1..] == Held(t)[1..];
    }
  }

  lemma PushBackKeepsQueue(rate: pos, t: Timing, w: Window)
    requires Queued(rate, t)
    ensures var u := t.(stamps := t.stamps + [w]); Queued(rate, u) && Held(u) == Held(t) + [w] && u.stamps != []
  {
    var u := t.(stamps := t.stamps + [w]);
    assert Held(u) == Held(t) + [w];
    Assoc(Phantoms(rate, t.bufferedTs, t.wait), Held(t), [w]);
  }

  lemma NormalBase(rate: pos, t: Timing, total: nat)
    requires Queued(rate, t) && Held(t) != []
    ensures var base := if t.wait == 0 then t.stamps[0].start else t.bufferedTs;
            var v := t.(total := total, bufferedTs := base);
            && base == Held(t)[0].start && Queued(rate, v) && Held(v) == Held(t)
  {
    FrontOfQueue(rate, t);
  }

  lemma NewWindowIsFront(rate: pos, t: Timing, ticks: nat, unset: int)
    requires Queued(rate, t) && Held(t) != [] && t.bufferedTs == Held(t)[0].start
    ensures PushTicks(rate, t, ticks).stamps != []
    ensures var w, front := NewWindow(rate, t.bufferedTs, t.wait, ticks, unset), PushTicks(rate, t, ticks).stamps[0];
            w.start == front.start && (ticks > 0 ==> w == front)
  {
    PushKeepsQueue(rate, t, ticks);
    FrontOfQueue(rate, PushTicks(rate, t, ticks));
  }

  /** Buffering only pushes phantom windows: from t to u, with ts at u's front. */
  ghost predicate Buffered(rate: pos, max: nat, t: Timing, u: Timing, ts: Window)
    requires Queued(rate, t)
  {
    && Queued(rate, u) && Held(u) == Held(t) && u.stamps != [] && ts.start == u.stamps[0].start
    && |u.stamps| - u.total == |t.stamps| - t.total && t.total <= u.total <= max
  }

  lemma ExtendBuffers(rate: pos, max: nat, t: Timing, ticks: nat, unset: int)
    requires Queued(rate, t) && Held(t) != [] && t.stamps != [] && t.total + ticks <= max
    ensures var r := Extend(rate, t, t.stamps[0], ticks, unset); Buffered(rate, max, t, r.0, r.1)
  {
    NormalBase(rate, t, t.total + ticks);
    var v := t.(total := t.total + ticks, bufferedTs := if t.wait == 0 then t.stamps[0].start else t.bufferedTs);
    PushKeepsQueue(rate, v, ticks);
    NewWindowIsFront(rate, v, ticks, unset);
  }

  lemma AddBufferingBuffers(rate: pos, max: nat, t: Timing, minTs: int, unset: int)
    requires Queued(rate, t) && Held(t) != [] && t.stamps != [] && t.total <= max && minTs <= t.stamps[0].start
    ensures var r := AddBuffering(rate, max, t, t.stamps[0], minTs, unset); Buffered(rate, max, t, r.0, r.1)
  {
    var r := AddBuffering(rate, max, t, t.stamps[0], minTs, unset);
    if t.total < max {
      var ticks := AddedTicks(rate, max, t.total, t.stamps[0].start - minTs);
      ExtendBuffers(rate, max, t, ticks, unset);
      assert r == Extend(rate, t, t.stamps[0], ticks, unset);
    } else {
      assert r == (t, t.stamps[0]);
    }
  }

  lemma SetFixedBuffers(rate: pos, max: nat, t: Timing, unset: int)
    requires Queued(rate, t) && Held(t) != [] && t.stamps != [] && t.total <= max
    ensures var r := SetFixed(rate, max, t, t.stamps[0], unset); Buffered(rate, max, t, r.0, r.1)
  {
    var r := SetFixed(rate, max, t, t.stamps[0], unset);
    if t.total < max {
      ExtendBuffers(rate, max, t, max - t.total, unset);
      assert r == Extend(rate, t, t.stamps[0], max - t.total, unset);
    } else {
      assert r == (t, t.stamps[0]);
    }
  }

  lemma BufferKeepsQueue(rate: pos, max: nat, t: Timing, k: Tick)
    requires Queued(rate, t) && Held(t) != [] && t.total <= max && t.stamps != []
    ensures var r := Buffer(rate, max, t, k); Buffered(rate, max, t, r.0, r.1)
  {
    if k.fixed {
      SetFixedBuffers(rate, max, t, k.unset);
    } else if k.sources < t.stamps[0].start {
      AddBufferingBuffers(rate, max, t, k.sources, k.unset);
    }
  }

  lemma FinishKeepsQueue(rate: pos, t: Timing, ts: Window)
    requires Queued(rate, t) && Held(t) != [] && t.stamps != [] && ts.start == t.stamps[0].start
    ensures var o := Finish(t, ts);
            && Queued(rate, o.timing) && |o.timing.stamps| == |t.stamps| - 1 && o.timing.total == t.total
            && (if o.emits then Held(o.timing) == Held(t)[1..] && o.ts.start == Held(t)[0].start
                else Held(o.timing) == Held(t))
  {
    FrontOfQueue(rate, t);
  }

  /** One callback: the window it brings joins the held ones, and if it gives out a time,
      that time is the start of the window held longest, which is then let go. Neither the
      sources, nor the mode, nor the unset value has any part in which times come out. */
  lemma CallbackKeepsInv(rate: pos, max: nat, t: Timing, k: Tick)
    requires Inv(rate, max, t)
    ensures var o, held := Callback(rate, max, t, k), Held(t) + [k.window];
            && Inv(rate, max, o.timing) && t.total <= o.timing.total
            && (if o.emits then Held(o.timing) == held[1..] && o.ts.start == held[0].start
                else Held(o.timing) == held)
  {
    PushBackKeepsQueue(rate, t, k.window);
    var t1 := t.(stamps := t.stamps + [k.window]);
    BufferKeepsQueue(rate, max, t1, k);
    var (u, ts) := Buffer(rate, max, t1, k);
    FinishKeepsQueue(rate, u, ts);
  }

  /** Any number of callbacks, and the times that come out. */
  function Run(rate: pos, max: nat, t: Timing, ks: seq<Tick>): (r: (Timing, seq<int>))
    requires t.total <= max
    ensures r.0.total <= max
    decreases |ks|
  {
    if ks == [] then (t, [])
    else
      var o := Callback(rate, max, t, ks[0]);
      var (u, outs) := Run(rate, max, o.timing, ks[1..]);
      (u, if o.emits then [o.ts.start] + outs else outs)
  }

  function Starts(ws: seq<Window>): (r: seq<int>)
    ensures |r| == |ws| && forall i :: 0 <= i < |ws| ==> r[i] == ws[i].start
  {
    seq(|ws|, i requires 0 <= i < |ws| => ws[i].start)
  }

  function Windows(ks: seq<Tick>): (r: seq<Window>)
    ensures |r| == |ks| && forall i :: 0 <= i < |ks| ==> r[i] == ks[i].window
  {
    seq(|ks|, i requires 0 <= i < |ks| => ks[i].window)
  }

  /** Of these windows the first ones are out, as their starts, and the rest is held. */
  ghost predicate OutInOrder(all: seq<Window>, outs: seq<int>, held: seq<Window>) {
    |outs| <= |all| && outs == Starts(all[..|outs|]) && held == all[|outs|..]
  }

  lemma OneMoreOut(held: seq<Window>, emits: bool, left: seq<Window>, ws: seq<Window>,
                   outs: seq<int>, rest: seq<Window>)
    requires held != [] && left == (if emits then held[1..] else held) && OutInOrder(left + ws, outs, rest)
    ensures OutInOrder(held + ws, if emits then [held[0].start] + outs else outs, rest)
  {
    if emits {
      assert held + ws == [held[0]] + (left + ws);
      assert (held + ws)[..|outs| + 1] == [held[0]] + (left + ws)[..|outs|];
    }
  }

  /** The whole run: the times that come out are the starts of the windows that came in, in
      order, up to some window, and the windows from there on are held. */
  lemma {:induction false} RunKeepsOrder(rate: pos, max: nat, t: Timing, ks: seq<Tick>)
    requires Inv(rate, max, t)
    ensures var (u, outs) := Run(rate, max, t, ks);
            Inv(rate, max, u) && OutInOrder(Held(t) + Windows(ks), outs, Held(u))
    decreases |ks|
  {
    if ks == [] {
      assert Held(t) + Windows(ks) == Held(t);
    } else {
      var w, o := ks[0].window, Callback(rate, max, t, ks[0]);
      CallbackKeepsInv(rate, max, t, ks[0]);
      RunKeepsOrder(rate, max, o.timing, ks[1..]);
      var (u, outs) := Run(rate, max, o.timing, ks[1..]);
      OneMoreOut(Held(t) + [w], o.emits, Held(o.timing), Windows(ks[1..]), outs, Held(u));
      WindowsCons(ks);
      Assoc(Held(t), [w], Windows(ks[1..]));
    }
  }

  lemma WindowsCons(ks: seq<Tick>)
    requires ks != []
    ensures Windows(ks) == [ks[0].window] + Windows(ks[1..])
  {
  }

  const Fresh := Timing(0, 0, 0, [])

  lemma FromTheBeginning(rate: pos, max: nat, ks: seq<Tick>)
    ensures Inv(rate, max, Fresh)
    ensures var (u, outs) := Run(rate, max, Fresh, ks);
            Inv(rate, max, u) && OutInOrder(Windows(ks), outs, Held(u))
  {
    assert Held(Fresh) == [] && Queued(rate, Fresh);
    RunKeepsOrder(rate, max, Fresh, ks);
    assert Held(Fresh) + Windows(ks) == Windows(ks);
  }

  /** From the beginning: what comes out is what went in, with no gap and no repeat, less the
      windows held, and those are never more than the maximum. */
  lemma EmittedAreInputs(rate: pos, max: nat, ks: seq<Tick>)
    ensures var (u, outs) := Run(rate, max, Fresh, ks);
            && outs <= Starts(Windows(ks)) && |ks| - |outs| == u.total - u.wait && u.total <= max
  {
    FromTheBeginning(rate, max, ks);
    var (u, outs) := Run(rate, max, Fresh, ks);
    PhantomsLength(rate, u.bufferedTs, u.wait);
  }

  // ----- Contiguity -----

  ghost predicate Contiguous(ws: seq<Window>) {
    forall i :: 0 < i < |ws| ==> ws[i - 1].end == ws[i].start
  }

  lemma {:induction false} PhantomsContiguous(rate: pos, base: int, n: nat)
    ensures Contiguous(Phantoms(rate, base, n)) && |Phantoms(rate, base, n)| == n
    ensures n > 0 ==> Phantoms(rate, base, n)[0] == Phantom(rate, base, n)
    ensures n > 0 ==> Phantoms(rate, base, n)[n - 1].end == base
  {
    if n > 0 {
      PhantomsContiguous(rate, base, n - 1);
    }
  }

  /** When the held windows follow on one another, so does the whole queue: phantom windows
      end where the first held window starts. */
  lemma QueueContiguous(rate: pos, max: nat, t: Timing)
    requires Inv(rate, max, t) && Contiguous(Held(t))
    ensures Contiguous(t.stamps)
  {
    PhantomsContiguous(rate, t.bufferedTs, t.wait);
    var p, h := Phantoms(rate, t.bufferedTs, t.wait), Held(t);
    forall i | 0 < i < |t.stamps| ensures t.stamps[i - 1].end == t.stamps[i].start {
      assert t.stamps[i] == if i < |p| then p[i] else h[i - |p|];
      assert t.stamps[i - 1] == if i - 1 < |p| then p[i - 1] else h[i - 1 - |p|];
    }
  }

  /** When the windows that come in follow on one another, the queue is contiguous after any
      run, phantom windows included. */
  lemma RunStaysContiguous(rate: pos, max: nat, ks: seq<Tick>)
    requires Contiguous(Windows(ks))
    ensures Contiguous(Run(rate, max, Fresh, ks).0.stamps)
  {
    FromTheBeginning(rate, max, ks);
    var (u, outs) := Run(rate, max, Fresh, ks);
    SuffixContiguous(Windows(ks), |outs|);
    QueueContiguous(rate, max, u);
  }

  lemma SuffixContiguous(ws: seq<Window>, n: nat)
    requires n <= |ws| && Contiguous(ws)
    ensures Contiguous(ws[n..])
  {
  }

  // ----- How far back buffering reaches -----

  /** Lowering by whole ticks against a floored lag: x is the time the phantoms already
      reach back, y the time they reach back after buffering. */
  lemma ReachArithmetic(rate: pos, w: nat, n: nat, lag: nat, ticks: nat, x: nat, y: nat)
    requires n == NsToFrames(rate, lag) && n <= ticks * OutputFrames
    requires x == FramesToNs(rate, w) && y == FramesToNs(rate, w + ticks * OutputFrames)
    ensures (x + lag - y) * rate < Second + rate
  {
    FloorBounds(lag * rate, Second);
    FloorBounds(w * Second, rate);
    FloorBounds((w + ticks * OutputFrames) * Second, rate);
    assert (x + lag - y) * rate == x * rate + lag * rate - y * rate;
    assert n * Second <= ticks * OutputFrames * Second;
    assert (w + ticks * OutputFrames) * Second == w * Second + ticks * OutputFrames * Second;
  }

  /** After buffering that was not clipped, the new window starts less than one sample period
      and one nanosecond after the lagging source's time. (A lag below one sample adds no
      tick, and then it is the lag itself that is below one period.) */
  lemma BufferingReachesBack(rate: pos, max: nat, t: Timing, minTs: int, unset: int)
    requires Queued(rate, t) && Held(t) != [] && t.stamps != [] && minTs < t.stamps[0].start
    requires t.total + Ticks(rate, t.stamps[0].start - minTs) <= max && t.total < max
    ensures var (u, ts) := AddBuffering(rate, max, t, t.stamps[0], minTs, unset);
            && u.total == t.total + Ticks(rate, t.stamps[0].start - minTs)
            && (ts.start - minTs) * rate < Second + rate
  {
    FrontOfQueue(rate, t);
    NormalBase(rate, t, t.total);
    var lag := t.stamps[0].start - minTs;
    var n, ticks := NsToFrames(rate, lag), Ticks(rate, lag);
    var w := t.wait * OutputFrames;
    ReachArithmetic(rate, w, n, lag, ticks, FramesToNs(rate, w), FramesToNs(rate, w + ticks * OutputFrames));
    assert (t.wait + ticks) * OutputFrames == w + ticks * OutputFrames;
  }

  /** How far a source is behind the front window, in whole samples: what buffering adds is the
      least number of ticks that reaches back that far. */
  lemma TicksReach(rate: pos, lag: nat)
    ensures lag * rate < Ticks(rate, lag) * OutputFrames * Second + Second
    ensures Ticks(rate, lag) > 0 <==> Second <= lag * rate
    ensures Ticks(rate, lag) > 0 ==> (Ticks(rate, lag) - 1) * OutputFrames * Second + Second <= lag * rate
  {
    var n, ticks := NsToFrames(rate, lag), Ticks(rate, lag);
    FloorBounds(lag * rate, Second);
    assert (ticks - 1) * OutputFrames < n <= ticks * OutputFrames;
    if ticks > 0 {
      assert (ticks - 1) * OutputFrames + 1 <= n;
      assert ((ticks - 1) * OutputFrames + 1) * Second <= n * Second;
    }
  }

  /** The start of the window in front of the queue when a callback has queued its own. */
  function FrontStart(t: Timing, k: Tick): int {
    (t.stamps + [k.window])[0].start
  }

  /** A source at least one sample behind the front window, with buffering neither fixed nor at
      its maximum. */
  predicate Lags(rate: pos, max: nat, t: Timing, k: Tick) {
    !k.fixed && t.total < max && Second <= (FrontStart(t, k) - k.sources) * rate
  }

  /** What a callback adds to the buffering: nothing, unless a source lags or buffering is
      fixed; then as many ticks as the source needs and no more, up to the maximum, or all
      there can be. It gives out a time exactly when it adds nothing and waits for nothing. */
  lemma CallbackBuffers(rate: pos, max: nat, t: Timing, k: Tick)
    requires Inv(rate, max, t)
    ensures var o, lag := Callback(rate, max, t, k), FrontStart(t, k) - k.sources;
            var added := o.timing.total - t.total;
            && (k.fixed ==> o.timing.total == max)
            && (Lags(rate, max, t, k) ==>
                  && added > 0 && ((added - 1) * OutputFrames + 1) * Second <= lag * rate
                  && (o.timing.total < max ==> lag * rate < (added * OutputFrames + 1) * Second))
            && (!k.fixed && !Lags(rate, max, t, k) ==> added == 0)
            && (o.emits <==> added == 0 && t.wait == 0)
            && o.timing.wait == (if o.emits then 0 else t.wait + added - 1)
  {
    var t1 := t.(stamps := t.stamps + [k.window]);
    var front := t1.stamps[0];
    if k.fixed {
      FixedAdds(rate, max, t1, k);
    } else if k.sources < front.start {
      SourceAdds(rate, max, t1, k);
      TicksReach(rate, front.start - k.sources);
    } else {
      MulSign(front.start - k.sources, rate);
    }
  }

  lemma FixedAdds(rate: pos, max: nat, t: Timing, k: Tick)
    requires t.total <= max && t.stamps != [] && k.fixed
    ensures var u := Buffer(rate, max, t, k).0; u.total == max && u.wait == t.wait + max - t.total
  {
    AddedAdds(rate, max, t, t.stamps[0], max - t.total, k.unset);
  }

  lemma SourceAdds(rate: pos, max: nat, t: Timing, k: Tick)
    requires t.total <= max && t.stamps != [] && !k.fixed && k.sources < t.stamps[0].start
    ensures var u, n := Buffer(rate, max, t, k).0, AddedTicks(rate, max, t.total, t.stamps[0].start - k.sources);
            u.total == t.total + n && u.wait == t.wait + n
  {
    AddedAdds(rate, max, t, t.stamps[0], AddedTicks(rate, max, t.total, t.stamps[0].start - k.sources), k.unset);
  }

  lemma AddedAdds(rate: pos, max: nat, t: Timing, ts: Window, ticks: nat, unset: int)
    ensures var u := Extend(rate, t, ts, ticks, unset).0; u.total == t.total + ticks && u.wait == t.wait + ticks
  {
    PushAdds(rate, t.(total := t.total + ticks, bufferedTs := if t.wait == 0 then ts.start else t.bufferedTs), ticks);
  }

  lemma {:induction false} PushAdds(rate: pos, t: Timing, ticks: nat)
    ensures PushTicks(rate, t, ticks).wait == t.wait + ticks
    decreases ticks
  {
    if ticks > 0 {
      PushAdds(rate, t.(wait := t.wait + 1, stamps := [Phantom(rate, t.bufferedTs, t.wait + 1)] + t.stamps), ticks - 1);
    }
  }

  /** The time a callback comes to is less than one sample period and one nanosecond past
      every source, unless buffering is fixed or at its maximum. */
  lemma CallbackReachesBack(rate: pos, max: nat, t: Timing, k: Tick)
    requires Inv(rate, max, t) && !k.fixed && Callback(rate, max, t, k).timing.total < max
    ensures (Callback(rate, max, t, k).ts.start - k.sources) * rate < Second + rate
  {
    PushBackKeepsQueue(rate, t, k.window);
    var t1 := t.(stamps := t.stamps + [k.window]);
    var front := t1.stamps[0];
    if k.sources < front.start {
      assert t.total + Ticks(rate, front.start - k.sources) <= max;
      BufferingReachesBack(rate, max, t1, k.sources, k.unset);
    } else {
      MulSign(front.start - k.sources, rate);
    }
  }

  /** The n-th callback of a run. */
  function CallbackOf(rate: pos, max: nat, ks: seq<Tick>, n: nat): Outcome
    requires n < |ks|
  {
    Callback(rate, max, Run(rate, max, Fresh, ks[..n]).0, ks[n])
  }

  /** Over any run from the beginning: a callback that gives out a time has no source a sample
      period and one nanosecond or more behind that time, unless buffering is fixed or at its
      maximum; and one with a source that far behind the front window gives out none. */
  lemma NoSourceLeftBehind(rate: pos, max: nat, ks: seq<Tick>, n: nat)
    requires n < |ks| && !ks[n].fixed
    ensures var o := CallbackOf(rate, max, ks, n);
            o.emits && o.timing.total < max ==> (o.ts.start - ks[n].sources) * rate < Second + rate
    ensures var t := Run(rate, max, Fresh, ks[..n]).0;
            Lags(rate, max, t, ks[n]) ==> !CallbackOf(rate, max, ks, n).emits
  {
    FromTheBeginning(rate, max, ks[..n]);
    var t := Run(rate, max, Fresh, ks[..n]).0;
    CallbackBuffers(rate, max, t, ks[n]);
    if CallbackOf(rate, max, ks, n).timing.total < max {
      CallbackReachesBack(rate, max, t, ks[n]);
    }
  }

  lemma EndOfNewWindow(rate: pos, max: nat, t: Timing, minTs: int, a: int, b: int)
    requires t.stamps != [] && minTs < t.stamps[0].start && t.total < max
    ensures var ts := t.stamps[0];
            AddBuffering(rate, max, t, ts, minTs, a).1 == AddBuffering(rate, max, t, ts, minTs, b).1
            <==> AddedTicks(rate, max, t.total, ts.start - minTs) > 0 || a == b
  {
    var ts := t.stamps[0];
    var ticks := AddedTicks(rate, max, t.total, ts.start - minTs);
    assert AddBuffering(rate, max, t, ts, minTs, a) == Extend(rate, t, ts, ticks, a);
    assert AddBuffering(rate, max, t, ts, minTs, b) == Extend(rate, t, ts, ticks, b);
  }

  /** The end of the window given out is a set value, whatever the uninitialised one was,
      exactly when the lag is at least one sample. */
  lemma WindowEndSetIff(rate: pos, max: nat, t: Timing, minTs: int, a: int, b: int)
    requires t.stamps != [] && minTs < t.stamps[0].start && t.total < max && a != b
    ensures AddBuffering(rate, max, t, t.stamps[0], minTs, a).1 == AddBuffering(rate, max, t, t.stamps[0], minTs, b).1
            <==> Second <= (t.stamps[0].start - minTs) * rate
  {
    var lag := t.stamps[0].start - minTs;
    FloorBounds(lag * rate, Second);
    assert Ticks(rate, lag) > 0 <==> NsToFrames(rate, lag) > 0;
    EndOfNewWindow(rate, max, t, minTs, a, b);
  }
}

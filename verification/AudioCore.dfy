/** The same queue as libobs/obs-audio.c works it, loop by loop, and the sources it serves:
    dropping the audio of a source that lags, mixing, and discarding what was mixed. */
module AudioCore {
  import opened AudioTicks
  import opened Basics

  class AudioCore {
    const rate: pos
    const max: nat
    var total: nat
    var wait: nat
    var bufferedTs: int
    var stamps: seq<Window>

    function View(): Timing
      reads this
    {
      Timing(total, wait, bufferedTs, stamps)
    }

    ghost predicate Valid()
      reads this
    {
      Inv(rate, max, View())
    }

    constructor (rate: pos, max: nat)
      ensures this.rate == rate && this.max == max && View() == Fresh && Valid()
    {
      this.rate, this.max := rate, max;
      total, wait, bufferedTs, stamps := 0, 0, 0, [];
      new;
      assert Held(Fresh) == [];
    }

    /** The loop that ends both buffering functions. */
    method PushPhantoms(n: nat, unset: int) returns (newTs: Window)
      modifies this`wait, this`stamps
      ensures View() == PushTicks(rate, old(View()), n)
      ensures newTs == NewWindow(rate, bufferedTs, old(wait), n, unset)
    {
      newTs := Window(bufferedTs - FramesToNs(rate, wait * OutputFrames), unset);
      var ticks := n;
      while ticks > 0
        invariant 0 <= ticks <= n && wait == old(wait) + (n - ticks)
        invariant PushTicks(rate, View(), ticks) == PushTicks(rate, old(View()), n)
        invariant newTs == NewWindow(rate, bufferedTs, old(wait), n - ticks, unset)
      {
        ticks := ticks - 1;
        wait := wait + 1;
        newTs := Window(bufferedTs - FramesToNs(rate, wait * OutputFrames), newTs.start);
        stamps := [newTs] + stamps;
      }
    }

    method SetFixedAudioBuffering(ts: Window, unset: int) returns (newTs: Window)
      requires total <= max
      modifies this
      ensures (View(), newTs) == SetFixed(rate, max, old(View()), ts, unset)
    {
      if total == max {
        return ts;
      }
      if wait == 0 {
        bufferedTs := ts.start;
      }
      var ticks := max - total;
      total := total + ticks;
      newTs := PushPhantoms(ticks, unset);
    }

    method AddAudioBuffering(ts: Window, minTs: int, unset: int) returns (newTs: Window)
      requires total <= max && minTs <= ts.start
      modifies this
      ensures (View(), newTs) == AddBuffering(rate, max, old(View()), ts, minTs, unset)
    {
      if total == max {
        return ts;
      }
      if wait == 0 {
        bufferedTs := ts.start;
      }
      var offset := ts.start - minTs;
      var frames := NsToFrames(rate, offset);
      var ticks := (frames + OutputFrames - 1) / OutputFrames;
      total := total + ticks;
      if total >= max {
        ticks := ticks - (total - max);
        total := max;
      }
      newTs := PushPhantoms(ticks, unset);
    }

    method BufferFor(k: Tick) returns (ts: Window)
      requires total <= max && stamps != []
      modifies this
      ensures (View(), ts) == Buffer(rate, max, old(View()), k)
    {
      ts := stamps[0];
      var minTs := if k.sources < ts.start then k.sources else ts.start;
      if k.fixed {
        if total != max {
          ts := SetFixedAudioBuffering(ts, k.unset);
        }
      } else if minTs < ts.start {
        ts := AddAudioBuffering(ts, minTs, k.unset);
      }
    }

    method QueueAndBuffer(k: Tick) returns (outTs: int, emits: bool)
      requires total <= max
      modifies this
      ensures var o := Callback(rate, max, old(View()), k);
              View() == o.timing && outTs == o.ts.start && emits == o.emits
    {
      stamps := stamps + [k.window];
      var ts := BufferFor(k);
      stamps := stamps[1..];
      outTs, emits := ts.start, wait == 0;
      if wait > 0 {
        wait := wait - 1;
      }
    }

    /** The timestamp part of audio_callback; a true result is a tick that mixes. */
    method AudioCallback(k: Tick) returns (outTs: int, emits: bool)
      requires Valid()
      modifies this
      ensures var o := Callback(rate, max, old(View()), k);
              View() == o.timing && outTs == o.ts.start && emits == o.emits
      ensures Valid()
      ensures var held := old(Held(View())) + [k.window];
              if emits then outTs == held[0].start && Held(View()) == held[1..] else Held(View()) == held
      ensures k.fixed ==> total == max
      ensures Lags(rate, max, old(View()), k) ==> old(total) < total && !emits
      ensures !k.fixed && !Lags(rate, max, old(View()), k) ==> total == old(total)
      ensures emits <==> total == old(total) && old(wait) == 0
      ensures !k.fixed && total < max ==> (outTs - k.sources) * rate < Second + rate
    {
      CallbackKeepsInv(rate, max, View(), k);
      CallbackBuffers(rate, max, View(), k);
      if !k.fixed && Callback(rate, max, View(), k).timing.total < max {
        CallbackReachesBack(rate, max, View(), k);
      }
      outTs, emits := QueueAndBuffer(k);
    }
  }

  // ----- A source that lags -----

  /** How many samples ignore_audio drops: the lag, rounded up. */
  function DropFor(rate: pos, lag: pos): pos {
    NsToFrames(rate, lag - 1) + 1
  }

  lemma DropArithmetic(rate: pos, lag: int, d: int, y: int)
    requires (d - 1) * Second <= (lag - 1) * rate < d * Second
    requires y * rate <= d * Second < y * rate + rate
    ensures lag - 1 <= y && (y - lag) * rate < Second
  {
    Distribute(lag, -1, rate);
    Distribute(y, -lag, rate);
    MulSign(lag - 1 - y - 1, rate);
    MulSign(y + 1 - (lag - 1), rate);
    Distribute(y + 1, -(lag - 1), rate);
    Distribute(y, 1, rate);
  }

  /** Dropping that many brings the source to at most one nanosecond before the start time,
      and less than one sample period past it. */
  lemma DropReaches(rate: pos, lag: pos)
    ensures lag - 1 <= FramesToNs(rate, DropFor(rate, lag))
    ensures (FramesToNs(rate, DropFor(rate, lag)) - lag) * rate < Second
  {
    var d := DropFor(rate, lag);
    FloorBounds((lag - 1) * rate, Second);
    FloorBounds(d * Second, rate);
    DropArithmetic(rate, lag, d, FramesToNs(rate, d));
  }

  class AudioSource {
    var audioTs: nat
    var samples: seq<real>
    var pending: bool
    var timingSet: bool
    var lastInputSize: nat
    var pendingStop: bool

    /** Called when the source is behind the start time and no more buffering is possible. */
    method IgnoreAudio(rate: pos, startTs: nat) returns (rerender: bool)
      requires audioTs < startTs
      modifies this
      ensures old(audioTs) != 0 && old(samples) != [] ==>
                var drop := DropFor(rate, startTs - old(audioTs));
                var n := if drop > |old(samples)| then |old(samples)| else drop;
                && samples == old(samples)[n..] && lastInputSize == 0
                && (rerender <==> startTs - 1 <= old(audioTs) + FramesToNs(rate, n))
                && (drop <= |old(samples)| ==> rerender)
      ensures rerender ==> old(audioTs) != 0 && old(samples) != []
                           && 0 <= audioTs - startTs && (audioTs - startTs) * rate < Second
                           && pending == old(pending) && timingSet == old(timingSet)
      ensures !rerender ==> if old(audioTs) == 0 && old(samples) != [] then samples == [] && pending == old(pending)
                            else audioTs == 0 && pending && !timingSet
      ensures pendingStop == old(pendingStop)
    {
      var n := |samples|;
      if audioTs == 0 && n > 0 {
        samples := [];
        lastInputSize := 0;
        return false;
      }
      if n > 0 {
        var lag: pos := startTs - audioTs;
        var drop := DropFor(rate, lag);
        DropReaches(rate, lag);
        DropMonotone(rate, if drop > n then n else drop, drop);
        if drop > n {
          drop := n;
        }
        samples := samples[drop..];
        lastInputSize := 0;
        audioTs := audioTs + FramesToNs(rate, drop);
        assert (audioTs - startTs) * rate < Second;
        if audioTs == startTs - 1 {
          audioTs := startTs;
        }
        if audioTs >= startTs {
          return true;
        }
      }
      pending := true;
      audioTs := 0;
      timingSet := false;
      rerender := false;
    }

    /** discard_if_stopped: true when the leftover is as long as when it was last seen, and the
        flag is up that an earlier such sight has put up; its length may have changed since. */
    method DiscardIfStopped() returns (stopped: bool)
      modifies this
      ensures stopped <==> old(samples) != [] && old(lastInputSize) == |old(samples)| && old(pendingStop)
      ensures stopped ==> samples == [] && audioTs == 0 && lastInputSize == 0 && !pendingStop
      ensures !stopped ==> samples == old(samples) && audioTs == old(audioTs)
      ensures !stopped && samples != [] ==> lastInputSize == |samples|
                                            && pendingStop == (old(pendingStop) || old(lastInputSize) == |samples|)
      ensures pending == old(pending) && timingSet == old(timingSet)
    {
      if samples == [] {
        return false;
      }
      if lastInputSize == |samples| {
        if !pendingStop {
          pendingStop := true;
          return false;
        }
        samples := [];
        pendingStop := false;
        audioTs := 0;
        lastInputSize := 0;
        return true;
      }
      lastInputSize := |samples|;
      stopped := false;
    }
  }

  lemma DropMonotone(rate: pos, a: nat, b: nat)
    requires a <= b
    ensures FramesToNs(rate, a) <= FramesToNs(rate, b)
    ensures FramesToNs(rate, a) * rate <= FramesToNs(rate, b) * rate
  {
    FloorMonotone(a * Second, b * Second, rate);
  }

  // ----- Mixing -----

  /** n samples and one tick more, as nanoseconds, less n samples. */
  function TickLength(rate: pos, n: nat): int {
    FramesToNs(rate, n + OutputFrames) - FramesToNs(rate, n)
  }

  /** A window cut from the sample clock: both ends are whole numbers of samples from one
      base, rounded down. Real windows count up from it, phantom windows count down. */
  ghost predicate OnClock(rate: pos, w: Window) {
    exists n: nat :: w.end - w.start == TickLength(rate, n)
  }

  /** If the held windows are on the clock, so is every window in the queue. */
  lemma QueueOnClock(rate: pos, max: nat, t: Timing, i: nat)
    requires Inv(rate, max, t) && (forall w <- Held(t) :: OnClock(rate, w)) && i < |t.stamps|
    ensures OnClock(rate, t.stamps[i])
  {
    PhantomsLength(rate, t.bufferedTs, t.wait);
    if i < t.wait {
      PhantomAt(rate, t.bufferedTs, t.wait, i);
      PhantomOnClock(rate, t.bufferedTs, t.wait - i);
    } else {
      assert t.stamps[i] == Held(t)[i - t.wait];
    }
  }

  /** If the windows that come in are on the clock, so is every window in the queue after any
      run. */
  lemma RunStaysOnClock(rate: pos, max: nat, ks: seq<Tick>, i: nat)
    requires (forall w <- Windows(ks) :: OnClock(rate, w)) && i < |Run(rate, max, Fresh, ks).0.stamps|
    ensures OnClock(rate, Run(rate, max, Fresh, ks).0.stamps[i])
  {
    FromTheBeginning(rate, max, ks);
    var (u, outs) := Run(rate, max, Fresh, ks);
    forall w <- Held(u) ensures OnClock(rate, w) {
      assert w in Windows(ks);
    }
    QueueOnClock(rate, max, u, i);
  }

  lemma {:induction false} PhantomAt(rate: pos, base: int, n: nat, i: nat)
    requires i < n
    ensures |Phantoms(rate, base, n)| == n && Phantoms(rate, base, n)[i] == Phantom(rate, base, n - i)
  {
    PhantomsLength(rate, base, n);
    if i > 0 {
      PhantomAt(rate, base, n - 1, i - 1);
    }
  }

  lemma PhantomOnClock(rate: pos, base: int, k: nat)
    requires k > 0
    ensures OnClock(rate, Phantom(rate, base, k))
  {
    var n := (k - 1) * OutputFrames;
    assert n + OutputFrames == k * OutputFrames;
    assert Phantom(rate, base, k).end - Phantom(rate, base, k).start == TickLength(rate, n);
  }

  lemma WindowLength(rate: pos, n: nat)
    ensures (TickLength(rate, n) - 1) * rate < OutputFrames * Second
  {
    var x, y := FramesToNs(rate, n), FramesToNs(rate, n + OutputFrames);
    FloorBounds(n * Second, rate);
    FloorBounds((n + OutputFrames) * Second, rate);
    assert (n + OutputFrames) * Second == n * Second + OutputFrames * Second;
    assert (y - x - 1) * rate == y * rate - x * rate - rate;
  }

  /** A source time inside a window never points past the mix buffer: the frame offset is
      below 1024, so the source's test for exactly 1024 cannot even fire. */
  lemma StartPointInBuffer(rate: pos, w: Window, ts: int)
    requires OnClock(rate, w) && w.start <= ts < w.end
    ensures NsToFrames(rate, ts - w.start) < OutputFrames
  {
    var n: nat :| w.end - w.start == TickLength(rate, n);
    WindowLength(rate, n);
    SamplesBelow(rate, ts - w.start, w.end - w.start - 1);
  }

  lemma SamplesBelow(rate: pos, d: nat, e: nat)
    requires d <= e && e * rate < OutputFrames * Second
    ensures NsToFrames(rate, d) < OutputFrames
  {
    assert d * rate <= e * rate;
    FloorBounds(d * rate, Second);
  }

  /** mix_audio, for one channel of one mix: the source's buffer is added from the frame its
      time points at. A time past the buffer would make the source's count of frames wrap
      around; on clock windows StartPointInBuffer rules it out. */
  method MixAudio(mix: array<real>, aud: array<real>, rate: pos, w: Window, audioTs: int)
    requires mix.Length == aud.Length == OutputFrames && mix != aud
    requires w.start <= audioTs < w.end ==> NsToFrames(rate, audioTs - w.start) <= OutputFrames
    modifies mix
    ensures forall i :: 0 <= i < OutputFrames ==>
              mix[i] == old(mix[i]) + (if w.start <= audioTs < w.end && NsToFrames(rate, audioTs - w.start) <= i
                                       then aud[i - NsToFrames(rate, audioTs - w.start)] else 0.0)
  {
    if audioTs < w.start || w.end <= audioTs {
      return;
    }
    var startPoint, totalFloats := 0, OutputFrames;
    if audioTs != w.start {
      startPoint := NsToFrames(rate, audioTs - w.start);
      if startPoint == OutputFrames {
        return;
      }
      totalFloats := totalFloats - startPoint;
    }
    for a := 0 to totalFloats
      invariant forall i :: 0 <= i < OutputFrames ==>
                  mix[i] == old(mix[i]) + (if startPoint <= i < startPoint + a then aud[i - startPoint] else 0.0)
    {
      mix[startPoint + a] := mix[startPoint + a] + aud[a];
    }
  }
}

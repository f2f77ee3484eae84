/** The strong and weak reference protocol of libobs/obs-internal.h as the encoders use it
    (libobs/obs-encoder.c), for any number of threads. Every atomic read, increment,
    decrement and compare-exchange is one step, and steps of different threads interleave
    freely. */
module WeakRef {

  /** Where a thread stands inside a library call. */
  datatype Pc =
    | Idle
    | Loaded(owners: int)   // in obs_weak_ref_get_ref, about to compare and exchange
    | Destroying            // in obs_encoder_release, about to destroy the object
    | DroppingControl       // the same, about to release the control block
    | Freeing               // in obs_weak_encoder_release, about to free the control block

  /** A thread and the handles it owns. */
  datatype Thread = Thread(strong: nat, weak: nat, pc: Pc)

  /** The counters, which start at zero for one owner, and how often the object has been
      destroyed, its share of the control block released, and the control block freed. */
  datatype State = State(refs: int, weakRefs: int, threads: seq<Thread>, destroyed: nat, dropped: nat, freed: nat)

  datatype Op =
    | AddRef | Release | Destroy | DropControl | Free
    | WeakAddRef | WeakRelease
    | Load | CompareExchange
    | HandStrong(to: nat) | HandWeak(to: nat)

  /** Callers own what they release, and hold some handle on what they touch. */
  predicate Enabled(s: State, t: nat, op: Op) {
    t < |s.threads| &&
    var th := s.threads[t];
    match op
    case AddRef => th.pc.Idle? && th.strong > 0
    case Release => th.pc.Idle? && th.strong > 0
    case Destroy => th.pc.Destroying?
    case DropControl => th.pc.DroppingControl?
    case Free => th.pc.Freeing?
    case WeakAddRef => th.pc.Idle? && th.strong + th.weak > 0
    case WeakRelease => th.pc.Idle? && th.weak > 0
    case Load => th.pc.Idle? && th.strong + th.weak > 0
    case CompareExchange => th.pc.Loaded?
    case HandStrong(to) => th.pc.Idle? && th.strong > 0 && to < |s.threads| && to != t
    case HandWeak(to) => th.pc.Idle? && th.weak > 0 && to < |s.threads| && to != t
  }

  /** The loop of obs_weak_ref_get_ref goes on while the count it saw is not negative. */
  function Seen(refs: int): Pc {
    if refs > -1 then Loaded(refs) else Idle
  }

  function Apply(s: State, t: nat, op: Op): State
    requires Enabled(s, t, op)
  {
    var th := s.threads[t];
    match op
    case AddRef => s.(refs := s.refs + 1, threads := s.threads[t := th.(strong := th.strong + 1)])
    case Release =>
      var refs := s.refs - 1;
      s.(refs := refs,
         threads := s.threads[t := th.(strong := th.strong - 1, pc := if refs == -1 then Destroying else Idle)])
    case Destroy => s.(destroyed := s.destroyed + 1, threads := s.threads[t := th.(pc := DroppingControl)])
    case DropControl =>
      var weakRefs := s.weakRefs - 1;
      s.(weakRefs := weakRefs, dropped := s.dropped + 1,
         threads := s.threads[t := th.(pc := if weakRefs == -1 then Freeing else Idle)])
    case Free => s.(freed := s.freed + 1, threads := s.threads[t := th.(pc := Idle)])
    case WeakAddRef => s.(weakRefs := s.weakRefs + 1, threads := s.threads[t := th.(weak := th.weak + 1)])
    case WeakRelease =>
      var weakRefs := s.weakRefs - 1;
      s.(weakRefs := weakRefs,
         threads := s.threads[t := th.(weak := th.weak - 1, pc := if weakRefs == -1 then Freeing else Idle)])
    case Load => s.(threads := s.threads[t := th.(pc := Seen(s.refs))])
    case CompareExchange =>
      if s.refs == th.pc.owners then
        s.(refs := s.refs + 1, threads := s.threads[t := th.(strong := th.strong + 1, pc := Idle)])
      else s.(threads := s.threads[t := th.(pc := Seen(s.refs))])
    case HandStrong(to) =>
      var u := s.threads[to];
      s.(threads := s.threads[t := th.(strong := th.strong - 1)][to := u.(strong := u.strong + 1)])
    case HandWeak(to) =>
      var u := s.threads[to];
      s.(threads := s.threads[t := th.(weak := th.weak - 1)][to := u.(weak := u.weak + 1)])
  }

  // ----- Sums over threads -----

  datatype Measure = Strong | Weak | AtDestroying | AtDropping | AtFreeing {
    function Of(th: Thread): nat {
      match this
      case Strong => th.strong
      case Weak => th.weak
      case AtDestroying => if th.pc.Destroying? then 1 else 0
      case AtDropping => if th.pc.DroppingControl? then 1 else 0
      case AtFreeing => if th.pc.Freeing? then 1 else 0
    }
  }

  function Sum(m: Measure, ts: seq<Thread>): nat {
    if ts == [] then 0 else m.Of(ts[0]) + Sum(m, ts[1..])
  }

  lemma {:induction false} SumUpdate(m: Measure, ts: seq<Thread>, i: nat, th: Thread)
    requires i < |ts|
    ensures Sum(m, ts[i := th]) == Sum(m, ts) - m.Of(ts[i]) + m.Of(th)
    ensures m.Of(ts[i]) <= Sum(m, ts)
  {
    if i > 0 {
      SumUpdate(m, ts[1..], i - 1, th);
      assert ts[i := th][1..] == ts[1..][i - 1 := th];
    } else {
      assert ts[0 := th][1..] == ts[1..];
    }
  }

  lemma {:induction false} SumZero(m: Measure, ts: seq<Thread>)
    requires Sum(m, ts) == 0
    ensures forall th <- ts :: m.Of(th) == 0
  {
    if ts != [] {
      SumZero(m, ts[1..]);
    }
  }

  // ----- The invariant -----

  ghost predicate Inv(s: State) {
    Counted(s) && Looking(s.threads)
  }

  ghost predicate Counted(s: State) {
    // The counters count handles; the object's share of the control block is one of the weak ones.
    && s.refs + 1 == Sum(Strong, s.threads)
    && s.weakRefs + s.dropped == Sum(Weak, s.threads)
    // The last strong release sends exactly one thread through destroy, drop and so on.
    && Sum(AtDestroying, s.threads) + s.destroyed == (if s.refs == -1 then 1 else 0)
    && Sum(AtDropping, s.threads) + s.dropped == s.destroyed
    // The last weak release sends exactly one thread to free.
    && Sum(AtFreeing, s.threads) + s.freed == (if s.weakRefs == -1 then 1 else 0)
  }

  /** A thread that looks at the count holds a handle meanwhile, and saw an owner. */
  ghost predicate Looking(ts: seq<Thread>) {
    forall th <- ts :: th.pc.Loaded? ==> th.pc.owners > -1 && th.strong + th.weak > 0
  }

  function NoOwners(n: nat): (ts: seq<Thread>)
    ensures |ts| == n && forall th <- ts :: th == Thread(0, 0, Idle)
  {
    seq(n, _ => Thread(0, 0, Idle))
  }

  /** A new object among n threads, owned by one of them. */
  function Init(n: nat, owner: nat): State
    requires owner < n
  {
    State(0, 0, NoOwners(n)[owner := Thread(1, 0, Idle)], 0, 0, 0)
  }

  lemma {:induction false} SumOfNothing(m: Measure, ts: seq<Thread>)
    requires forall th <- ts :: th == Thread(0, 0, Idle)
    ensures Sum(m, ts) == 0
  {
    if ts != [] {
      assert ts[0] in ts && forall th <- ts[1..] :: th in ts;
      SumOfNothing(m, ts[1..]);
    }
  }

  lemma InitInv(n: nat, owner: nat)
    requires owner < n
    ensures Inv(Init(n, owner))
  {
    var ts := NoOwners(n);
    forall m: Measure ensures Sum(m, Init(n, owner).threads) == m.Of(Thread(1, 0, Idle)) {
      SumOfNothing(m, ts);
      SumUpdate(m, ts, owner, Thread(1, 0, Idle));
    }
  }

  /** What a step of one thread does to every sum. */
  lemma SumsOfStep(ts: seq<Thread>, t: nat, th: Thread)
    requires t < |ts|
    ensures Sum(Strong, ts[t := th]) == Sum(Strong, ts) - Strong.Of(ts[t]) + Strong.Of(th)
    ensures Sum(Weak, ts[t := th]) == Sum(Weak, ts) - Weak.Of(ts[t]) + Weak.Of(th)
    ensures Sum(AtDestroying, ts[t := th]) == Sum(AtDestroying, ts) - AtDestroying.Of(ts[t]) + AtDestroying.Of(th)
    ensures Sum(AtDropping, ts[t := th]) == Sum(AtDropping, ts) - AtDropping.Of(ts[t]) + AtDropping.Of(th)
    ensures Sum(AtFreeing, ts[t := th]) == Sum(AtFreeing, ts) - AtFreeing.Of(ts[t]) + AtFreeing.Of(th)
    ensures Strong.Of(ts[t]) <= Sum(Strong, ts) && Weak.Of(ts[t]) <= Sum(Weak, ts)
    ensures AtDestroying.Of(ts[t]) <= Sum(AtDestroying, ts) && AtDropping.Of(ts[t]) <= Sum(AtDropping, ts)
    ensures AtFreeing.Of(ts[t]) <= Sum(AtFreeing, ts)
  {
    SumUpdate(Strong, ts, t, th);
    SumUpdate(Weak, ts, t, th);
    SumUpdate(AtDestroying, ts, t, th);
    SumUpdate(AtDropping, ts, t, th);
    SumUpdate(AtFreeing, ts, t, th);
  }

  lemma StepKeepsLooking(s: State, t: nat, op: Op)
    requires Inv(s) && Enabled(s, t, op)
    ensures Looking(Apply(s, t, op).threads)
  {
    var ts := Apply(s, t, op).threads;
    forall i | 0 <= i < |ts| && ts[i].pc.Loaded? ensures ts[i].pc.owners > -1 && ts[i].strong + ts[i].weak > 0 {
      assert s.threads[i] in s.threads;
    }
  }

  lemma StepKeepsInv(s: State, t: nat, op: Op)
    requires Inv(s) && Enabled(s, t, op)
    ensures Inv(Apply(s, t, op))
  {
    StepKeepsLooking(s, t, op);
    if op.HandStrong? || op.HandWeak? {
      HandKeepsCounts(s, t, op);
    } else {
      StepKeepsCounts(s, t, op);
    }
  }

  /** Counting needs only the sums: a step that changes one thread changes them by what it
      changes in that thread. */
  ghost predicate CountedBy(s: State, strong: int, weak: int, destroying: int, dropping: int, freeing: int) {
    && s.refs + 1 == strong && s.weakRefs + s.dropped == weak
    && destroying + s.destroyed == (if s.refs == -1 then 1 else 0)
    && dropping + s.dropped == s.destroyed
    && freeing + s.freed == (if s.weakRefs == -1 then 1 else 0)
  }

  lemma StepCounts(s: State, t: nat, op: Op, strong: nat, weak: nat, destroying: nat, dropping: nat,
                   freeing: nat)
    requires Enabled(s, t, op) && !op.HandStrong? && !op.HandWeak?
    requires CountedBy(s, strong, weak, destroying, dropping, freeing)
    requires var th := s.threads[t];
             && Strong.Of(th) <= strong && Weak.Of(th) <= weak && AtDestroying.Of(th) <= destroying
             && AtDropping.Of(th) <= dropping && AtFreeing.Of(th) <= freeing
             && (th.pc.Loaded? ==> th.pc.owners > -1 && th.strong + th.weak > 0)
    ensures var s', th := Apply(s, t, op), s.threads[t];
            var th' := s'.threads[t];
            CountedBy(s', strong - Strong.Of(th) + Strong.Of(th'), weak - Weak.Of(th) + Weak.Of(th'),
                      destroying - AtDestroying.Of(th) + AtDestroying.Of(th'),
                      dropping - AtDropping.Of(th) + AtDropping.Of(th'), freeing - AtFreeing.Of(th) + AtFreeing.Of(th'))
  {
  }

  lemma StepKeepsCounts(s: State, t: nat, op: Op)
    requires Inv(s) && Enabled(s, t, op) && !op.HandStrong? && !op.HandWeak?
    ensures Counted(Apply(s, t, op))
  {
    var s', ts := Apply(s, t, op), s.threads;
    assert s'.threads == ts[t := s'.threads[t]];
    assert ts[t] in ts;
    SumsOfStep(ts, t, s'.threads[t]);
    StepCounts(s, t, op, Sum(Strong, ts), Sum(Weak, ts),
               Sum(AtDestroying, ts), Sum(AtDropping, ts), Sum(AtFreeing, ts));
  }

  /** Handing a handle over changes no sum. */
  lemma HandKeepsCounts(s: State, t: nat, op: Op)
    requires Inv(s) && Enabled(s, t, op) && (op.HandStrong? || op.HandWeak?)
    ensures Counted(Apply(s, t, op))
  {
    var s' := Apply(s, t, op);
    HandKeepsSum(s, t, op, Strong);
    HandKeepsSum(s, t, op, Weak);
    HandKeepsSum(s, t, op, AtDestroying);
    HandKeepsSum(s, t, op, AtDropping);
    HandKeepsSum(s, t, op, AtFreeing);
  }

  lemma HandKeepsSum(s: State, t: nat, op: Op, m: Measure)
    requires Enabled(s, t, op) && (op.HandStrong? || op.HandWeak?)
    ensures Sum(m, Apply(s, t, op).threads) == Sum(m, s.threads)
  {
    var ts := Apply(s, t, op).threads;
    var mid := s.threads[t := ts[t]];
    SumUpdate(m, s.threads, t, ts[t]);
    SumUpdate(m, mid, op.to, ts[op.to]);
    assert ts == mid[op.to := ts[op.to]];
  }

  // ----- Runs -----

  ghost predicate IsRun(s: State, steps: seq<(nat, Op)>, s': State)
    decreases |steps|
  {
    if steps == [] then s' == s
    else Enabled(s, steps[0].0, steps[0].1) && IsRun(Apply(s, steps[0].0, steps[0].1), steps[1..], s')
  }

  lemma {:induction false} RunKeepsInv(s: State, steps: seq<(nat, Op)>, s': State)
    requires Inv(s) && IsRun(s, steps, s')
    ensures Inv(s')
    ensures s.destroyed <= s'.destroyed && s.freed <= s'.freed
    decreases |steps|
  {
    if steps != [] {
      StepKeepsInv(s, steps[0].0, steps[0].1);
      RunKeepsInv(Apply(s, steps[0].0, steps[0].1), steps[1..], s');
    }
  }

  /** Safety under every interleaving: the counters count handles, nothing is destroyed or
      freed twice, a strong handle keeps the object and any handle keeps the control block,
      and the control block goes only after the object. */
  lemma Safety(n: nat, owner: nat, steps: seq<(nat, Op)>, s': State)
    requires owner < n && IsRun(Init(n, owner), steps, s')
    ensures s'.refs + 1 == Sum(Strong, s'.threads)
    ensures s'.destroyed <= 1 && s'.freed <= 1 && s'.freed <= s'.destroyed
    ensures forall th <- s'.threads :: th.strong > 0 ==> s'.destroyed == 0
    ensures forall th <- s'.threads :: th.strong + th.weak > 0 ==> s'.freed == 0
    ensures s'.freed == 1 ==> forall th <- s'.threads :: th == Thread(0, 0, Idle)
  {
    InitInv(n, owner);
    RunKeepsInv(Init(n, owner), steps, s');
    NoHandles(s');
  }

  lemma NoHandles(s: State)
    requires Inv(s)
    ensures s.destroyed > 0 ==> Sum(Strong, s.threads) == 0
    ensures s.freed > 0 ==> Sum(Weak, s.threads) == 0 && s.destroyed > 0
    ensures forall th <- s.threads :: th.strong > 0 ==> s.destroyed == 0
    ensures forall th <- s.threads :: th.strong + th.weak > 0 ==> s.freed == 0
    ensures s.freed > 0 ==> forall th <- s.threads :: th == Thread(0, 0, Idle)
  {
    if s.destroyed > 0 {
      SumZero(Strong, s.threads);
    }
    if s.freed > 0 {
      SumZero(Weak, s.threads);
      SumZero(Strong, s.threads);
      SumZero(AtDestroying, s.threads);
      SumZero(AtDropping, s.threads);
      SumZero(AtFreeing, s.threads);
      forall th <- s.threads ensures th == Thread(0, 0, Idle) {
        assert Strong.Of(th) == 0 && Weak.Of(th) == 0;
        assert AtDestroying.Of(th) == 0 && AtDropping.Of(th) == 0 && AtFreeing.Of(th) == 0;
      }
    }
  }

  /** No step of any thread touches the control block once it is freed: there is no step. */
  lemma NoStepAfterFree(s: State, t: nat, op: Op)
    requires Inv(s) && Enabled(s, t, op)
    ensures s.freed == 0
  {
    NoHandles(s);
    assert s.threads[t] in s.threads;
  }

  /** obs_weak_ref_get_ref cannot succeed once the last strong handle is gone. */
  lemma NoResurrection(s: State, t: nat)
    requires Inv(s) && Enabled(s, t, CompareExchange)
    requires Apply(s, t, CompareExchange).threads[t].strong > s.threads[t].strong
    ensures s.destroyed == 0 && Sum(AtDestroying, s.threads) == 0 && Sum(Strong, s.threads) > 0
  {
    assert s.threads[t] in s.threads;
  }

  /** And only then does it fail: a look at the count, or an exchange, sends the thread back
      without a handle if and only if no strong handle is left at that step. */
  lemma RefusedIffGone(s: State, t: nat, op: Op)
    requires Inv(s) && Enabled(s, t, op) && (op.Load? || op.CompareExchange?)
    ensures var th, th' := s.threads[t], Apply(s, t, op).threads[t];
            th'.pc.Idle? && th'.strong == th.strong <==> Sum(Strong, s.threads) == 0
  {
    assert s.threads[t] in s.threads;
  }

  /** Undisturbed, the call succeeds while anyone owns the object. */
  lemma UndisturbedSucceeds(s: State, t: nat)
    requires Inv(s) && Enabled(s, t, Load) && Sum(Strong, s.threads) > 0
    ensures var u := Apply(s, t, Load);
            && Enabled(u, t, CompareExchange)
            && var th := Apply(u, t, CompareExchange).threads[t];
               th.pc.Idle? && th.strong == s.threads[t].strong + 1 && th.weak == s.threads[t].weak
  {
  }

  /** None of these steps is thread t's, and none hands it anything. */
  predicate Others(t: nat, steps: seq<(nat, Op)>) {
    forall st <- steps :: st.0 != t && st.1 != HandStrong(t) && st.1 != HandWeak(t)
  }

  lemma {:induction false} OthersLeaveThread(s: State, t: nat, steps: seq<(nat, Op)>, s': State)
    requires t < |s.threads| && Others(t, steps) && IsRun(s, steps, s')
    ensures |s'.threads| == |s.threads| && s'.threads[t] == s.threads[t]
    decreases |steps|
  {
    if steps != [] {
      assert steps[0] in steps;
      assert forall st <- steps[1..] :: st in steps;
      OthersLeaveThread(Apply(s, steps[0].0, steps[0].1), t, steps[1..], s');
    }
  }

  /** Disturbed, it goes round again only when another thread has changed the count meanwhile
      and someone still owns the object: whatever the others do between the look and the
      exchange, the exchange succeeds if and only if the count is what it was. */
  lemma ExchangeSucceedsIff(s: State, t: nat, steps: seq<(nat, Op)>, s': State)
    requires Inv(s) && Enabled(s, t, Load) && Sum(Strong, s.threads) > 0
    requires Others(t, steps) && IsRun(Apply(s, t, Load), steps, s')
    ensures Enabled(s', t, CompareExchange)
    ensures var th := Apply(s', t, CompareExchange).threads[t];
            && (th.strong == s.threads[t].strong + 1 <==> Sum(Strong, s'.threads) == Sum(Strong, s.threads))
            && (th.pc.Loaded? <==> 0 < Sum(Strong, s'.threads) != Sum(Strong, s.threads))
  {
    StepKeepsInv(s, t, Load);
    RunKeepsInv(Apply(s, t, Load), steps, s');
    OthersLeaveThread(Apply(s, t, Load), t, steps, s');
  }

  /** When every thread has returned and given up its handles, the object has been destroyed
      once and the control block freed once. */
  lemma QuiescentIsFreed(n: nat, owner: nat, steps: seq<(nat, Op)>, s': State)
    requires owner < n && IsRun(Init(n, owner), steps, s')
    requires forall th <- s'.threads :: th == Thread(0, 0, Idle)
    ensures s'.destroyed == 1 && s'.freed == 1
  {
    InitInv(n, owner);
    RunKeepsInv(Init(n, owner), steps, s');
    forall m: Measure ensures Sum(m, s'.threads) == 0 {
      SumOfNothing(m, s'.threads);
    }
  }
}

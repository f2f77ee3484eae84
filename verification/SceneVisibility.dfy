/** Showing and hiding a scene item (libobs/obs-scene.c). An item with audio is shown at
    once but hidden only when the audio thread gets to the hide action, so the item counts
    what still keeps its source active. */
module SceneVisibility {
  import opened AudioTicks
  import opened Basics

  datatype Action = Action(visible: bool, timestamp: nat)

  /** `children` is how often the source has been made an active child of the scene's, less
      how often it has been removed. */
  datatype Vis = Vis(hasAudio: bool, userVisible: bool, visible: bool,
                     activeRefs: int, actions: seq<Action>, children: int)

  function Hides(actions: seq<Action>): nat {
    if actions == [] then 0 else (if actions[0].visible then 0 else 1) + Hides(actions[1..])
  }

  /** What keeps the source active: being shown, and every hide that has not been processed. */
  function Wanted(v: Vis): nat {
    (if v.userVisible then 1 else 0) + Hides(v.actions)
  }

  ghost predicate Counted(v: Vis) {
    && v.activeRefs == Wanted(v)
    && v.children == (if v.activeRefs > 0 then 1 else 0)
    && (!v.hasAudio ==> v.actions == [])
  }

  /** A new item, whose source could be made an active child. */
  function Added(hasAudio: bool, now: nat): Vis {
    Vis(hasAudio, true, !hasAudio, 1, if hasAudio then [Action(true, now)] else [], 1)
  }

  /** set_visibility, which does not look at whether the source could be added. */
  function Force(v: Vis, vis: bool, added: bool): Vis {
    v.(actions := [], visible := vis, userVisible := vis, activeRefs := if vis then 1 else 0,
       children := if v.activeRefs > 0 && !vis then v.children - 1
                   else if v.activeRefs <= 0 && vis && added then v.children + 1 else v.children)
  }

  /** obs_sceneitem_set_visible on an attached item; `added` says whether the source can be
      made an active child. */
  function SetUserVisible(v: Vis, visible: bool, now: nat, added: bool): (Vis, bool) {
    if v.userVisible == visible then (v, false)
    else
      var u := v.(userVisible := visible);
      if visible && v.activeRefs == 0 && !added then (u, false)
      else
        var w := if !visible then u
                 else u.(activeRefs := v.activeRefs + 1,
                         children := if v.activeRefs == 0 then v.children + 1 else v.children);
        (if v.hasAudio then w.(actions := w.actions + [Action(visible, now)]) else Force(w, visible, added), true)
  }

  /** The output frame an action falls on, for a tick that starts at ts. */
  function FrameOf(a: Action, ts: nat, rate: pos): nat {
    NsToFrames(rate, (if a.timestamp < ts then ts else a.timestamp) - ts)
  }

  /** How many actions from the front fall within the tick; all of them at time zero. */
  function Due(actions: seq<Action>, ts: nat, rate: pos): (n: nat)
    ensures n <= |actions|
    ensures ts == 0 ==> n == |actions|
  {
    if actions == [] || (ts != 0 && FrameOf(actions[0], ts, rate) >= OutputFrames) then 0
    else 1 + Due(actions[1..], ts, rate)
  }

  function LastVisible(actions: seq<Action>, was: bool): bool {
    if actions == [] then was else actions[|actions| - 1].visible
  }

  /** Whether the item is heard at output frame f: the actions up to there have taken effect. */
  function HeardAt(actions: seq<Action>, was: bool, ts: nat, rate: pos, f: nat): bool {
    if actions == [] || FrameOf(actions[0], ts, rate) > f then was
    else HeardAt(actions[1..], actions[0].visible, ts, rate, f)
  }

  /** n decrements of activeRefs, each removing the child if it reaches zero. */
  function Deref(v: Vis, n: nat): Vis
    decreases n
  {
    if n == 0 then v
    else
      var refs := v.activeRefs - 1;
      Deref(v.(activeRefs := refs, children := if refs == 0 then v.children - 1 else v.children), n - 1)
  }

  /** apply_scene_item_audio_actions */
  function Process(v: Vis, ts: nat, rate: pos): Vis {
    var n := Due(v.actions, ts, rate);
    Deref(v.(actions := v.actions[n..], visible := LastVisible(v.actions[..n], v.visible)), Hides(v.actions[..n]))
  }

  // ----- What every operation keeps -----

  lemma AddedInv(hasAudio: bool, now: nat)
    ensures Counted(Added(hasAudio, now))
  {
    var a := [Action(true, now)];
    assert a[1..] == [] && Hides(a) == 0;
  }

  /** A forced set keeps the counts exactly unless the source was needed as a new child and
      could not become one. */
  lemma ForceInv(v: Vis, vis: bool, added: bool)
    requires Counted(v)
    ensures Counted(Force(v, vis, added)) <==> !vis || v.activeRefs > 0 || added
  {
  }

  lemma {:induction false} HidesAppend(a: seq<Action>, b: seq<Action>)
    ensures Hides(a + b) == Hides(a) + Hides(b)
  {
    if a == [] {
      assert a + b == b;
    } else {
      HidesAppend(a[1..], b);
      assert (a + b)[1..] == a[1..] + b;
    }
  }

  /** Setting visibility keeps the counts exactly unless the source was needed as a new child
      and could not become one. */
  lemma SetVisibleInvIff(v: Vis, visible: bool, now: nat, added: bool)
    requires Counted(v)
    ensures Counted(SetUserVisible(v, visible, now, added).0)
            <==> v.userVisible == visible || !visible || v.activeRefs > 0 || added
  {
    HidesAppend(v.actions, [Action(visible, now)]);
    assert [Action(visible, now)][1..] == [];
  }

  /** The answer is yes exactly when the item was not so before and is counted right after. */
  lemma AnswerIff(v: Vis, visible: bool, now: nat, added: bool)
    requires Counted(v)
    ensures var (u, ok) := SetUserVisible(v, visible, now, added);
            u.userVisible == visible && (ok <==> v.userVisible != visible && Counted(u))
  {
    SetVisibleInvIff(v, visible, now, added);
  }

  lemma {:induction false} DerefCounts(v: Vis, n: nat)
    ensures Deref(v, n) == v.(activeRefs := v.activeRefs - n,
                              children := if 0 < v.activeRefs <= n then v.children - 1 else v.children)
    decreases n
  {
    if n > 0 {
      var refs := v.activeRefs - 1;
      DerefCounts(v.(activeRefs := refs, children := if refs == 0 then v.children - 1 else v.children), n - 1);
    }
  }

  lemma ProcessInv(v: Vis, ts: nat, rate: pos)
    requires Counted(v)
    ensures Counted(Process(v, ts, rate)) && Process(v, ts, rate).userVisible == v.userVisible
  {
    ProcessOffBy(v, ts, rate, 0, 0);
  }

  datatype Op = Forced(vis: bool, added: bool) | Set(visible: bool, now: nat, added: bool) | Tick(ts: nat, rate: pos)

  /** The operation does not fail to make the source a child it is needed as. */
  predicate Succeeds(v: Vis, op: Op) {
    match op
    case Forced(vis, added) => !vis || v.activeRefs > 0 || added
    case Set(visible, _, added) => v.userVisible == visible || !visible || v.activeRefs > 0 || added
    case Tick(_, _) => true
  }

  predicate AllSucceed(v: Vis, ops: seq<Op>)
    decreases |ops|
  {
    ops != [] ==> Succeeds(v, ops[0]) && AllSucceed(Apply(v, ops[0]), ops[1..])
  }

  function Apply(v: Vis, op: Op): Vis {
    match op
    case Forced(vis, added) => Force(v, vis, added)
    case Set(visible, now, added) => SetUserVisible(v, visible, now, added).0
    case Tick(ts, rate) => Process(v, ts, rate)
  }

  function Run(v: Vis, ops: seq<Op>): Vis
    decreases |ops|
  {
    if ops == [] then v else Run(Apply(v, ops[0]), ops[1..])
  }

  /** One operation keeps the counts if and only if it succeeds. */
  lemma OpInvIff(v: Vis, op: Op)
    requires Counted(v)
    ensures Counted(Apply(v, op)) <==> Succeeds(v, op)
  {
    match op
    case Forced(vis, added) => ForceInv(v, vis, added);
    case Set(visible, now, added) => SetVisibleInvIff(v, visible, now, added);
    case Tick(ts, rate) => ProcessInv(v, ts, rate);
  }

  /** Over any run in which no operation fails to add the source: the source is an active
      child, once, exactly while it is shown or a hide is pending. */
  lemma {:induction false} RunInv(v: Vis, ops: seq<Op>)
    requires Counted(v) && AllSucceed(v, ops)
    ensures Counted(Run(v, ops))
    ensures Run(v, ops).children == if Run(v, ops).userVisible || Hides(Run(v, ops).actions) > 0 then 1 else 0
    decreases |ops|
  {
    if ops != [] {
      OpInvIff(v, ops[0]);
      RunInv(Apply(v, ops[0]), ops[1..]);
    }
  }

  /** Hide actions do get through: at time zero every pending one is processed, and a hidden
      item's source is let go. */
  lemma HiddenIsReleased(v: Vis, rate: pos)
    requires Counted(v) && !v.userVisible
    ensures Process(v, 0, rate).children == 0 && Process(v, 0, rate).actions == []
  {
    ProcessOffBy(v, 0, rate, 0, 0);
  }

  // ----- When an action takes effect -----

  /** An action stamped `stamp` has taken effect by the end of frame f of the tick at ts. */
  predicate Reached(stamp: nat, ts: nat, rate: pos, f: nat) {
    stamp <= ts || (stamp - ts) * rate < (f + 1) * Second
  }

  lemma FrameIsReached(a: Action, ts: nat, rate: pos, f: nat)
    ensures FrameOf(a, ts, rate) <= f <==> Reached(a.timestamp, ts, rate, f)
  {
    var x := ((if a.timestamp < ts then ts else a.timestamp) - ts) * rate;
    FloorBounds(x, Second);
    MulSign((if a.timestamp < ts then ts else a.timestamp) - ts, rate);
  }

  /** Action i is the first of the list that has not taken effect by the end of frame f. */
  predicate Cut(actions: seq<Action>, i: nat, ts: nat, rate: pos, f: nat) {
    && i <= |actions|
    && (forall j :: 0 <= j < i ==> Reached(actions[j].timestamp, ts, rate, f))
    && (i < |actions| ==> !Reached(actions[i].timestamp, ts, rate, f))
  }

  /** What is heard at a frame is what the last action before the cut says. */
  lemma {:induction false} HeardIsLatest(actions: seq<Action>, i: nat, was: bool, ts: nat, rate: pos, f: nat)
    requires Cut(actions, i, ts, rate, f)
    ensures HeardAt(actions, was, ts, rate, f) == if i == 0 then was else actions[i - 1].visible
    decreases i
  {
    if actions != [] {
      FrameIsReached(actions[0], ts, rate, f);
      if i > 0 {
        assert Cut(actions[1..], i - 1, ts, rate, f);
        HeardIsLatest(actions[1..], i - 1, actions[0].visible, ts, rate, f);
      }
    }
  }

  /** What a tick processes is what takes effect by its last frame, or all at time zero. */
  lemma {:induction false} DueIsReached(actions: seq<Action>, i: nat, ts: nat, rate: pos)
    requires Cut(actions, i, ts, rate, OutputFrames - 1)
    ensures Due(actions, ts, rate) == if ts == 0 then |actions| else i
    decreases i
  {
    if ts != 0 && actions != [] {
      FrameIsReached(actions[0], ts, rate, OutputFrames - 1);
      if i > 0 {
        assert Cut(actions[1..], i - 1, ts, rate, OutputFrames - 1);
        DueIsReached(actions[1..], i - 1, ts, rate);
      }
    }
  }

  /** The stamps do not go back, and none is past now. */
  ghost predicate StampedBy(actions: seq<Action>, now: nat) {
    && (forall i, j :: 0 <= i < j < |actions| ==> actions[i].timestamp <= actions[j].timestamp)
    && (forall a <- actions :: a.timestamp <= now)
  }

  /** With the clock not going back, every operation stamps its action with its own time, behind
      those that are pending. */
  lemma SetStamps(v: Vis, visible: bool, last: nat, now: nat, added: bool)
    requires StampedBy(v.actions, last) && last <= now
    ensures StampedBy(SetUserVisible(v, visible, now, added).0.actions, now)
  {
  }

  /** The clock of a run does not go back: the time of its last operation that has one. */
  ghost predicate Clocked(last: nat, ops: seq<Op>, now: nat)
    decreases |ops|
  {
    if ops == [] then last == now
    else if ops[0].Set? then last <= ops[0].now && Clocked(ops[0].now, ops[1..], now)
    else Clocked(last, ops[1..], now)
  }

  /** So after any run the pending actions are in order of their times. */
  lemma {:induction false} RunStamps(v: Vis, last: nat, ops: seq<Op>, now: nat)
    requires StampedBy(v.actions, last) && Clocked(last, ops, now)
    ensures StampedBy(Run(v, ops).actions, now)
    decreases |ops|
  {
    if ops != [] {
      var u := Apply(v, ops[0]);
      match ops[0]
      case Forced(_, _) => RunStamps(u, last, ops[1..], now);
      case Set(visible, at, added) =>
        SetStamps(v, visible, last, at, added);
        RunStamps(u, at, ops[1..], now);
      case Tick(ts, rate) =>
        ProcessActions(v, ts, rate);
        RunStamps(u, last, ops[1..], now);
    }
  }

  lemma ProcessActions(v: Vis, ts: nat, rate: pos)
    ensures Process(v, ts, rate).actions == v.actions[Due(v.actions, ts, rate)..]
  {
    var n := Due(v.actions, ts, rate);
    DerefCounts(v.(actions := v.actions[n..], visible := LastVisible(v.actions[..n], v.visible)),
                Hides(v.actions[..n]));
  }

  /** What reaches a later stamp reaches an earlier one. */
  lemma ReachedOrder(early: nat, late: nat, ts: nat, rate: pos, f: nat)
    requires early <= late && Reached(late, ts, rate, f)
    ensures Reached(early, ts, rate, f)
  {
    MulSign(early - late, rate);
    Distribute(early - late, late - ts, rate);
  }

  /** The last action of a list is due exactly when all of it is. */
  lemma CutOf(actions: seq<Action>, ts: nat, rate: pos, f: nat) returns (i: nat)
    ensures Cut(actions, i, ts, rate, f)
  {
    i := 0;
    while i < |actions| && Reached(actions[i].timestamp, ts, rate, f)
      invariant i <= |actions| && forall j :: 0 <= j < i ==> Reached(actions[j].timestamp, ts, rate, f)
    {
      i := i + 1;
    }
  }

  lemma LastIsDueIff(actions: seq<Action>, now: nat, visible: bool, ts: nat, rate: pos)
    requires StampedBy(actions, now)
    ensures var all := actions + [Action(visible, now)];
            Due(all, ts, rate) == |all| <==> ts == 0 || Reached(now, ts, rate, OutputFrames - 1)
  {
    var all := actions + [Action(visible, now)];
    var i := CutOf(all, ts, rate, OutputFrames - 1);
    DueIsReached(all, i, ts, rate);
    assert all[|all| - 1].timestamp == now;
    if i < |all| && Reached(now, ts, rate, OutputFrames - 1) {
      assert all[i].timestamp <= now by {
        assert i < |actions| ==> all[i] in actions;
      }
      ReachedOrder(all[i].timestamp, now, ts, rate, OutputFrames - 1);
    }
  }

  /** A shown item that is hidden at `now` and then ticked: whatever is pending, its source is
      still a child after the tick if and only if the tick's last frame ends before `now`. */
  lemma HideWaitsForItsTime(v: Vis, now: nat, added: bool, ts: nat, rate: pos)
    requires Counted(v) && v.hasAudio && v.userVisible && StampedBy(v.actions, now)
    ensures var u := Process(SetUserVisible(v, false, now, added).0, ts, rate);
            u.children == 1 <==> ts != 0 && ts < now && (now - ts) * rate >= OutputFrames * Second
  {
    var hidden := SetUserVisible(v, false, now, added).0;
    SetVisibleInvIff(v, false, now, added);
    ProcessOffBy(hidden, ts, rate, 0, 0);
    var n := Due(hidden.actions, ts, rate);
    LastIsDueIff(v.actions, now, false, ts, rate);
    if n < |hidden.actions| {
      var left := hidden.actions[n..];
      assert left == left[..|left| - 1] + [Action(false, now)];
      HidesAppend(left[..|left| - 1], [Action(false, now)]);
      assert [Action(false, now)][1..] == [];
    }
  }

  /** A hidden item that is shown at `now` has its source as a child at once, and after the tick
      too. */
  lemma ShowIsAtOnce(v: Vis, now: nat, ts: nat, rate: pos)
    requires Counted(v) && !v.userVisible
    ensures var shown := SetUserVisible(v, true, now, true).0;
            shown.children == 1 && Process(shown, ts, rate).children == 1
  {
    SetVisibleInvIff(v, true, now, true);
    ProcessInv(SetUserVisible(v, true, now, true).0, ts, rate);
  }

  /** With nothing else pending, the buffer of the tick holds the old state for every frame that
      ends by `now`, and the new one for all others. */
  lemma ChangeIsHeardFromItsTime(v: Vis, visible: bool, now: nat, ts: nat, rate: pos, buf: array<real>)
    requires v.hasAudio && v.actions == [] && v.userVisible == v.visible != visible && ts <= now
    requires var u := SetUserVisible(v, visible, now, true).0;
             FilledTo(buf, OutputFrames, u.actions, u.visible, ts, rate)
    ensures buf.Length >= OutputFrames
            && forall f :: 0 <= f < OutputFrames ==>
                 buf[f] == if (if (f + 1) * Second <= (now - ts) * rate then !visible else visible) then 1.0 else 0.0
  {
    var u := SetUserVisible(v, visible, now, true).0;
    assert u.actions == [Action(visible, now)];
    MulSign(now - ts, rate);
    forall f | 0 <= f < OutputFrames
      ensures HeardAt(u.actions, u.visible, ts, rate, f)
              == if (f + 1) * Second <= (now - ts) * rate then !visible else visible {
      var i := if Reached(now, ts, rate, f) then 1 else 0;
      assert Cut(u.actions, i, ts, rate, f);
      HeardIsLatest(u.actions, i, u.visible, ts, rate, f);
    }
  }

  /** So does that of a new item, which is heard from the moment it is added. */
  lemma AddedIsHeardFromItsTime(now: nat, ts: nat, rate: pos, buf: array<real>)
    requires ts <= now && var v := Added(true, now); FilledTo(buf, OutputFrames, v.actions, v.visible, ts, rate)
    ensures buf.Length >= OutputFrames
            && forall f :: 0 <= f < OutputFrames ==>
                 buf[f] == if (f + 1) * Second <= (now - ts) * rate then 0.0 else 1.0
  {
    var v := Added(true, now);
    assert v.actions == [Action(true, now)];
    MulSign(now - ts, rate);
    forall f | 0 <= f < OutputFrames
      ensures HeardAt(v.actions, false, ts, rate, f) == !((f + 1) * Second <= (now - ts) * rate) {
      var i := if Reached(now, ts, rate, f) then 1 else 0;
      assert Cut(v.actions, i, ts, rate, f);
      HeardIsLatest(v.actions, i, false, ts, rate, f);
    }
  }

  // ----- When the source cannot be added -----

  /** The count is short of what needs the source by `missed`, and the source is a child
      `lost` times fewer than the count says. */
  ghost predicate OffBy(v: Vis, missed: nat, lost: nat) {
    && v.activeRefs == Wanted(v) - missed
    && v.children == (if v.activeRefs > 0 then 1 else 0) - lost
    && (!v.hasAudio ==> v.actions == [] && v.activeRefs >= 0)
  }

  /** Shows that have failed since visibility was last forced; an item without audio forces it
      with every change that does not fail. */
  function Missed(v: Vis, ops: seq<Op>, missed: nat): nat
    decreases |ops|
  {
    if ops == [] then missed else Missed(Apply(v, ops[0]), ops[1..], MissedBy(v, ops[0], missed))
  }

  function MissedBy(v: Vis, op: Op, missed: nat): nat {
    match op
    case Forced(_, _) => 0
    case Set(visible, _, added) =>
      if v.userVisible == visible then missed
      else if visible && v.activeRefs == 0 && !added then missed + 1
      else if v.hasAudio then missed
      else 0
    case Tick(_, _) => missed
  }

  /** Forced shows that have failed. */
  function Lost(v: Vis, ops: seq<Op>, lost: nat): (r: nat)
    ensures lost <= r
    decreases |ops|
  {
    if ops == [] then lost else Lost(Apply(v, ops[0]), ops[1..], LostBy(v, ops[0], lost))
  }

  function LostBy(v: Vis, op: Op, lost: nat): nat {
    if op.Forced? && op.vis && v.activeRefs <= 0 && !op.added then lost + 1 else lost
  }

  lemma SetOffBy(v: Vis, visible: bool, now: nat, added: bool, missed: nat, lost: nat)
    requires OffBy(v, missed, lost)
    ensures var op := Set(visible, now, added);
            OffBy(SetUserVisible(v, visible, now, added).0, MissedBy(v, op, missed), lost)
  {
    HidesAppend(v.actions, [Action(visible, now)]);
    assert [Action(visible, now)][1..] == [];
  }

  lemma ProcessOffBy(v: Vis, ts: nat, rate: pos, missed: nat, lost: nat)
    requires OffBy(v, missed, lost)
    ensures OffBy(Process(v, ts, rate), missed, lost)
    ensures Process(v, ts, rate).userVisible == v.userVisible && Process(v, ts, rate).hasAudio == v.hasAudio
    ensures Process(v, ts, rate).actions == v.actions[Due(v.actions, ts, rate)..]
  {
    var n := Due(v.actions, ts, rate);
    HidesAppend(v.actions[..n], v.actions[n..]);
    assert v.actions == v.actions[..n] + v.actions[n..];
    DerefCounts(v.(actions := v.actions[n..], visible := LastVisible(v.actions[..n], v.visible)),
                Hides(v.actions[..n]));
  }

  lemma OpOffBy(v: Vis, op: Op, missed: nat, lost: nat)
    requires OffBy(v, missed, lost)
    ensures OffBy(Apply(v, op), MissedBy(v, op, missed), LostBy(v, op, lost))
    ensures Apply(v, op).hasAudio == v.hasAudio
  {
    match op
    case Forced(_, _) =>
    case Set(visible, now, added) => SetOffBy(v, visible, now, added, missed, lost);
    case Tick(ts, rate) => ProcessOffBy(v, ts, rate, missed, lost);
  }

  /** Over any run, whatever fails: the count is short by one for every show that has failed
      since visibility was last forced, and the source is a child once less for every forced
      show that ever failed. */
  lemma {:induction false} RunOffBy(v: Vis, ops: seq<Op>, missed: nat, lost: nat)
    requires OffBy(v, missed, lost)
    ensures OffBy(Run(v, ops), Missed(v, ops, missed), Lost(v, ops, lost))
    decreases |ops|
  {
    if ops != [] {
      OpOffBy(v, ops[0], missed, lost);
      RunOffBy(Apply(v, ops[0]), ops[1..], MissedBy(v, ops[0], missed), LostBy(v, ops[0], lost));
    }
  }

  /** So count and child are in step after a run if and only if no show has failed since
      visibility was last forced, and no forced show ever did. */
  lemma RunCountedIff(v: Vis, ops: seq<Op>)
    requires Counted(v)
    ensures Counted(Run(v, ops)) <==> Missed(v, ops, 0) == 0 && Lost(v, ops, 0) == 0
  {
    RunOffBy(v, ops, 0, 0);
  }

  predicate NoneForced(ops: seq<Op>) {
    forall op <- ops :: !op.Forced?
  }

  lemma {:induction false} ShortStays(v: Vis, ops: seq<Op>, missed: nat)
    requires v.hasAudio && NoneForced(ops) && AllSucceed(v, ops)
    requires OffBy(v, missed, 0)
    ensures Missed(v, ops, missed) == missed && Lost(v, ops, 0) == 0
    decreases |ops|
  {
    if ops != [] {
      OpOffBy(v, ops[0], missed, 0);
      assert ops[0] in ops;
      assert forall op <- ops[1..] :: op in ops;
      ShortStays(Apply(v, ops[0]), ops[1..], missed);
    }
  }

  /** After a failed show of an item with audio, over any run of shows, hides and ticks that
      succeed: the source is a child exactly while two things need it, so not while the item is
      only shown; until visibility is forced, which puts count and child in step again exactly
      unless it, too, fails. */
  lemma FailedShowSticks(v: Vis, now: nat, ops: seq<Op>, vis: bool, added: bool)
    requires Counted(v) && v.hasAudio && !v.userVisible && v.activeRefs == 0
    requires var failed := SetUserVisible(v, true, now, false).0; NoneForced(ops) && AllSucceed(failed, ops)
    ensures var u := Run(SetUserVisible(v, true, now, false).0, ops);
            && u.activeRefs == Wanted(u) - 1 && u.children == (if Wanted(u) >= 2 then 1 else 0)
            && (Hides(u.actions) == 0 ==> u.children == 0)
            && (Counted(Force(u, vis, added)) <==> !vis || u.activeRefs > 0 || added)
  {
    var failed := SetUserVisible(v, true, now, false).0;
    SetOffBy(v, true, now, false, 0, 0);
    ShortStays(failed, ops, 1);
    RunOffBy(failed, ops, 1, 0);
  }

  /** With the item hidden again, one more show makes the source a child before the hide is
      processed, and not after. */
  lemma FailedShowRecoversEarly(v: Vis, t1: nat, t2: nat, t3: nat, rate: pos)
    requires Counted(v) && v.hasAudio && !v.userVisible && v.activeRefs == 0
    ensures var hidden := Apply(Apply(v, Set(true, t1, false)), Set(false, t2, true));
            && Apply(hidden, Set(true, t3, true)).children == 1
            && Apply(Apply(hidden, Op.Tick(0, rate)), Set(true, t3, true)).children == 0
  {
    var failed := Apply(v, Set(true, t1, false));
    var hidden := Apply(failed, Set(false, t2, true));
    SetOffBy(v, true, t1, false, 0, 0);
    SetOffBy(failed, false, t2, true, 1, 0);
    SetOffBy(hidden, true, t3, true, 1, 0);
    ProcessOffBy(hidden, 0, rate, 1, 0);
    SetOffBy(Process(hidden, 0, rate), true, t3, true, 1, 0);
  }

  // ----- The operations on an item's fields -----

  /** The buffer says of each frame below n whether the item is heard there. */
  ghost predicate FilledTo(buf: array<real>, n: nat, actions: seq<Action>, was: bool, ts: nat, rate: pos)
    reads buf
  {
    n <= buf.Length && forall f :: 0 <= f < n ==> buf[f] == if HeardAt(actions, was, ts, rate, f) then 1.0 else 0.0
  }

  /** From frame n on, only the actions that are left matter. */
  ghost predicate SameFrom(n: nat, all: seq<Action>, was: bool, left: seq<Action>, now: bool, ts: nat, rate: pos) {
    forall f :: n <= f ==> HeardAt(all, was, ts, rate, f) == HeardAt(left, now, ts, rate, f)
  }

  /** The state of the loop that fills the buffer, with n actions behind it. */
  ghost predicate Filling(buf: array<real>, frame: nat, all: seq<Action>,
                          was: bool, n: nat, now: bool, ts: nat, rate: pos)
    reads buf
    requires n <= |all|
  {
    frame <= OutputFrames == buf.Length
    && FilledTo(buf, frame, all, was, ts, rate) && SameFrom(frame, all, was, all[n..], now, ts, rate)
  }

  lemma NextAction(all: seq<Action>, n: nat)
    requires n < |all|
    ensures all[..n + 1] == all[..n] + [all[n]] && all[n..][1..] == all[n + 1..]
    ensures Hides(all[..n + 1]) == Hides(all[..n]) + (if all[n].visible then 0 else 1)
  {
    assert all[..n + 1] == all[..n] + [all[n]];
    HidesAppend(all[..n], [all[n]]);
    assert [all[n]][1..] == [];
  }

  /** What the loop over the actions has done to n of them. */
  predicate Taken(all: seq<Action>, was: bool, n: nat, visible: bool, hides: nat, ts: nat, rate: pos) {
    && n <= |all| && visible == LastVisible(all[..n], was) && hides == Hides(all[..n])
    && n + Due(all[n..], ts, rate) == Due(all, ts, rate)
  }

  lemma TakeOne(all: seq<Action>, was: bool, n: nat, visible: bool, hides: nat, ts: nat, rate: pos)
    requires Taken(all, was, n, visible, hides, ts, rate)
    requires n < |all| && !(ts != 0 && FrameOf(all[n], ts, rate) >= OutputFrames)
    ensures Taken(all, was, n + 1, all[n].visible, hides + (if all[n].visible then 0 else 1), ts, rate)
  {
    NextAction(all, n);
  }

  class SceneItem {
    const hasAudio: bool
    var userVisible: bool
    var visible: bool
    var activeRefs: int
    var actions: seq<Action>
    var children: int

    function View(): Vis
      reads this
    {
      Vis(hasAudio, userVisible, visible, activeRefs, actions, children)
    }

    constructor (hasAudio: bool, now: nat)
      ensures View() == Added(hasAudio, now) && Counted(View())
    {
      this.hasAudio := hasAudio;
      userVisible, activeRefs, children := true, 1, 1;
      visible, actions := !hasAudio, if hasAudio then [Action(true, now)] else [];
      new;
      AddedInv(hasAudio, now);
    }

    method SetVisibility(vis: bool, added: bool)
      modifies this
      ensures View() == Force(old(View()), vis, added)
    {
      actions := [];
      if activeRefs > 0 {
        if !vis {
          children := children - 1;
        }
      } else if vis {
        children := if added then children + 1 else children;
      }
      activeRefs := if vis then 1 else 0;
      visible := vis;
      userVisible := vis;
    }

    method SetVisible(visible: bool, now: nat, added: bool) returns (ok: bool)
      modifies this
      ensures (View(), ok) == SetUserVisible(old(View()), visible, now, added)
    {
      if userVisible == visible {
        return false;
      }
      userVisible := visible;
      if visible {
        activeRefs := activeRefs + 1;
        if activeRefs == 1 {
          if !added {
            activeRefs := activeRefs - 1;
            return false;
          }
          children := children + 1;
        }
      }
      if hasAudio {
        actions := actions + [Action(visible, now)];
      } else {
        SetVisibility(visible, added);
      }
      ok := true;
    }

    /** apply_scene_item_audio_actions. A buffer comes with a time, and then holds for each
        output frame whether the item is heard there. */
    method ApplyAudioActions(buf: array<real>, fill: bool, ts: nat, rate: pos)
      requires fill ==> ts != 0 && buf.Length == OutputFrames
      modifies this, buf
      ensures View() == Process(old(View()), ts, rate)
      ensures fill ==> FilledTo(buf, OutputFrames, old(actions), old(visible), ts, rate)
    {
      ghost var all := actions;
      ghost var was := visible;
      ghost var n := 0;
      var curVisible := visible;
      var frame: nat, derefs: nat := 0, 0;
      assert all[0..] == all && all[..0] == [];
      while actions != []
        invariant Taken(all, was, n, curVisible, derefs, ts, rate)
        invariant View() == old(View()).(actions := all[n..], visible := curVisible)
        invariant fill ==> Filling(buf, frame, all, was, n, curVisible, ts, rate)
        decreases |all| - n
      {
        if ts != 0 && FrameOf(actions[0], ts, rate) >= OutputFrames {
          break;
        }
        TakeOne(all, was, n, curVisible, derefs, ts, rate);
        frame, curVisible := TakeAction(buf, fill, frame, curVisible, all, n, was, ts, rate);
        if !visible {
          derefs := derefs + 1;
        }
        n := n + 1;
      }
      assert n == Due(all, ts, rate);
      if fill {
        Fill(buf, frame, OutputFrames, curVisible);
      }
      DerefAll(derefs);
    }

    /** One turn of the loop: the action in front takes effect. */
    method TakeAction(buf: array<real>, fill: bool, frame: nat, curVisible: bool, ghost all: seq<Action>, ghost n: nat,
                      ghost was: bool, ts: nat, rate: pos) returns (newFrame: nat, nowVisible: bool)
      requires n < |all| && actions == all[n..] && visible == curVisible
      requires fill ==> Filling(buf, frame, all, was, n, curVisible, ts, rate)
      requires fill ==> FrameOf(all[n], ts, rate) < OutputFrames
      modifies this, buf
      ensures View() == old(View()).(actions := all[n + 1..], visible := all[n].visible) && nowVisible == all[n].visible
      ensures fill ==> Filling(buf, newFrame, all, was, n + 1, nowVisible, ts, rate)
    {
      var action := actions[0];
      newFrame := FrameOf(action, ts, rate);
      NextAction(all, n);
      actions := actions[1..];
      visible := action.visible;
      if fill {
        FillUntilAction(buf, frame, newFrame, all, n, was, curVisible, ts, rate);
      }
      newFrame := if newFrame > frame then newFrame else frame;
      nowVisible := visible;
    }

    /** Between two actions: the frames up to the next one still hear the old state. */
    method FillUntilAction(buf: array<real>, frame: nat, newFrame: nat, ghost all: seq<Action>, ghost n: nat,
                           ghost was: bool, curVisible: bool, ts: nat, rate: pos)
      requires n < |all| && newFrame == FrameOf(all[n], ts, rate) && newFrame <= buf.Length && frame <= buf.Length
      requires FilledTo(buf, frame, all, was, ts, rate) && SameFrom(frame, all, was, all[n..], curVisible, ts, rate)
      modifies buf
      ensures var to := if newFrame > frame then newFrame else frame;
              FilledTo(buf, to, all, was, ts, rate) && SameFrom(to, all, was, all[n + 1..], all[n].visible, ts, rate)
    {
      NextAction(all, n);
      if newFrame > frame {
        Fill(buf, frame, newFrame, curVisible);
      }
    }

    method Fill(buf: array<real>, from: nat, to: nat, heard: bool)
      requires from <= to <= buf.Length
      modifies buf
      ensures forall f :: 0 <= f < buf.Length ==>
              buf[f] == if from <= f < to then (if heard then 1.0 else 0.0) else old(buf[f])
    {
      for f := from to to
        invariant forall g :: 0 <= g < buf.Length ==>
                  buf[g] == if from <= g < f then (if heard then 1.0 else 0.0) else old(buf[g])
      {
        buf[f] := if heard then 1.0 else 0.0;
      }
    }

    /** The loop that ends it. */
    method DerefAll(count: nat)
      modifies this
      ensures View() == Deref(old(View()), count)
    {
      var n := count;
      while n > 0
        invariant Deref(View(), n) == Deref(old(View()), count)
      {
        n := n - 1;
        activeRefs := activeRefs - 1;
        if activeRefs == 0 {
          children := children - 1;
        }
      }
    }
  }
}

/** Hotkey bindings of libobs/obs-hotkey.c. Several bindings may press one hotkey; the
    hotkey counts them, and its callback hears of the first press and the last release. */
module Hotkeys {
  import opened Seqs

  type Key = int
  const NoKey: Key := 0

  datatype Binding = Binding(key: Key, modifiers: bv32, hotkey: nat, pressed: bool, modifiersMatch: bool)

  datatype Event = Event(hotkey: nat, pressed: bool)

  /** `pressed` counts pressed bindings per registered hotkey; `log` is what the callbacks
      were told. Nothing is told when rerouting is on and there is no router. */
  datatype Keys = Keys(bindings: seq<Binding>, pressed: map<nat, int>, log: seq<Event>, delivers: bool)

  predicate ModifiersMatch(b: Binding, modifiers: bv32, strict: bool) {
    if strict then b.modifiers == modifiers else b.modifiers & modifiers == b.modifiers
  }

  predicate Known(k: Keys, i: nat) {
    i < |k.bindings| && k.bindings[i].hotkey in k.pressed
  }

  function Tell(k: Keys, e: Event): seq<Event> {
    if k.delivers then k.log + [e] else k.log
  }

  /** press_released_binding */
  function Press(k: Keys, i: nat): Keys
    requires Known(k, i)
  {
    var b := k.bindings[i];
    var n := k.pressed[b.hotkey];
    k.(bindings := k.bindings[i := b.(pressed := true)], pressed := k.pressed[b.hotkey := n + 1],
       log := if n != 0 then k.log else Tell(k, Event(b.hotkey, true)))
  }

  /** release_pressed_binding */
  function Release(k: Keys, i: nat): Keys
    requires Known(k, i)
  {
    var b := k.bindings[i];
    var n := k.pressed[b.hotkey] - 1;
    k.(bindings := k.bindings[i := b.(pressed := false)], pressed := k.pressed[b.hotkey := n],
       log := if n != 0 then k.log else Tell(k, Event(b.hotkey, false)))
  }

  function SetMatch(k: Keys, i: nat, m: bool): Keys
    requires i < |k.bindings|
  {
    k.(bindings := k.bindings[i := k.bindings[i].(modifiersMatch := m)])
  }

  /** What a poll of the keyboard sees. */
  datatype Poll = Poll(modifiers: bv32, noPress: bool, strict: bool, down: set<Key>)

  /** handle_binding, with no fixed state for the key. */
  function Handle(k: Keys, i: nat, p: Poll): Keys
    requires Known(k, i)
  {
    var b := k.bindings[i];
    var matches := ModifiersMatch(b, p.modifiers, p.strict);
    var modifiersOnly := b.key == NoKey;
    var seen := b.modifiersMatch || (!p.strict && b.modifiers == 0);
    var u := SetMatch(k, i, seen);
    if || (b.modifiers == 0 && modifiersOnly)
       || (!seen && !modifiersOnly) || !matches
       || (!modifiersOnly && b.key !in p.down)
    then
      var r := SetMatch(k, i, matches);
      if b.pressed then Release(r, i) else r
    else if b.pressed || p.noPress then u
    else Press(u, i)
  }

  /** An injected key event. */
  datatype Injection = Injection(key: Key, modifiers: bv32, pressed: bool, strict: bool)

  /** inject_hotkey */
  function Inject(k: Keys, i: nat, e: Injection): Keys
    requires Known(k, i)
  {
    var b := k.bindings[i];
    if ModifiersMatch(b, e.modifiers, e.strict) && (b.key == NoKey || (b.key == e.key && e.pressed)) then
      var u := SetMatch(k, i, true);
      if b.pressed then u else Press(u, i)
    else k
  }

  /** create_binding */
  function Create(k: Keys, hotkey: nat, key: Key, modifiers: bv32): Keys {
    k.(bindings := k.bindings + [Binding(key, modifiers, hotkey, false, false)])
  }

  /** The removal of one found binding. */
  function RemoveAt(k: Keys, i: nat): Keys
    requires Known(k, i)
  {
    var u := if k.bindings[i].pressed then Release(k, i) else k;
    u.(bindings := u.bindings[..i] + u.bindings[i + 1..])
  }

  // ----- Counting and alternation -----

  function Count(bs: seq<Binding>, hotkey: nat): nat {
    if bs == [] then 0 else (if bs[0].hotkey == hotkey && bs[0].pressed then 1 else 0) + Count(bs[1..], hotkey)
  }

  /** What one hotkey's callback was told. */
  function Heard(log: seq<Event>, hotkey: nat): seq<bool> {
    if log == [] then []
    else
      var h := Heard(log[..|log| - 1], hotkey);
      if log[|log| - 1].hotkey == hotkey then h + [log[|log| - 1].pressed] else h
  }

  /** Press, release, press, and so on, starting with a press. */
  predicate Alternates(h: seq<bool>) {
    forall i :: 0 <= i < |h| ==> h[i] == (i % 2 == 0)
  }

  ghost predicate Inv(k: Keys) {
    && (forall b <- k.bindings :: b.hotkey in k.pressed)
    && (forall id <- k.pressed :: k.pressed[id] == Count(k.bindings, id))
    && (k.delivers ==> forall id <- k.pressed ::
          Alternates(Heard(k.log, id)) && (|Heard(k.log, id)| % 2 == 1 <==> k.pressed[id] > 0))
  }

  lemma {:induction false} CountUpdate(bs: seq<Binding>, i: nat, b: Binding, id: nat)
    requires i < |bs|
    ensures Count(bs[i := b], id) == Count(bs, id) - (if bs[i].hotkey == id && bs[i].pressed then 1 else 0)
                                                   + (if b.hotkey == id && b.pressed then 1 else 0)
    ensures bs[i].hotkey == id && bs[i].pressed ==> Count(bs, id) > 0
  {
    if i > 0 {
      CountUpdate(bs[1..], i - 1, b, id);
      assert bs[i := b][1..] == bs[1..][i - 1 := b];
    } else {
      assert bs[0 := b][1..] == bs[1..];
    }
  }

  lemma {:induction false} CountAppend(a: seq<Binding>, b: seq<Binding>, id: nat)
    ensures Count(a + b, id) == Count(a, id) + Count(b, id)
  {
    if a == [] {
      assert a + b == b;
    } else {
      CountAppend(a[1..], b, id);
      assert (a + b)[1..] == a[1..] + b;
    }
  }

  lemma HeardSnoc(log: seq<Event>, e: Event, id: nat)
    ensures Heard(log + [e], id) == if e.hotkey == id then Heard(log, id) + [e.pressed] else Heard(log, id)
  {
    assert (log + [e])[..|log|] == log;
  }

  lemma SetMatchInv(k: Keys, i: nat, m: bool)
    requires Inv(k) && i < |k.bindings|
    ensures Inv(SetMatch(k, i, m)) && Known(k, i) && Known(SetMatch(k, i, m), i)
  {
    var u := SetMatch(k, i, m);
    assert k.bindings[i] in k.bindings;
    forall id <- k.pressed ensures Count(u.bindings, id) == Count(k.bindings, id) {
      CountUpdate(k.bindings, i, u.bindings[i], id);
    }
    forall b <- u.bindings ensures b.hotkey in u.pressed {
      var j :| 0 <= j < |u.bindings| && u.bindings[j] == b;
      assert k.bindings[j] in k.bindings;
    }
  }

  /** Pressing or releasing moves one binding and the count together, and tells the callback
      exactly on the way from and to zero. */
  lemma PressInv(k: Keys, i: nat)
    requires Inv(k) && Known(k, i) && !k.bindings[i].pressed
    ensures Inv(Press(k, i))
  {
    var u, h := Press(k, i), k.bindings[i].hotkey;
    SwitchInv(k, i, true, u);
  }

  lemma ReleaseInv(k: Keys, i: nat)
    requires Inv(k) && Known(k, i) && k.bindings[i].pressed
    ensures Inv(Release(k, i))
  {
    var u, h := Release(k, i), k.bindings[i].hotkey;
    SwitchInv(k, i, false, u);
  }

  lemma SwitchInv(k: Keys, i: nat, to: bool, u: Keys)
    requires Inv(k) && Known(k, i) && k.bindings[i].pressed == !to
    requires u == if to then Press(k, i) else Release(k, i)
    ensures Inv(u)
  {
    var b := k.bindings[i];
    forall id <- u.pressed
      ensures u.pressed[id] == Count(u.bindings, id)
      ensures k.delivers ==> Alternates(Heard(u.log, id)) && (|Heard(u.log, id)| % 2 == 1 <==> u.pressed[id] > 0) {
      CountUpdate(k.bindings, i, b.(pressed := to), id);
      HeardSnoc(k.log, Event(b.hotkey, to), id);
      assert id in k.pressed;
    }
    forall c <- u.bindings ensures c.hotkey in u.pressed {
      var j :| 0 <= j < |u.bindings| && u.bindings[j] == c;
      assert k.bindings[j] in k.bindings;
    }
  }

  lemma HandleInv(k: Keys, i: nat, p: Poll)
    requires Inv(k) && i < |k.bindings|
    ensures Known(k, i) && Inv(Handle(k, i, p)) && |Handle(k, i, p).bindings| == |k.bindings|
  {
    var b := k.bindings[i];
    SetMatchInv(k, i, b.modifiersMatch || (!p.strict && b.modifiers == 0));
    SetMatchInv(k, i, ModifiersMatch(b, p.modifiers, p.strict));
    if b.pressed {
      ReleaseInv(SetMatch(k, i, ModifiersMatch(b, p.modifiers, p.strict)), i);
    } else {
      PressInv(SetMatch(k, i, b.modifiersMatch || (!p.strict && b.modifiers == 0)), i);
    }
  }

  lemma InjectInv(k: Keys, i: nat, e: Injection)
    requires Inv(k) && i < |k.bindings|
    ensures Known(k, i) && Inv(Inject(k, i, e)) && |Inject(k, i, e).bindings| == |k.bindings|
  {
    SetMatchInv(k, i, true);
    if !k.bindings[i].pressed {
      PressInv(SetMatch(k, i, true), i);
    }
  }

  lemma CreateInv(k: Keys, hotkey: nat, key: Key, modifiers: bv32)
    requires Inv(k) && hotkey in k.pressed
    ensures Inv(Create(k, hotkey, key, modifiers))
  {
    var b := Binding(key, modifiers, hotkey, false, false);
    forall id <- k.pressed ensures Count(k.bindings + [b], id) == Count(k.bindings, id) {
      CountAppend(k.bindings, [b], id);
      assert [b][1..] == [];
    }
  }

  lemma CountWithout(bs: seq<Binding>, i: nat, id: nat)
    requires i < |bs| && !bs[i].pressed
    ensures Count(bs[..i] + bs[i + 1..], id) == Count(bs, id)
  {
    assert bs == bs[..i] + ([bs[i]] + bs[i + 1..]);
    CountAppend(bs[..i], bs[i + 1..], id);
    CountAppend(bs[..i], [bs[i]] + bs[i + 1..], id);
    CountAppend([bs[i]], bs[i + 1..], id);
    assert [bs[i]][1..] == [];
  }

  lemma RemoveAtInv(k: Keys, i: nat)
    requires Inv(k) && Known(k, i)
    ensures Inv(RemoveAt(k, i)) && RemoveAt(k, i).pressed.Keys == k.pressed.Keys
  {
    if k.bindings[i].pressed {
      ReleaseInv(k, i);
    }
    var u := if k.bindings[i].pressed then Release(k, i) else k;
    forall id <- u.pressed ensures Count(u.bindings[..i] + u.bindings[i + 1..], id) == Count(u.bindings, id) {
      CountWithout(u.bindings, i, id);
    }
  }

  // ----- Whole operations -----

  /** query_hotkeys, from binding i on. */
  ghost function QueryFrom(k: Keys, i: nat, p: Poll): (r: Keys)
    requires Inv(k) && i <= |k.bindings|
    ensures Inv(r) && r.pressed.Keys == k.pressed.Keys && r.delivers == k.delivers
    decreases |k.bindings| - i
  {
    if i == |k.bindings| then k else HandleInv(k, i, p); QueryFrom(Handle(k, i, p), i + 1, p)
  }

  /** obs_hotkey_inject_event, from binding i on. */
  ghost function InjectFrom(k: Keys, i: nat, e: Injection): (r: Keys)
    requires Inv(k) && i <= |k.bindings|
    ensures Inv(r) && r.pressed.Keys == k.pressed.Keys && r.delivers == k.delivers
    decreases |k.bindings| - i
  {
    if i == |k.bindings| then k else InjectInv(k, i, e); InjectFrom(Inject(k, i, e), i + 1, e)
  }

  /** find_binding: the first binding of a hotkey, or the number of bindings. */
  function Find(bs: seq<Binding>, hotkey: nat): (i: nat)
    ensures i <= |bs| && (i < |bs| ==> bs[i].hotkey == hotkey) && forall j :: 0 <= j < i ==> bs[j].hotkey != hotkey
  {
    if bs == [] || bs[0].hotkey == hotkey then 0 else 1 + Find(bs[1..], hotkey)
  }

  /** remove_bindings */
  ghost function RemoveAll(k: Keys, hotkey: nat): (r: Keys)
    requires Inv(k)
    ensures Inv(r) && r.pressed.Keys == k.pressed.Keys && r.delivers == k.delivers
    ensures forall b <- r.bindings :: b.hotkey != hotkey
    decreases |k.bindings|
  {
    var i := Find(k.bindings, hotkey);
    if i == |k.bindings| then k
    else
      assert k.bindings[i] in k.bindings;
      RemoveAtInv(k, i);
      RemoveAll(RemoveAt(k, i), hotkey)
  }

  ghost function CreateAll(k: Keys, hotkey: nat, combos: seq<(Key, bv32)>): (r: Keys)
    requires Inv(k) && hotkey in k.pressed
    ensures Inv(r) && r.pressed.Keys == k.pressed.Keys && r.delivers == k.delivers
    decreases |combos|
  {
    if combos == [] then k
    else
      CreateInv(k, hotkey, combos[0].0, combos[0].1);
      CreateAll(Create(k, hotkey, combos[0].0, combos[0].1), hotkey, combos[1..])
  }

  /** obs_hotkey_load_bindings, which does nothing for a hotkey that is not registered. */
  ghost function Load(k: Keys, hotkey: nat, combos: seq<(Key, bv32)>): (r: Keys)
    requires Inv(k)
    ensures Inv(r) && r.pressed.Keys == k.pressed.Keys && r.delivers == k.delivers
  {
    if hotkey in k.pressed then CreateAll(RemoveAll(k, hotkey), hotkey, combos) else k
  }

  datatype Op = Query(poll: Poll) | InjectEvent(event: Injection) | LoadBindings(hotkey: nat, combos: seq<(Key, bv32)>)

  ghost function Run(k: Keys, ops: seq<Op>): (r: Keys)
    requires Inv(k)
    ensures Inv(r) && r.pressed.Keys == k.pressed.Keys && r.delivers == k.delivers
    decreases |ops|
  {
    if ops == [] then k
    else
      Run(match ops[0]
          case Query(p) => QueryFrom(k, 0, p)
          case InjectEvent(e) => InjectFrom(k, 0, e)
          case LoadBindings(id, combos) => Load(k, id, combos),
          ops[1..])
  }

  /** With hotkeys rerouted to nobody, no callback is told anything. */
  lemma {:induction false} NobodyIsTold(k: Keys, ops: seq<Op>)
    requires Inv(k) && !k.delivers
    ensures Run(k, ops).log == k.log
    decreases |ops|
  {
    if ops != [] {
      match ops[0] {
        case Query(p) =>
          QueryTellsNobody(k, 0, p);
          NobodyIsTold(QueryFrom(k, 0, p), ops[1..]);
        case InjectEvent(e) =>
          InjectTellsNobody(k, 0, e);
          NobodyIsTold(InjectFrom(k, 0, e), ops[1..]);
        case LoadBindings(id, combos) =>
          if id in k.pressed {
            RemoveTellsNobody(k, id);
            CreateTellsNobody(RemoveAll(k, id), id, combos);
          }
          NobodyIsTold(Load(k, id, combos), ops[1..]);
      }
    }
  }

  lemma {:induction false} QueryTellsNobody(k: Keys, i: nat, p: Poll)
    requires Inv(k) && !k.delivers && i <= |k.bindings|
    ensures QueryFrom(k, i, p).log == k.log
    decreases |k.bindings| - i
  {
    if i < |k.bindings| {
      HandleInv(k, i, p);
      QueryTellsNobody(Handle(k, i, p), i + 1, p);
    }
  }

  lemma {:induction false} InjectTellsNobody(k: Keys, i: nat, e: Injection)
    requires Inv(k) && !k.delivers && i <= |k.bindings|
    ensures InjectFrom(k, i, e).log == k.log
    decreases |k.bindings| - i
  {
    if i < |k.bindings| {
      InjectInv(k, i, e);
      InjectTellsNobody(Inject(k, i, e), i + 1, e);
    }
  }

  lemma {:induction false} RemoveTellsNobody(k: Keys, hotkey: nat)
    requires Inv(k) && !k.delivers
    ensures RemoveAll(k, hotkey).log == k.log
    decreases |k.bindings|
  {
    var i := Find(k.bindings, hotkey);
    if i < |k.bindings| {
      assert k.bindings[i] in k.bindings;
      RemoveAtInv(k, i);
      RemoveTellsNobody(RemoveAt(k, i), hotkey);
    }
  }

  lemma {:induction false} CreateTellsNobody(k: Keys, hotkey: nat, combos: seq<(Key, bv32)>)
    requires Inv(k) && !k.delivers && hotkey in k.pressed
    ensures CreateAll(k, hotkey, combos).log == k.log
    decreases |combos|
  {
    if combos != [] {
      CreateInv(k, hotkey, combos[0].0, combos[0].1);
      CreateTellsNobody(Create(k, hotkey, combos[0].0, combos[0].1), hotkey, combos[1..]);
    }
  }

  // ----- What the keyboard has to do with it -----

  /** The modifiers held are those of the binding: just those, or at least those. */
  predicate Holds(b: Binding, modifiers: bv32, strict: bool) {
    if strict then modifiers == b.modifiers else modifiers | b.modifiers == modifiers
  }

  lemma PartJoins(a: bv32, m: bv32)
    ensures a & m == a ==> m | a == m
  {
  }

  lemma JoinedIsPart(a: bv32, m: bv32)
    ensures m | a == m ==> a & m == a
  {
  }

  lemma HoldsIfMatch(b: Binding, a: bv32, m: bv32, strict: bool)
    requires a == b.modifiers && ModifiersMatch(b, m, strict)
    ensures Holds(b, m, strict)
  {
    if !strict {
      PartJoins(a, m);
    }
  }

  lemma MatchIfHolds(b: Binding, a: bv32, m: bv32, strict: bool)
    requires a == b.modifiers && Holds(b, m, strict)
    ensures ModifiersMatch(b, m, strict)
  {
    if !strict {
      JoinedIsPart(a, m);
    }
  }

  lemma HoldsIff(b: Binding, modifiers: bv32, strict: bool)
    ensures ModifiersMatch(b, modifiers, strict) <==> Holds(b, modifiers, strict)
  {
    if ModifiersMatch(b, modifiers, strict) {
      HoldsIfMatch(b, b.modifiers, modifiers, strict);
    }
    if Holds(b, modifiers, strict) {
      MatchIfHolds(b, b.modifiers, modifiers, strict);
    }
  }

  /** The keyboard shows the binding: its modifiers, and its key, or without one some modifier. */
  predicate Shown(b: Binding, p: Poll) {
    Holds(b, p.modifiers, p.strict) && if b.key == NoKey then b.modifiers != 0 else b.key in p.down
  }

  /** A binding with a key needs its modifiers first, unless none are asked for. */
  predicate Armed(b: Binding, p: Poll) {
    b.key == NoKey || b.modifiersMatch || (!p.strict && b.modifiers == 0)
  }

  /** What a poll makes of a binding: pressed exactly when the keyboard shows it, its modifiers
      were there first, and it was pressed before or may be; and a binding with a key is armed
      for the next poll exactly when its modifiers are held in this one. */
  ghost predicate Polled(b: Binding, p: Poll, c: Binding) {
    && c == b.(pressed := c.pressed, modifiersMatch := c.modifiersMatch)
    && (c.pressed <==> Shown(b, p) && Armed(b, p) && (b.pressed || !p.noPress))
    && (b.key != NoKey ==> (c.modifiersMatch <==> Holds(b, p.modifiers, p.strict)))
  }

  lemma HandlePolls(k: Keys, i: nat, p: Poll)
    requires Known(k, i)
    ensures |Handle(k, i, p).bindings| == |k.bindings| && Polled(k.bindings[i], p, Handle(k, i, p).bindings[i])
    ensures forall j :: 0 <= j < |k.bindings| && j != i ==> Handle(k, i, p).bindings[j] == k.bindings[j]
  {
    HoldsIff(k.bindings[i], p.modifiers, p.strict);
  }

  lemma {:induction false} QueryFromPolls(k: Keys, i: nat, p: Poll)
    requires Inv(k) && i <= |k.bindings|
    ensures var r := QueryFrom(k, i, p);
            && |r.bindings| == |k.bindings|
            && (forall j :: 0 <= j < i ==> r.bindings[j] == k.bindings[j])
            && (forall j :: i <= j < |k.bindings| ==> Polled(k.bindings[j], p, r.bindings[j]))
    decreases |k.bindings| - i
  {
    if i < |k.bindings| {
      HandleInv(k, i, p);
      HandlePolls(k, i, p);
      QueryFromPolls(Handle(k, i, p), i + 1, p);
    }
  }

  /** A poll presses and releases every binding by the keyboard alone. */
  lemma QueryPolls(k: Keys, p: Poll, j: nat)
    requires Inv(k) && j < |k.bindings|
    ensures |QueryFrom(k, 0, p).bindings| == |k.bindings|
    ensures Polled(k.bindings[j], p, QueryFrom(k, 0, p).bindings[j])
  {
    QueryFromPolls(k, 0, p);
  }

  /** Over two polls: a binding with a key is pressed after the second exactly when its key and
      modifiers are down in it, the modifiers were down in the first, or none are asked for, and
      it was pressed after the first or may be. So a key that is down before its modifiers
      presses nothing. */
  lemma KeyNeedsModifiersFirst(k: Keys, p: Poll, q: Poll, j: nat)
    requires Inv(k) && j < |k.bindings| && k.bindings[j].key != NoKey
    ensures var mid := QueryFrom(k, 0, p);
            var end := QueryFrom(mid, 0, q);
            && |mid.bindings| == |k.bindings| == |end.bindings|
            && var b := k.bindings[j];
               end.bindings[j].pressed <==>
                 && b.key in q.down && Holds(b, q.modifiers, q.strict)
                 && (Holds(b, p.modifiers, p.strict) || (!q.strict && b.modifiers == 0))
                 && (mid.bindings[j].pressed || !q.noPress)
  {
    QueryPolls(k, p, j);
    var mid := QueryFrom(k, 0, p);
    QueryPolls(mid, q, j);
    PolledTwice(k.bindings[j], p, mid.bindings[j], q, QueryFrom(mid, 0, q).bindings[j]);
  }

  lemma PolledTwice(b: Binding, p: Poll, c: Binding, q: Poll, d: Binding)
    requires Polled(b, p, c) && Polled(c, q, d) && b.key != NoKey
    ensures d.pressed <==>
              && b.key in q.down && Holds(b, q.modifiers, q.strict)
              && (Holds(b, p.modifiers, p.strict) || (!q.strict && b.modifiers == 0))
              && (c.pressed || !q.noPress)
  {
  }

  /** An injected event presses what it fits, and releases nothing. */
  ghost predicate Injected(b: Binding, e: Injection, c: Binding) {
    var fits := Holds(b, e.modifiers, e.strict) && (b.key == NoKey || (e.pressed && b.key == e.key));
    c == b.(pressed := b.pressed || fits, modifiersMatch := b.modifiersMatch || fits)
  }

  lemma InjectOne(k: Keys, i: nat, e: Injection)
    requires Known(k, i)
    ensures |Inject(k, i, e).bindings| == |k.bindings| && Injected(k.bindings[i], e, Inject(k, i, e).bindings[i])
    ensures forall j :: 0 <= j < |k.bindings| && j != i ==> Inject(k, i, e).bindings[j] == k.bindings[j]
  {
    HoldsIff(k.bindings[i], e.modifiers, e.strict);
  }

  lemma {:induction false} InjectFromPresses(k: Keys, i: nat, e: Injection)
    requires Inv(k) && i <= |k.bindings|
    ensures var r := InjectFrom(k, i, e);
            && |r.bindings| == |k.bindings|
            && (forall j :: 0 <= j < i ==> r.bindings[j] == k.bindings[j])
            && (forall j :: i <= j < |k.bindings| ==> Injected(k.bindings[j], e, r.bindings[j]))
    decreases |k.bindings| - i
  {
    if i < |k.bindings| {
      InjectInv(k, i, e);
      InjectOne(k, i, e);
      InjectFromPresses(Inject(k, i, e), i + 1, e);
    }
  }

  lemma InjectPresses(k: Keys, e: Injection, j: nat)
    requires Inv(k) && j < |k.bindings|
    ensures |InjectFrom(k, 0, e).bindings| == |k.bindings|
    ensures Injected(k.bindings[j], e, InjectFrom(k, 0, e).bindings[j])
  {
    InjectFromPresses(k, 0, e);
  }

  /** The bindings of all other hotkeys. */
  function Others(bs: seq<Binding>, hotkey: nat): seq<Binding> {
    if bs == [] then [] else (if bs[0].hotkey == hotkey then [] else [bs[0]]) + Others(bs[1..], hotkey)
  }

  function NewBindings(combos: seq<(Key, bv32)>, hotkey: nat): (bs: seq<Binding>)
    ensures |bs| == |combos|
  {
    seq(|combos|, i requires 0 <= i < |combos| => Binding(combos[i].0, combos[i].1, hotkey, false, false))
  }

  lemma {:induction false} OthersAppend(a: seq<Binding>, b: seq<Binding>, hotkey: nat)
    ensures Others(a + b, hotkey) == Others(a, hotkey) + Others(b, hotkey)
  {
    if a == [] {
      assert a + b == b;
    } else {
      OthersAppend(a[1..], b, hotkey);
      assert (a + b)[1..] == a[1..] + b;
      Assoc(if a[0].hotkey == hotkey then [] else [a[0]], Others(a[1..], hotkey), Others(b, hotkey));
    }
  }

  lemma {:induction false} OthersOfOthers(bs: seq<Binding>, hotkey: nat)
    requires forall b <- bs :: b.hotkey != hotkey
    ensures Others(bs, hotkey) == bs
  {
    if bs != [] {
      assert bs[0] in bs && forall b <- bs[1..] :: b in bs;
      OthersOfOthers(bs[1..], hotkey);
    }
  }

  lemma RemoveAtKeepsOthers(k: Keys, i: nat, hotkey: nat)
    requires Known(k, i) && k.bindings[i].hotkey == hotkey
    ensures Others(RemoveAt(k, i).bindings, hotkey) == Others(k.bindings, hotkey)
  {
    var bs := k.bindings;
    assert RemoveAt(k, i).bindings == bs[..i] + bs[i + 1..];
    assert bs == bs[..i] + ([bs[i]] + bs[i + 1..]);
    OthersAppend(bs[..i], bs[i + 1..], hotkey);
    OthersAppend(bs[..i], [bs[i]] + bs[i + 1..], hotkey);
    OthersAppend([bs[i]], bs[i + 1..], hotkey);
    assert [bs[i]][1..] == [];
  }

  lemma {:induction false} RemoveAllKeepsOthers(k: Keys, hotkey: nat)
    requires Inv(k)
    ensures RemoveAll(k, hotkey).bindings == Others(k.bindings, hotkey)
    decreases |k.bindings|
  {
    var i := Find(k.bindings, hotkey);
    if i == |k.bindings| {
      OthersOfOthers(k.bindings, hotkey);
    } else {
      assert k.bindings[i] in k.bindings;
      RemoveAtInv(k, i);
      RemoveAtKeepsOthers(k, i, hotkey);
      RemoveAllKeepsOthers(RemoveAt(k, i), hotkey);
    }
  }

  lemma {:induction false} CreateAllAppends(k: Keys, hotkey: nat, combos: seq<(Key, bv32)>)
    requires Inv(k) && hotkey in k.pressed
    ensures CreateAll(k, hotkey, combos).bindings == k.bindings + NewBindings(combos, hotkey)
    decreases |combos|
  {
    if combos != [] {
      CreateInv(k, hotkey, combos[0].0, combos[0].1);
      var u := Create(k, hotkey, combos[0].0, combos[0].1);
      CreateAllAppends(u, hotkey, combos[1..]);
      assert NewBindings(combos, hotkey)
             == [Binding(combos[0].0, combos[0].1, hotkey, false, false)] + NewBindings(combos[1..], hotkey);
    }
  }

  /** Loading leaves the bindings of the other hotkeys in their order, and behind them the new
      ones, neither pressed nor armed. */
  lemma LoadReplaces(k: Keys, hotkey: nat, combos: seq<(Key, bv32)>)
    requires Inv(k)
    ensures Load(k, hotkey, combos).bindings
            == if hotkey in k.pressed then Others(k.bindings, hotkey) + NewBindings(combos, hotkey) else k.bindings
  {
    if hotkey in k.pressed {
      RemoveAllKeepsOthers(k, hotkey);
      CreateAllAppends(RemoveAll(k, hotkey), hotkey, combos);
    }
  }

  /** Registered hotkeys with no bindings, and nothing told yet. */
  function Registered(ids: set<nat>, delivers: bool): Keys {
    Keys([], map id | id in ids :: 0, [], delivers)
  }

  /** Over any run of polls, injected events and loaded bindings, with fixed routing: each
      hotkey's count is the number of its pressed bindings, and its callback is told press and
      release in strict alternation, beginning with a press, the last being a press exactly
      while some binding is pressed. */
  lemma CallbacksAlternate(ids: set<nat>, ops: seq<Op>, id: nat)
    requires id in ids
    ensures Inv(Registered(ids, true))
    ensures var k := Run(Registered(ids, true), ops);
            && id in k.pressed && k.pressed[id] == Count(k.bindings, id)
            && Alternates(Heard(k.log, id)) && (|Heard(k.log, id)| % 2 == 1 <==> Count(k.bindings, id) > 0)
  {
    var k0 := Registered(ids, true);
    assert k0.log == [] && Heard([], id) == [];
    assert Inv(k0);
    var k := Run(k0, ops);
    assert id in k.pressed;
  }

  /** The operations on the fields. */
  class HotkeyTable {
    var bindings: seq<Binding>
    var pressed: map<nat, int>
    var log: seq<Event>
    const delivers: bool

    function View(): Keys
      reads this
    {
      Keys(bindings, pressed, log, delivers)
    }

    ghost predicate Valid()
      reads this
    {
      Inv(View())
    }

    constructor (ids: set<nat>, delivers: bool)
      ensures View() == Registered(ids, delivers) && Valid()
    {
      bindings, pressed, log := [], map id | id in ids :: 0, [];
      this.delivers := delivers;
    }

    method PressReleasedBinding(i: nat)
      requires Known(View(), i)
      modifies this
      ensures View() == Press(old(View()), i)
    {
      var id := bindings[i].hotkey;
      bindings := bindings[i := bindings[i].(pressed := true)];
      var was := pressed[id];
      pressed := pressed[id := was + 1];
      if was != 0 {
        return;
      }
      if delivers {
        log := log + [Event(id, true)];
      }
    }

    method ReleasePressedBinding(i: nat)
      requires Known(View(), i)
      modifies this
      ensures View() == Release(old(View()), i)
    {
      var id := bindings[i].hotkey;
      bindings := bindings[i := bindings[i].(pressed := false)];
      pressed := pressed[id := pressed[id] - 1];
      if pressed[id] != 0 {
        return;
      }
      if delivers {
        log := log + [Event(id, false)];
      }
    }

    method HandleBinding(i: nat, p: Poll)
      requires Known(View(), i)
      modifies this
      ensures View() == Handle(old(View()), i, p)
    {
      var b := bindings[i];
      var matches := ModifiersMatch(b, p.modifiers, p.strict);
      var modifiersOnly := b.key == NoKey;
      if !p.strict && b.modifiers == 0 {
        bindings := bindings[i := b.(modifiersMatch := true)];
      }
      var reset := false;
      if b.modifiers == 0 && modifiersOnly {
        reset := true;
      } else if (!bindings[i].modifiersMatch && !modifiersOnly) || !matches {
        reset := true;
      } else if !modifiersOnly && b.key !in p.down {
        reset := true;
      }
      if !reset {
        if b.pressed || p.noPress {
          return;
        }
        PressReleasedBinding(i);
        return;
      }
      bindings := bindings[i := bindings[i].(modifiersMatch := matches)];
      if !b.pressed {
        return;
      }
      ReleasePressedBinding(i);
    }

    method QueryHotkeys(p: Poll)
      requires Valid()
      modifies this
      ensures View() == QueryFrom(old(View()), 0, p) && Valid()
    {
      var i := 0;
      while i < |bindings|
        invariant i <= |bindings| && Valid() && QueryFrom(View(), i, p) == QueryFrom(old(View()), 0, p)
        decreases |bindings| - i
      {
        HandleInv(View(), i, p);
        HandleBinding(i, p);
        i := i + 1;
      }
    }

    method InjectHotkeyEvent(e: Injection)
      requires Valid()
      modifies this
      ensures View() == InjectFrom(old(View()), 0, e) && Valid()
    {
      var i := 0;
      while i < |bindings|
        invariant i <= |bindings| && Valid() && InjectFrom(View(), i, e) == InjectFrom(old(View()), 0, e)
        decreases |bindings| - i
      {
        InjectInv(View(), i, e);
        var b := bindings[i];
        if ModifiersMatch(b, e.modifiers, e.strict) {
          var press := b.key == e.key && e.pressed;
          if b.key == NoKey {
            press := true;
          }
          if press {
            bindings := bindings[i := b.(modifiersMatch := true)];
            if !b.pressed {
              PressReleasedBinding(i);
            }
          }
        }
        i := i + 1;
      }
    }

    method FindBinding(id: nat) returns (i: nat)
      ensures i == Find(bindings, id)
    {
      i := 0;
      while i < |bindings| && bindings[i].hotkey != id
        invariant i <= |bindings| && forall j :: 0 <= j < i ==> bindings[j].hotkey != id
      {
        i := i + 1;
      }
    }

    method RemoveBindings(id: nat) returns (removed: bool)
      requires Valid()
      modifies this
      ensures View() == RemoveAll(old(View()), id) && Valid()
      ensures removed <==> old(Find(bindings, id) < |bindings|)
    {
      removed := false;
      var i := FindBinding(id);
      while i < |bindings|
        invariant Valid() && i == Find(bindings, id) && RemoveAll(View(), id) == RemoveAll(old(View()), id)
        invariant removed || View() == old(View())
        invariant removed ==> old(Find(bindings, id) < |bindings|)
        decreases |bindings|
      {
        assert bindings[i] in bindings;
        RemoveAtInv(View(), i);
        if bindings[i].pressed {
          ReleasePressedBinding(i);
        }
        bindings := bindings[..i] + bindings[i + 1..];
        removed := true;
        i := FindBinding(id);
      }
    }

    method LoadHotkeyBindings(id: nat, combos: seq<(Key, bv32)>)
      requires Valid()
      modifies this
      ensures View() == Load(old(View()), id, combos) && Valid()
    {
      if id !in pressed {
        return;
      }
      var changed := RemoveBindings(id);
      ghost var k := View();
      var i := 0;
      assert combos[0..] == combos;
      while i < |combos|
        invariant i <= |combos| && Valid() && id in pressed
        invariant CreateAll(View(), id, combos[i..]) == CreateAll(k, id, combos)
      {
        CreateInv(View(), id, combos[i].0, combos[i].1);
        assert combos[i..][1..] == combos[i + 1..];
        bindings := bindings + [Binding(combos[i].0, combos[i].1, id, false, false)];
        i := i + 1;
      }
    }
  }

  // ----- A hotkey pair -----

  datatype Pair = Pair(pressed0: bool, pressed1: bool)

  /** obs_hotkey_pair_first_func; `accepts` is what the first function returns, if asked. */
  function First(p: Pair, pressed: bool, accepts: bool): Pair {
    if p.pressed1 then p
    else if p.pressed0 && !pressed then p.(pressed0 := false)
    else if accepts then p.(pressed0 := pressed) else p
  }

  /** obs_hotkey_pair_second_func */
  function Second(p: Pair, pressed: bool, accepts: bool): Pair {
    if p.pressed0 then p
    else if p.pressed1 && !pressed then p.(pressed1 := false)
    else if accepts then p.(pressed1 := pressed) else p
  }

  datatype PairCall = PairCall(second: bool, pressed: bool, accepts: bool)

  function PairRun(p: Pair, calls: seq<PairCall>): Pair
    decreases |calls|
  {
    if calls == [] then p
    else
      var c := calls[0];
      PairRun(if c.second then Second(p, c.pressed, c.accepts) else First(p, c.pressed, c.accepts), calls[1..])
  }

  /** Whatever the callbacks answer, the two halves of a pair are never pressed together. */
  lemma {:induction false} PairExclusive(p: Pair, calls: seq<PairCall>)
    requires !(p.pressed0 && p.pressed1)
    ensures !(PairRun(p, calls).pressed0 && PairRun(p, calls).pressed1)
    decreases |calls|
  {
    if calls != [] {
      var c := calls[0];
      PairExclusive(if c.second then Second(p, c.pressed, c.accepts) else First(p, c.pressed, c.accepts), calls[1..]);
    }
  }

  lemma {:induction false} PairRunSnoc(p: Pair, calls: seq<PairCall>, c: PairCall)
    ensures PairRun(p, calls + [c]) == PairRun(PairRun(p, calls), [c])
    decreases |calls|
  {
    if calls == [] {
      assert calls + [c] == [c];
    } else {
      assert (calls + [c])[1..] == calls[1..] + [c];
      var d := calls[0];
      PairRunSnoc(if d.second then Second(p, d.pressed, d.accepts) else First(p, d.pressed, d.accepts), calls[1..], c);
    }
  }

  /** Call i presses this half, accepted while the other half was up, and no later call on the
      half lets it go. */
  ghost predicate StillPressed(calls: seq<PairCall>, second: bool, i: nat) {
    && i < |calls| && calls[i] == PairCall(second, true, true)
    && (var p := PairRun(Pair(false, false), calls[..i]); !(if second then p.pressed0 else p.pressed1))
    && forall j :: i < j < |calls| && calls[j].second == second ==> calls[j].pressed
  }

  /** From a pair with both halves up: a half is pressed exactly while such a call holds it. */
  lemma {:induction false} PairPressedIff(calls: seq<PairCall>, second: bool)
    ensures var p := PairRun(Pair(false, false), calls);
            (if second then p.pressed1 else p.pressed0) <==> exists i: nat :: StillPressed(calls, second, i)
    decreases |calls|
  {
    if calls != [] {
      var n := |calls| - 1;
      var before, c := calls[..n], calls[n];
      PairPressedIff(before, second);
      PairPressedIff(before, !second);
      PairExclusive(Pair(false, false), before);
      assert calls == before + [c];
      PairRunSnoc(Pair(false, false), before, c);
      assert [c][1..] == [];
      forall i: nat | i < n
        ensures StillPressed(calls, second, i)
                <==> StillPressed(before, second, i) && (c.second == second ==> c.pressed) {
        assert before[..i] == calls[..i];
      }
      assert StillPressed(calls, second, n) <==>
          c == PairCall(second, true, true) && var p := PairRun(Pair(false, false), before);
                                               !(if second then p.pressed0 else p.pressed1);
    }
  }
}

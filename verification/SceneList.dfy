/** The doubly linked list of scene items in libobs/obs-scene.c. `items` is the list the
    links stand for, bottom item first. */
module SceneList {

  datatype Movement = MoveUp | MoveDown | MoveTop | MoveBottom

  /** A list with the element at k taken out. */
  function Without<T>(s: seq<T>, k: nat): (r: seq<T>)
    requires k < |s|
    ensures |r| == |s| - 1
  {
    s[..k] + s[k + 1..]
  }

  /** A list with x put in at position p. */
  function With<T>(s: seq<T>, p: nat, x: T): (r: seq<T>)
    requires p <= |s|
    ensures |r| == |s| + 1
  {
    s[..p] + [x] + s[p..]
  }

  /** Where a movement takes the item at k of n. */
  function Target(m: Movement, k: nat, n: nat): (p: nat)
    requires k < n
    ensures p < n
  {
    match m
    case MoveDown => if k == 0 then 0 else k - 1
    case MoveUp => if k == n - 1 then k else k + 1
    case MoveTop => n - 1
    case MoveBottom => 0
  }

  /** Where a requested position takes an item of n. */
  function TargetPosition(position: int, n: nat): (p: nat)
    requires n > 0
    ensures p < n
  {
    if position == 0 || n == 1 then 0 else if position < 1 then 1 else if position < n then position else n - 1
  }

  /** Up and down are one step towards where top and bottom lead, and none from there. */
  lemma MovesLead(k: nat, n: nat)
    requires k < n
    ensures forall m: Movement :: Target(m, k, n) == k <==> if m.MoveUp? || m.MoveTop? then k == n - 1 else k == 0
    ensures k < n - 1 ==> Target(MoveUp, k, n) == k + 1 && Target(MoveDown, k + 1, n) == k
    ensures Target(MoveTop, k, n) == n - 1 && Target(MoveBottom, k, n) == 0
  {
  }

  /** A position that is there is taken as it is; past the end is last; below zero is second. */
  lemma PositionIsTaken(position: int, n: nat)
    requires n > 0
    ensures var p := TargetPosition(position, n);
            && (0 <= position < n ==> p == position) && (position >= n ==> p == n - 1)
            && (position < 0 ==> p == if n == 1 then 0 else 1)
  {
  }

  /** A move leaves the moved item at its target and the others in their old relative order. */
  lemma MoveKeepsOthers<T>(s: seq<T>, k: nat, p: nat)
    requires k < |s| && p < |s|
    ensures var r := With(Without(s, k), p, s[k]);
            r[p] == s[k] && Without(r, p) == Without(s, k) && multiset(r) == multiset(s) && |r| == |s|
  {
    var w := Without(s, k);
    var r := With(w, p, s[k]);
    assert r[..p] == w[..p] && r[p + 1..] == w[p..];
    assert s == s[..k] + [s[k]] + s[k + 1..];
    assert w == w[..p] + w[p..];
    assert multiset(r) == multiset(w[..p]) + multiset{s[k]} + multiset(w[p..]);
    assert multiset(w) + multiset{s[k]} == multiset(s);
  }

  predicate Distinct<T(==)>(s: seq<T>) {
    forall i, j :: 0 <= i < j < |s| ==> s[i] != s[j]
  }

  lemma OthersStay<T>(items: seq<T>, arr: seq<T>, i: nat, y: T)
    requires Distinct(items) && items != [] && i < |arr| && arr[i] == items[0]
    requires y in items[1..] && forall x <- items :: x in arr
    ensures y in Without(arr, i)
  {
    var j :| 0 <= j < |items| - 1 && items[1..][j] == y;
    assert items[j + 1] == y && y in items && items[0] != items[j + 1];
    var a :| 0 <= a < |arr| && arr[a] == y;
    assert Without(arr, i)[if a < i then a else a - 1] == y;
  }

  /** A list without repeats that is found whole in an array of its own length is a
      rearrangement of it: nothing else fits, and nothing can be there twice. */
  lemma {:induction false} Pigeonhole<T>(items: seq<T>, arr: seq<T>)
    requires Distinct(items) && |arr| == |items| && forall x <- items :: x in arr
    ensures multiset(arr) == multiset(items)
    decreases |items|
  {
    if items != [] {
      var x, rest := items[0], items[1..];
      assert x in items;
      var i :| 0 <= i < |arr| && arr[i] == x;
      var left := Without(arr, i);
      forall y <- rest ensures y in left {
        OthersStay(items, arr, i, y);
      }
      Pigeonhole(rest, left);
      assert arr == arr[..i] + [x] + arr[i + 1..];
      assert items == [x] + rest;
    }
  }

  lemma PermutationIsDistinct<T>(items: seq<T>, arr: seq<T>)
    requires Distinct(items) && multiset(arr) == multiset(items)
    ensures Distinct(arr) && |arr| == |items| && (forall x <- items :: x in arr) && (forall x <- arr :: x in items)
    decreases |items|
  {
    assert |multiset(arr)| == |multiset(items)|;
    assert forall x <- items :: x in multiset(arr);
    assert forall x <- arr :: x in multiset(items);
    forall i, j | 0 <= i < j < |arr| ensures arr[i] != arr[j] {
      if arr[i] == arr[j] {
        assert arr == arr[..i] + [arr[i]] + arr[i + 1..j] + [arr[j]] + arr[j + 1..];
        assert multiset(arr)[arr[i]] >= 2;
        OnceInDistinct(items, arr[i]);
      }
    }
  }

  lemma {:induction false} OnceInDistinct<T>(items: seq<T>, x: T)
    requires Distinct(items)
    ensures multiset(items)[x] <= 1
  {
    if items != [] {
      OnceInDistinct(items[1..], x);
      assert items == [items[0]] + items[1..];
      if items[0] == x {
        assert x !in items[1..];
      }
    }
  }

  class Item {
    var prev: Item?
    var next: Item?
    var parent: Scene?
  }

  class Scene {
    var first: Item?
    ghost var items: seq<Item>

    ghost predicate Linked(i: nat)
      reads this, items
      requires i < |items|
    {
      && items[i].prev == (if i == 0 then null else items[i - 1])
      && items[i].next == (if i == |items| - 1 then null else items[i + 1])
      && items[i].parent == this
    }

    ghost predicate Valid()
      reads this, items
    {
      && first == (if items == [] then null else items[0])
      && (forall i :: 0 <= i < |items| ==> Linked(i))
      && (forall i, j :: 0 <= i < j < |items| ==> items[i] != items[j])
    }

    /** detach_sceneitem: the item's own links are left as they were. */
    method Detach(item: Item, ghost k: nat)
      requires Valid() && k < |items| && items[k] == item
      modifies this, items
      ensures Valid() && items == Without(old(items), k)
      ensures item.prev == old(item.prev) && item.next == old(item.next) && item.parent == null && item !in items
    {
      assert Linked(k);
      if k > 0 { assert Linked(k - 1); }
      if k < |items| - 1 { assert Linked(k + 1); }
      if item.prev != null {
        item.prev.next := item.next;
      } else {
        first := item.next;
      }
      if item.next != null {
        item.next.prev := item.prev;
      }
      item.parent := null;
      items := Without(items, k);
      forall i | 0 <= i < |items| ensures Linked(i) {
        assert old(Linked(if i < k then i else i + 1));
      }
    }

    /** attach_sceneitem: behind prev, or at the front. */
    method Attach(item: Item, prev: Item?, ghost p: nat)
      requires Valid() && item !in items && p <= |items| && prev == (if p == 0 then null else items[p - 1])
      modifies this, items, item
      ensures Valid() && items == With(old(items), p, item)
    {
      if p > 0 { assert Linked(p - 1); }
      if p < |items| { assert Linked(p); }
      item.prev := prev;
      item.parent := this;
      if prev != null {
        item.next := prev.next;
        if prev.next != null {
          prev.next.prev := item;
        }
        prev.next := item;
      } else {
        item.next := first;
        if first != null {
          first.prev := item;
        }
        first := item;
      }
      items := With(items, p, item);
      forall i | 0 <= i < |items| ensures Linked(i) {
        assert i != p ==> old(Linked(if i < p then i else i - 1));
      }
    }

    /** The walk to the end that moving to the top does, from the links of a detached item. */
    method LastItem(next: Item?, prev: Item?, ghost k: nat) returns (last: Item?)
      requires Valid() && k <= |items|
      requires next == (if k < |items| then items[k] else null) && prev == (if k == 0 then null else items[k - 1])
      ensures last == if items == [] then null else items[|items| - 1]
    {
      last := next;
      if last == null {
        last := prev;
      } else {
        ghost var i := k;
        assert Linked(i);
        while last.next != null
          invariant k <= i < |items| && last == items[i] && Linked(i)
          decreases |items| - i
        {
          last := last.next;
          i := i + 1;
          assert Linked(i);
        }
      }
    }

    /** obs_sceneitem_set_order */
    method SetOrder(item: Item, movement: Movement, ghost k: nat)
      requires Valid() && k < |items| && items[k] == item
      modifies this, items
      ensures Valid() && items == With(Without(old(items), k), Target(movement, k, |old(items)|), item)
    {
      assert Linked(k);
      var next, prev := item.next, item.prev;
      ghost var p := Target(movement, k, |items|);
      Detach(item, k);
      var behind: Item? := null;
      match movement {
        case MoveDown =>
          if k > 0 { assert Linked(k - 1); }
          behind := if prev != null then prev.prev else null;
        case MoveUp =>
          behind := if next != null then next else prev;
        case MoveTop =>
          behind := LastItem(next, prev, k);
        case MoveBottom =>
      }
      Attach(item, behind, p);
    }

    /** obs_sceneitem_set_order_position. With a single item and a position above 1 the
        source follows a null pointer, so its callers may not ask for that. */
    method SetOrderPosition(item: Item, position: int, ghost k: nat)
      requires Valid() && k < |items| && items[k] == item
      requires |items| >= 2 || position <= 1
      modifies this, items
      ensures Valid() && items == With(Without(old(items), k), TargetPosition(position, |old(items)|), item)
    {
      Detach(item, k);
      var next := first;
      if position == 0 {
        Attach(item, null, 0);
      } else {
        var i := position;
        ghost var p := 0;
        while i > 1
          invariant if items == [] then next == null else p < |items| && next == items[p]
          invariant if position < 1 then i == position && p == 0 else i >= 1 && p == position - i
          decreases i
        {
          assert Linked(p);
          if next.next == null {
            break;
          }
          next := next.next;
          p := p + 1;
          i := i - 1;
        }
        Attach(item, next, if |items| == 0 then 0 else p + 1);
      }
    }

    /** sceneitems_match: the array holds exactly the items of the list; and whether in order. */
    method ItemsMatch(arr: seq<Item?>) returns (same: bool, orderMatches: bool)
      requires Valid()
      ensures same <==> multiset(arr) == multiset(Nullable(items))
      ensures same ==> (orderMatches <==> arr == Nullable(items))
    {
      ghost var list := Nullable(items);
      orderMatches := true;
      var item := first;
      var count := 0;
      while item != null
        invariant count <= |items| && item == (if count == |items| then null else items[count])
        invariant forall j :: 0 <= j < count ==> list[j] in arr
        invariant orderMatches <==> forall j :: 0 <= j < count ==>
                  j < |arr| && arr[j] == list[j] && list[j] !in arr[..j]
        decreases |items| - count
      {
        assert Linked(count);
        var i := 0;
        while i < |arr| && arr[i] != item
          invariant i <= |arr| && item !in arr[..i]
        {
          i := i + 1;
        }
        if i == |arr| {
          assert list[count] in list && list[count] !in arr;
          assert list[count] in multiset(list) && list[count] !in multiset(arr);
          return false, orderMatches;
        }
        if count != i {
          orderMatches := false;
        }
        item := item.next;
        count := count + 1;
      }
      same := count == |arr|;
      if same {
        Pigeonhole(list, arr);
        PermutationIsDistinct(list, arr);
      } else {
        assert |multiset(arr)| == |arr| && |multiset(list)| == |list|;
      }
    }

    /** The loop of obs_scene_reorder_items: link every item in array order. */
    static method LinkInOrder(order: seq<Item>, ghost all: seq<Item>)
      requires Distinct(order) && forall j :: 0 <= j < |order| ==> order[j] in all
      modifies all
      ensures forall j {:trigger order[j].prev} :: 0 <= j < |order| ==>
              order[j].prev == if j == 0 then null else order[j - 1]
      ensures forall j {:trigger order[j].next} :: 0 <= j < |order| - 1 ==> order[j].next == order[j + 1]
      ensures order != [] ==> order[|order| - 1].next == null
      ensures forall x <- order :: x.parent == old(x.parent)
    {
      var prev: Item? := null;
      for i := 0 to |order|
        invariant prev == (if i == 0 then null else order[i - 1])
        invariant forall j {:trigger order[j].prev} :: 0 <= j < i ==>
                  order[j].prev == if j == 0 then null else order[j - 1]
        invariant forall j {:trigger order[j].next} :: 0 <= j < i - 1 ==> order[j].next == order[j + 1]
        invariant i > 0 ==> order[i - 1].next == null
        invariant forall x <- order :: x.parent == old(x.parent)
      {
        var item := order[i];
        assert item in all && (i > 0 ==> order[i - 1] in all);
        label Before:
        item.prev := prev;
        item.next := null;
        if prev != null {
          prev.next := item;
        }
        forall j | 0 <= j < i
          ensures order[j].prev == if j == 0 then null else order[j - 1]
          ensures j < i - 1 ==> order[j].next == order[j + 1] {
          assert order[j] != item && (j < i - 1 ==> order[j] != order[i - 1]);
          assert old@Before(order[j].prev) == if j == 0 then null else order[j - 1];
          assert j < i - 1 ==> old@Before(order[j].next) == order[j + 1];
        }
        prev := item;
      }
    }

    /** The end of obs_scene_reorder_items. */
    method Relink(order: seq<Item>)
      requires Valid() && order != [] && multiset(order) == multiset(items)
      modifies this, items
      ensures Valid() && items == order
    {
      PermutationIsDistinct(items, order);
      forall x <- order ensures x in items && x.parent == this {
        var k :| 0 <= k < |items| && items[k] == x;
        assert Linked(k);
      }
      first := order[0];
      LinkInOrder(order, items);
      items := order;
      forall i | 0 <= i < |items| ensures Linked(i) {
        var x := order[i];
        assert x in order && x.prev == (if i == 0 then null else order[i - 1]);
        assert x.next == (if i == |order| - 1 then null else order[i + 1]);
      }
    }

    /** obs_scene_reorder_items: true, and the list is in the array's order, exactly when the
        array is a rearrangement of the list that differs from it. */
    method ReorderItems(arr: seq<Item?>) returns (done: bool)
      requires Valid()
      modifies this, items
      ensures Valid()
      ensures done <==> arr != [] && multiset(arr) == multiset(old(Nullable(items))) && arr != old(Nullable(items))
      ensures if done then Nullable(items) == arr else items == old(items)
    {
      if arr == [] {
        return false;
      }
      var matches, inOrder := ItemsMatch(arr);
      if !matches || inOrder {
        return false;
      }
      PermutationIsDistinct(Nullable(items), arr);
      forall i | 0 <= i < |arr| ensures arr[i] != null {
        assert arr[i] in arr;
        var k :| 0 <= k < |items| && Nullable(items)[k] == arr[i];
      }
      var order: seq<Item> := arr;
      assert forall x: Item ::
               multiset(order)[x] == multiset(arr)[x] == multiset(Nullable(items))[x] == multiset(items)[x];
      Relink(order);
      done := true;
    }
  }

  /** The items, as the references a list is linked by. */
  ghost function Nullable(items: seq<Item>): (r: seq<Item?>)
    ensures r == items
  {
    items
  }
}

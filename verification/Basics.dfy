/** What several of the modules share: a type for divisors, an optional value, and facts
    about rounded division. */
module Basics {

  type pos = x: int | x > 0 witness 1

  datatype Option<T> = None | Some(value: T)

  lemma FloorBounds(x: int, d: pos)
    ensures x / d * d <= x < x / d * d + d
  {
  }

  lemma FloorMonotone(x: int, y: int, d: pos)
    requires x <= y
    ensures x / d <= y / d
  {
    FloorBounds(x, d);
    FloorBounds(y, d);
    var p, q := x / d, y / d;
    assert q < p ==> (q + 1) * d <= p * d;
  }

  lemma DivOfSum(a: int, b: int, d: pos)
    ensures (a * d + b) / d == a + b / d
  {
    var x, y, e: int := (a * d + b) / d, a + b / d, d;
    FloorBounds(a * d + b, d);
    FloorBounds(b, d);
    assert a * d + b == x * e + (a * d + b) % d;
    assert b == b / d * e + b % d;
    assert (x - y) * e == b % d - (a * d + b) % d;
    assert x - y >= 1 ==> (x - y) * e >= e;
    assert x - y <= -1 ==> (x - y) * e <= -e;
  }

  lemma MulSign(d: int, i: pos)
    ensures d * i <= 0 <==> d <= 0
    ensures d * i == 0 <==> d == 0
  {
  }

  lemma Distribute(a: int, b: int, i: int)
    ensures (a + b) * i == a * i + b * i
  {
  }
}

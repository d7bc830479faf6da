/** Multiples and remainders. */
module Arithmetic {

  lemma MultiplesAdd(a: int, b: int, w: int)
    requires w > 0 && a % w == 0 && b % w == 0
    ensures (a + b) % w == 0 && (a - b) % w == 0
  {
    SumOfMultiples(a / w, b / w, w);
    assert a == a / w * w && b == b / w * w;
  }

  lemma SumOfMultiples(k: int, l: int, w: int)
    requires w > 0
    ensures (k * w + l * w) % w == 0 && (k * w - l * w) % w == 0
  {
    MultipleOf(k + l, w);
    MultipleOf(k - l, w);
    assert (k + l) * w == k * w + l * w && (k - l) * w == k * w - l * w;
  }

  lemma MultipleOf(k: int, w: int)
    requires w > 0
    ensures (k * w) % w == 0
  {
    Remainder(k, 0, w);
  }

  lemma AtLeastOne(k: int, w: int)
    requires w > 0
    ensures k >= 1 ==> k * w >= w
    ensures k <= -1 ==> k * w <= -w
  {
  }

  lemma NextWraps(x: int, n: int)
    requires n > 0
    ensures (x + 1) % n == if x % n + 1 >= n then 0 else x % n + 1
  {
    var q, r := x / n, x % n;
    if r + 1 < n {
      Remainder(q, r + 1, n);
    } else {
      assert x + 1 == (q + 1) * n;
      Remainder(q + 1, 0, n);
    }
  }

  lemma Remainder(q: int, r: int, n: int)
    requires 0 <= r < n
    ensures (q * n + r) % n == r
  {
    var x := q * n + r;
    assert (x / n - q) * n == r - x % n;
    AtLeastOne(x / n - q, n);
  }

  lemma AddMod(a: int, e: int, m: int)
    requires 0 < m
    ensures (a % m + e) % m == (a + e) % m
  {
    var q, p := a / m, (a + e) / m;
    var r, s := (a % m + e) % m, (a + e) % m;
    var t := (a % m + e) / m;
    assert a % m + e == t * m + r;
    assert a + e == p * m + s;
    assert a == q * m + a % m;
    assert r - s == (p - q - t) * m by {
      assert (p - q - t) * m == p * m - q * m - t * m;
    }
    AtLeastOne(p - q - t, m);
  }
}

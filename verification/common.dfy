/** Shared value types. */
module Common {
  datatype Option<+T> = None | Some(value: T)
}

/** Searching strings. */
module Strings {
  // strchr and indexOf; |s| when the character does not occur.
  function IndexOf(s: string, c: char): (i: nat)
    ensures i <= |s| && (i < |s| ==> s[i] == c) && forall j :: 0 <= j < i ==> s[j] != c
  {
    if s == [] || s[0] == c then 0 else 1 + IndexOf(s[1..], c)
  }
}

/** Floor division and products, the only nonlinear facts the models need. */
module Arithmetic {
  lemma Distribute(a: int, b: int, d: int)
    ensures (b - a) * d == b * d - a * d
  {
  }

  lemma ProductGrows(n: int, d: int)
    requires n > 0 && d > 0
    ensures n * d >= d
  {
    Distribute(1, n, d);
    NonNegative(n - 1, d);
  }

  lemma NonNegative(n: int, d: int)
    requires n >= 0 && d >= 0
    ensures n * d >= 0
  {
  }

  lemma ProductOrder(a: int, b: int, d: int)
    requires d > 0
    ensures a < b <==> a * d < b * d
    ensures a < b <==> a * d + d <= b * d
  {
    Distribute(a, b, d);
    if a < b {
      ProductGrows(b - a, d);
    } else {
      Distribute(b, a, d);
      NonNegative(a - b, d);
    }
  }

  // Floor division is the unique quotient whose multiple is within d below x.
  lemma Floor(x: int, d: int, q: int)
    requires d > 0
    ensures x / d == q <==> q * d <= x < q * d + d
    ensures x % d == 0 <==> x == (x / d) * d
  {
    assert x == (x / d) * d + x % d;
    ProductOrder(x / d, q, d);
    ProductOrder(q, x / d, d);
  }

  lemma FloorMonotone(x: int, y: int, d: int)
    requires d > 0 && x <= y
    ensures x / d <= y / d
  {
    Floor(x, d, x / d);
    Floor(y, d, y / d);
    ProductOrder(y / d, x / d, d);
  }

  lemma MultipleOf(k: int, d: int)
    requires d > 0
    ensures (k * d) % d == 0 && (k * d) / d == k
  {
    Floor(k * d, d, k);
  }
}

// Division, remainder and counting facts shared by the models. C++ and Python
// both agree with Dafny's `/` and `%` on the operands used here: dividends are
// non-negative, or the divisor is positive and Python's floor is meant.
module Arith {

  lemma DivUnique(a: int, b: int, q: int)
    requires 0 < b
    requires q * b <= a < (q + 1) * b
    ensures a / b == q
  {
    var d := a / b;
    assert d * b <= a < (d + 1) * b;
    if d < q {
      MulMono(d + 1, q, b);
    } else if q < d {
      MulMono(q + 1, d, b);
    }
  }

  lemma DivBounds(a: int, b: int)
    requires 0 < b
    ensures (a / b) * b <= a < (a / b + 1) * b
    ensures a % b == a - (a / b) * b
  {
  }

  lemma MulMono(x: int, y: int, b: int)
    requires x <= y && 0 <= b
    ensures x * b <= y * b
  {
  }

  // If x*b < y*b then x < y, for b >= 0.
  lemma MulLess(x: int, y: int, b: int)
    requires x * b < y * b && 0 <= b
    ensures x < y
  {
    if y <= x {
      MulMono(y, x, b);
    }
  }

  lemma DivGalois(q: int, a: int, b: int)
    requires 0 < b
    ensures q <= a / b <==> q * b <= a
  {
    DivBounds(a, b);
    if q <= a / b {
      MulMono(q, a / b, b);
    } else {
      MulMono(a / b + 1, q, b);
    }
  }

  lemma CeilGalois(q: int, a: int, b: int)
    requires 0 < b
    ensures q < CeilDiv(a, b) <==> q * b < a
  {
    DivGalois(q + 1, a + b - 1, b);
  }

  lemma DivModUnique(a: int, b: int, q: int, r: int)
    requires 0 <= r < b
    requires a == q * b + r
    ensures a / b == q && a % b == r
  {
    DivUnique(a, b, q);
  }

  // The rounded-up quotient of both C++ div_ceil and Python's -(-a // b).
  function CeilDiv(a: int, b: int): int
    requires 0 < b
  {
    (a + b - 1) / b
  }

  lemma CeilDivBounds(a: int, b: int)
    requires 0 < b
    ensures a <= CeilDiv(a, b) * b < a + b
  {
    DivBounds(a + b - 1, b);
  }

  lemma CeilDivUnique(a: int, b: int, q: int)
    requires 0 < b
    requires a <= q * b < a + b
    ensures CeilDiv(a, b) == q
  {
    DivUnique(a + b - 1, b, q);
  }

  // A set holding exactly the integers lo..hi-1 has hi - lo members.
  lemma {:induction false} IntervalSize(s: set<int>, lo: int, hi: int)
    requires lo <= hi
    requires forall x: int :: x in s <==> lo <= x < hi
    ensures |s| == hi - lo
    decreases hi - lo
  {
    if lo < hi {
      IntervalSize(s - {hi - 1}, lo, hi - 1);
    } else {
      assert forall x: int :: x !in s;
    }
  }

  // Item i of area a, in areas of `len` items: a * len + i.
  function At(len: nat, a: nat, i: nat): nat
    decreases a
  {
    if a == 0 then i else len + At(len, a - 1, i)
  }

  lemma {:induction false} AtIs(len: nat, a: nat, i: nat)
    ensures At(len, a, i) == a * len + i
    decreases a
  {
    if a > 0 {
      AtIs(len, a - 1, i);
    }
  }

  // The area and the offset of an address: its quotient and remainder.
  function Area(len: nat, addr: nat): nat
    requires 0 < len
    decreases addr
  {
    if addr < len then 0 else 1 + Area(len, addr - len)
  }

  function Offset(len: nat, addr: nat): (i: nat)
    requires 0 < len
    ensures i < len
    decreases addr
  {
    if addr < len then addr else Offset(len, addr - len)
  }

  lemma {:induction false} AtInverse(len: nat, a: nat, i: nat)
    requires i < len
    ensures Area(len, At(len, a, i)) == a && Offset(len, At(len, a, i)) == i
    decreases a
  {
    if a > 0 {
      AtInverse(len, a - 1, i);
    }
  }

  lemma {:induction false} AtOfArea(len: nat, addr: nat)
    requires 0 < len
    ensures At(len, Area(len, addr), Offset(len, addr)) == addr
    decreases addr
  {
    if addr >= len {
      AtOfArea(len, addr - len);
    }
  }

  lemma {:induction false} AtBelow(len: nat, a: nat, i: nat, areas: nat)
    requires i < len && a < areas
    ensures At(len, a, i) < At(len, areas, 0)
    decreases a
  {
    if a > 0 {
      AtBelow(len, a - 1, i, areas - 1);
    }
  }

  lemma {:induction false} AreaBelow(len: nat, addr: nat, areas: nat)
    requires 0 < len && addr < At(len, areas, 0)
    ensures Area(len, addr) < areas
    decreases addr
  {
    if addr >= len && areas > 0 {
      AreaBelow(len, addr - len, areas - 1);
    }
  }

  // x mod n, once around. The kernels write x & (n - 1): n is a power of two.
  function Around(x: nat, n: nat): nat
    requires x < 2 * n
  {
    if x < n then x else x - n
  }

  lemma AroundMod(x: nat, n: nat)
    requires x < 2 * n
    ensures Around(x, n) == x % n
  {
    DivModUnique(x, n, if x < n then 0 else 1, Around(x, n));
  }
}

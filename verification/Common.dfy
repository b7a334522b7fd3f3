/** Small shared vocabulary: options, extrema, sums of real sequences and the stable sort. */
module Common {

  datatype Option<+T> = None | Some(value: T)

  function MinInt(a: int, b: int): int { if a <= b then a else b }

  function MaxInt(a: int, b: int): int { if a >= b then a else b }

  function MinReal(a: real, b: real): real { if a <= b then a else b }

  function MaxReal(a: real, b: real): real { if a >= b then a else b }

  function Abs(x: real): real { if x < 0.0 then -x else x }

  function Sum(xs: seq<real>): real {
    if xs == [] then 0.0 else Sum(xs[..|xs| - 1]) + xs[|xs| - 1]
  }

  /** Python's truth test on an optional number: absent and zero are both false. */
  predicate Truthy(x: Option<real>) { x.Some? && x.value != 0.0 }

  /** Storage that takes `left` more statements before one fails (negative: any number) takes `n`. */
  predicate Enough(left: int, n: nat) { left < 0 || left >= n }

  lemma MulLe(a: real, b: real, c: real)
    requires a <= b && c >= 0.0
    ensures a * c <= b * c && c * a <= c * b
  {}

  lemma Distribute(a: real, b: real, c: real)
    ensures a * (b + c) == a * b + a * c && (b + c) * a == b * a + c * a
    ensures a * (b - c) == a * b - a * c && (b - c) * a == b * a - c * a
  {}

  lemma Reorder(a: real, b: real, c: real)
    ensures a * b * c == a * c * b == b * a * c == b * c * a
  {}

  lemma MulPositive(a: real, b: real)
    requires a > 0.0 && b > 0.0
    ensures a * b > 0.0
  {}

  lemma CancelFactor(a: real, b: real, n: real)
    requires n > 0.0 && a * n <= b * n
    ensures a <= b
  {
    if a > b {
      Distribute(n, a, b);
      MulPositive(a - b, n);
    }
  }

  lemma MultiplyBack(a: real, b: real)
    requires b != 0.0
    ensures a / b * b == a
  {}

  lemma BoundAfterScaling(x: real, c: real, b: real)
    requires b > 0.0
    ensures x <= c <==> x * b <= c * b
  {
    if x <= c {
      MulLe(x, c, b);
    } else {
      MulPositive(x - c, b);
      Distribute(b, x, c);
    }
  }

  lemma DivideBound(a: real, b: real, c: real)
    requires b > 0.0
    ensures a / b <= c <==> a <= c * b
  {
    MultiplyBack(a, b);
    BoundAfterScaling(a / b, c, b);
  }

  lemma DivLe(a: real, b: real, c: real)
    requires a <= b && c > 0.0
    ensures a / c <= b / c
  {}

  /**
   * `n` times a price, added up one by one. It is the product (`WorthIsProduct`), in a form that
   * sums easily: the ledgers below only ever need that it is linear.
   */
  function Worth(n: int, price: real): real
    decreases if n < 0 then -n else n
  {
    if n == 0 then 0.0 else if n > 0 then Worth(n - 1, price) + price else Worth(n + 1, price) - price
  }

  lemma {:induction false} WorthIsProduct(n: int, price: real)
    ensures Worth(n, price) == n as real * price
    decreases if n < 0 then -n else n
  {
    if n > 0 {
      WorthIsProduct(n - 1, price);
      assert (n - 1) as real * price == n as real * price - price;
    } else if n < 0 {
      WorthIsProduct(n + 1, price);
      assert (n + 1) as real * price == n as real * price + price;
    }
  }

  lemma {:induction false} WorthAdds(m: int, n: int, price: real)
    ensures Worth(m + n, price) == Worth(m, price) + Worth(n, price)
    decreases if n < 0 then -n else n
  {
    if n > 0 {
      WorthAdds(m, n - 1, price);
    } else if n < 0 {
      WorthAdds(m, n + 1, price);
    }
  }

  lemma {:induction false} WorthOfSum(n: int, p1: real, p2: real)
    ensures Worth(n, p1 + p2) == Worth(n, p1) + Worth(n, p2)
    ensures Worth(n, p1 - p2) == Worth(n, p1) - Worth(n, p2)
    decreases if n < 0 then -n else n
  {
    if n > 0 {
      WorthOfSum(n - 1, p1, p2);
    } else if n < 0 {
      WorthOfSum(n + 1, p1, p2);
    }
  }

  lemma {:induction false} WorthIsNotNegative(n: int, price: real)
    requires n >= 0 && price >= 0.0
    ensures Worth(n, price) >= 0.0
  {
    if n > 0 {
      WorthIsNotNegative(n - 1, price);
    }
  }

  lemma {:induction false} WorthIsMonotone(n: int, p1: real, p2: real)
    requires n >= 0 && p1 <= p2
    ensures Worth(n, p1) <= Worth(n, p2)
  {
    if n > 0 {
      WorthIsMonotone(n - 1, p1, p2);
    }
  }

  lemma {:induction false} WorthIsPositive(n: int, price: real)
    requires n > 0 && price > 0.0
    ensures Worth(n, price) > 0.0
  {
    if n > 1 {
      WorthIsPositive(n - 1, price);
    }
  }

  lemma {:induction false} SumSplit(xs: seq<real>, ys: seq<real>)
    ensures Sum(xs + ys) == Sum(xs) + Sum(ys)
  {
    if ys == [] {
      assert xs + ys == xs;
    } else {
      var front := ys[..|ys| - 1];
      assert (xs + ys)[..|xs + ys| - 1] == xs + front;
      SumSplit(xs, front);
    }
  }

  lemma {:induction false} SumPointwise(xs: seq<real>, ys: seq<real>, zs: seq<real>)
    requires |xs| == |ys| == |zs|
    requires forall i :: 0 <= i < |xs| ==> zs[i] == xs[i] + ys[i]
    ensures Sum(zs) == Sum(xs) + Sum(ys)
  {
    if xs != [] {
      SumPointwise(xs[..|xs| - 1], ys[..|ys| - 1], zs[..|zs| - 1]);
    }
  }

  function SumInt(xs: seq<int>): int {
    if xs == [] then 0 else SumInt(xs[..|xs| - 1]) + xs[|xs| - 1]
  }

  lemma {:induction false} SumScaled(ns: seq<int>, factor: real, xs: seq<real>)
    requires |ns| == |xs| && forall i :: 0 <= i < |ns| ==> xs[i] == ns[i] as real * factor
    ensures Sum(xs) == SumInt(ns) as real * factor
  {
    if ns != [] {
      SumScaled(ns[..|ns| - 1], factor, xs[..|xs| - 1]);
      Distribute(factor, SumInt(ns[..|ns| - 1]) as real, ns[|ns| - 1] as real);
    }
  }
}

/** `list.sort(key=…)`: the stable ascending sort, as insertion of one element at a time. */
module Sorting {

  ghost predicate SortedBy<T(!new)>(s: seq<T>, key: T -> real) {
    forall i, j :: 0 <= i < j < |s| ==> key(s[i]) <= key(s[j])
  }

  /** Puts `x` behind every element whose key is not larger, as a stable sort does. */
  function Insert<T(!new)>(s: seq<T>, x: T, key: T -> real): (r: seq<T>)
    ensures multiset(r) == multiset(s) + multiset{x}
  {
    if s == [] || key(s[|s| - 1]) <= key(x) then
      s + [x]
    else
      assert s == s[..|s| - 1] + [s[|s| - 1]];
      Insert(s[..|s| - 1], x, key) + [s[|s| - 1]]
  }

  lemma {:induction false} InsertKeepsSorted<T(!new)>(s: seq<T>, x: T, key: T -> real)
    requires SortedBy(s, key)
    ensures SortedBy(Insert(s, x, key), key)
  {
    if s != [] && key(s[|s| - 1]) > key(x) {
      var front := s[..|s| - 1];
      InsertKeepsSorted(front, x, key);
      var r := Insert(front, x, key);
      SameMembers(r, front + [x]);
      forall i | 0 <= i < |r| ensures key(r[i]) <= key(s[|s| - 1]) {
        assert r[i] in r;
        assert r[i] in front + [x];
      }
    }
  }

  function SortBy<T(!new)>(s: seq<T>, key: T -> real): (r: seq<T>)
    ensures multiset(r) == multiset(s)
    ensures SortedBy(r, key)
  {
    if s == [] then []
    else
      assert s == s[..|s| - 1] + [s[|s| - 1]];
      InsertKeepsSorted(SortBy(s[..|s| - 1], key), s[|s| - 1], key);
      Insert(SortBy(s[..|s| - 1], key), s[|s| - 1], key)
  }

  lemma SortedFront<T(!new)>(s: seq<T>, key: T -> real)
    requires s != [] && SortedBy(s, key)
    ensures SortedBy(s[..|s| - 1], key)
    ensures |s| >= 2 ==> key(s[|s| - 2]) <= key(s[|s| - 1])
  {}

  lemma InsertAtEnd<T(!new)>(s: seq<T>, x: T, key: T -> real)
    requires s == [] || key(s[|s| - 1]) <= key(x)
    ensures Insert(s, x, key) == s + [x]
  {}

  lemma {:induction false} SortOfSorted<T(!new)>(s: seq<T>, key: T -> real)
    requires SortedBy(s, key)
    ensures SortBy(s, key) == s
  {
    if s != [] {
      var front, last := s[..|s| - 1], s[|s| - 1];
      SortedFront(s, key);
      SortOfSorted(front, key);
      InsertAtEnd(front, last, key);
      assert SortBy(s, key) == Insert(SortBy(front, key), last, key);
    }
  }

  lemma SameMembers<T>(r: seq<T>, s: seq<T>)
    requires multiset(r) == multiset(s)
    ensures |r| == |s|
    ensures forall x :: x in r <==> x in s
  {
    assert |multiset(r)| == |multiset(s)|;
    forall x ensures x in r <==> x in s {
      assert x in r <==> x in multiset(r);
      assert x in s <==> x in multiset(s);
    }
  }
}

/** Sums of reals over finite sets, and the law that averaging within groups keeps the total. */
module FiniteSums {
  ghost function Sum<T>(s: set<T>, f: T -> real): real {
    if s == {} then 0.0
    else
      var x :| x in s;
      f(x) + Sum(s - {x}, f)
  }

  lemma {:induction false} SumRemove<T>(s: set<T>, f: T -> real, x: T)
    requires x in s
    ensures Sum(s, f) == f(x) + Sum(s - {x}, f)
    decreases s
  {
    var y :| y in s && Sum(s, f) == f(y) + Sum(s - {y}, f);
    if y != x {
      SumRemove(s - {y}, f, x);
      SumRemove(s - {x}, f, y);
      assert s - {y} - {x} == s - {x} - {y};
    }
  }

  lemma {:induction false} SumUnion<T>(a: set<T>, b: set<T>, f: T -> real)
    requires a !! b
    ensures Sum(a + b, f) == Sum(a, f) + Sum(b, f)
    decreases a
  {
    if a == {} {
      assert a + b == b;
    } else {
      var x :| x in a;
      SumRemove(a, f, x);
      SumRemove(a + b, f, x);
      assert a + b - {x} == (a - {x}) + b;
      SumUnion(a - {x}, b, f);
    }
  }

  lemma {:induction false} SumConstant<T>(s: set<T>, f: T -> real, c: real)
    requires forall x <- s :: f(x) == c
    ensures Sum(s, f) == |s| as real * c
    decreases s
  {
    if s != {} {
      var x :| x in s;
      SumRemove(s, f, x);
      SumConstant(s - {x}, f, c);
      assert |s| == |s - {x}| + 1;
    }
  }

  lemma {:induction false} SumEqual<T>(s: set<T>, f: T -> real, g: T -> real)
    requires forall x <- s :: f(x) == g(x)
    ensures Sum(s, f) == Sum(s, g)
    decreases s
  {
    if s != {} {
      var x :| x in s;
      SumRemove(s, f, x);
      SumRemove(s, g, x);
      SumEqual(s - {x}, f, g);
    }
  }

  ghost function Fiber<T, K>(s: set<T>, key: T -> K, k: K): set<T> { set x <- s | key(x) == k }

  ghost function Image<T, K>(s: set<T>, key: T -> K): set<K> { set x <- s :: key(x) }

  /** One of n equal parts of a. */
  function Part(a: real, n: nat): real { if n == 0 then 0.0 else a / n as real }

  lemma PartsMakeWhole<T>(s: set<T>, f: T -> real, a: real)
    requires s != {} && forall x <- s :: f(x) == Part(a, |s|)
    ensures Sum(s, f) == a
  {
    SumConstant(s, f, Part(a, |s|));
  }

  /** Each group hands its value g(k) out in equal parts: the parts of all groups add up to the values. */
  lemma {:induction false} SumOfParts<T, K>(s: set<T>, key: T -> K, f: T -> real, g: K -> real)
    requires forall x <- s :: f(x) == Part(g(key(x)), |Fiber(s, key, key(x))|)
    ensures Sum(s, f) == Sum(Image(s, key), g)
    decreases s
  {
    hide Part;
    if s == {} {
      assert Image(s, key) == {};
    } else {
      hide Sum;
      var y :| y in s;
      var k := key(y);
      var fiber := Fiber(s, key, k);
      var rest := s - fiber;
      assert y in fiber;
      SumUnion(fiber, rest, f);
      assert fiber + rest == s;
      PartsMakeWhole(fiber, f, g(k));
      forall x <- rest ensures Fiber(rest, key, key(x)) == Fiber(s, key, key(x)) {
      }
      SumOfParts(rest, key, f, g);
      assert Image(s, key) - {k} == Image(rest, key);
      SumRemove(Image(s, key), g, k);
    }
  }

  ghost function Below(n: nat): (r: set<int>)
    ensures forall i :: i in r <==> 0 <= i < n
  {
    if n == 0 then {} else Below(n - 1) + {n - 1}
  }

  ghost function SumTo(n: nat, f: int -> real): real {
    if n == 0 then 0.0 else SumTo(n - 1, f) + f(n - 1)
  }

  lemma {:induction false} SumToIsSum(n: nat, f: int -> real)
    ensures SumTo(n, f) == Sum(Below(n), f)
  {
    if n > 0 {
      SumToIsSum(n - 1, f);
      SumRemove(Below(n), f, n - 1);
      assert Below(n) - {n - 1} == Below(n - 1);
    }
  }
}

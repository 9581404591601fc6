/** Finite sums over sets. The ratings of a user live in an unordered map,
    so every accumulation over them is a sum over a set of keys whose value
    must not depend on the order the keys are visited in. */
module Sums {

  ghost function Sum<T>(s: set<T>, f: T -> real): real
    decreases s
  {
    if s == {} then 0.0 else var x :| x in s; f(x) + Sum(s - {x}, f)
  }

  /** Any element may be taken out first: the sum is independent of the
      visiting order. */
  lemma {:induction false} SumPick<T>(s: set<T>, f: T -> real, y: T)
    requires y in s
    ensures Sum(s, f) == f(y) + Sum(s - {y}, f)
    decreases s
  {
    var x :| x in s && Sum(s, f) == f(x) + Sum(s - {x}, f);
    if x != y {
      SumPick(s - {x}, f, y);
      SumPick(s - {y}, f, x);
      assert s - {x} - {y} == s - {y} - {x};
    }
  }

  /** Adding an element that was not there adds its term. */
  lemma SumInsert<T>(s: set<T>, f: T -> real, y: T)
    requires y !in s
    ensures Sum(s + {y}, f) == Sum(s, f) + f(y)
  {
    SumPick(s + {y}, f, y);
    assert s + {y} - {y} == s;
  }

  /** Shifting every term by the same constant shifts the sum by |s| times it. */
  lemma {:induction false} SumShift<T>(s: set<T>, f: T -> real, g: T -> real, c: real)
    requires forall x {:trigger g(x)} :: x in s ==> g(x) == f(x) - c
    ensures Sum(s, g) == Sum(s, f) - c * (|s| as real)
    decreases s
  {
    if s != {} {
      var y :| y in s;
      SumPick(s, f, y);
      SumPick(s, g, y);
      SumShift(s - {y}, f, g, c);
    }
  }

  /** Scaling every term scales the sum. */
  lemma {:induction false} SumScale<T>(s: set<T>, f: T -> real, g: T -> real, c: real)
    requires forall x {:trigger g(x)} :: x in s ==> g(x) == c * f(x)
    ensures Sum(s, g) == c * Sum(s, f)
    decreases s
  {
    if s != {} {
      var y :| y in s;
      SumPick(s, f, y);
      SumPick(s, g, y);
      SumScale(s - {y}, f, g, c);
      ScaledTerms(c, f(y), Sum(s - {y}, f), g(y), Sum(s - {y}, g));
    } else {
      assert Sum(s, f) == 0.0 && Sum(s, g) == 0.0;
    }
  }

  /** Two scaled terms add up to the scaled sum. */
  lemma ScaledTerms(c: real, a: real, b: real, ca: real, cb: real)
    requires ca == c * a && cb == c * b
    ensures ca + cb == c * (a + b)
  {
  }
}

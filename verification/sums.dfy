/**
 Sums of an integer-valued function over a finite set of keys, taken in an
 arbitrary order: the order does not matter, which the lemmas below make
 usable.
 */
module Sums {
  import opened Fields

  /** Some element of a non-empty set. */
  ghost function Pick(s: set<Id>): (x: Id)
    requires s != {}
    ensures x in s
  {
    var x :| x in s; x
  }

  ghost function Sum(s: set<Id>, f: Id -> int): int
    decreases s
  {
    if s == {} then 0 else var x := Pick(s); f(x) + Sum(s - {x}, f)
  }

  /** Any element can be taken out first. */
  lemma {:induction false} SumPick(s: set<Id>, f: Id -> int, y: Id)
    requires y in s
    ensures Sum(s, f) == f(y) + Sum(s - {y}, f)
    decreases s
  {
    var x := Pick(s);
    if y != x {
      SumPick(s - {x}, f, y);
      assert s - {x} - {y} == s - {y} - {x};
      SumPick(s - {y}, f, x);
    }
  }

  /** Functions that agree on the set have the same sum over it. */
  lemma {:induction false} SumAgree(s: set<Id>, f: Id -> int, g: Id -> int)
    requires forall x :: x in s ==> f(x) == g(x)
    ensures Sum(s, f) == Sum(s, g)
    decreases s
  {
    if s != {} {
      SumAgree(s - {Pick(s)}, f, g);
    }
  }

  /** The sum is linear: `h = f + k * g` on the set sums to
      `Sum f + k * Sum g`. */
  lemma {:induction false} SumLinear(s: set<Id>, f: Id -> int, g: Id -> int, h: Id -> int, k: int)
    requires forall x :: x in s ==> h(x) == f(x) + k * g(x)
    ensures Sum(s, h) == Sum(s, f) + k * Sum(s, g)
    decreases s
  {
    if s != {} {
      var x := Pick(s);
      SumLinear(s - {x}, f, g, h, k);
      assert k * (g(x) + Sum(s - {x}, g)) == k * g(x) + k * Sum(s - {x}, g);
    }
  }

  /** Lines worth nothing can be left out of a sum. */
  lemma {:induction false} SumDropZeros(s: set<Id>, t: set<Id>, f: Id -> int)
    requires t <= s
    requires forall x :: x in s - t ==> f(x) == 0
    ensures Sum(s, f) == Sum(t, f)
    decreases s
  {
    if s - t != {} {
      var x :| x in s - t;
      SumPick(s, f, x);
      SumDropZeros(s - {x}, t, f);
    } else {
      forall x | x in s ensures x in t {
        assert x !in s - t;
      }
      assert s == t;
    }
  }

  /** Linearity over a superset whose extra elements contribute nothing:
      `h = f + k * g` on `s`, `h = 0` off `t`, gives
      `Sum(t, h) == Sum(s, f) + k * Sum(s, g)`. */
  lemma SumShift(s: set<Id>, t: set<Id>, f: Id -> int, g: Id -> int, h: Id -> int, k: int)
    requires t <= s
    requires forall x :: x in s - t ==> h(x) == 0
    requires forall x :: x in s ==> h(x) == f(x) + k * g(x)
    ensures Sum(t, h) == Sum(s, f) + k * Sum(s, g)
  {
    SumDropZeros(s, t, h);
    SumLinear(s, f, g, h, k);
  }
}

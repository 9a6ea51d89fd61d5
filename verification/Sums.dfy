/**
 Sums over finite sets, in any order.
 */
module Sums {

  lemma SomeElement<T>(s: set<T>) returns (x: T)
    requires s != {}
    ensures x in s
  {
    x :| x in s;
  }

  lemma Single<T>(s: set<T>, x: T)
    requires x in s && forall y :: y in s ==> y == x
    ensures |s| == 1
  {
    assert s == {x};
  }

  ghost function Sum<T(!new)>(s: set<T>, f: T -> real): real {
    if s == {} then 0.0
    else
      var x :| x in s;
      f(x) + Sum(s - {x}, f)
  }

  /** Any element can be taken out first. */
  lemma {:induction false} SumTake<T(!new)>(s: set<T>, f: T -> real, x: T)
    requires x in s
    ensures Sum(s, f) == f(x) + Sum(s - {x}, f)
    decreases |s|
  {
    var y :| y in s && Sum(s, f) == f(y) + Sum(s - {y}, f);
    if x != y {
      SumTake(s - {y}, f, x);
      SumTake(s - {x}, f, y);
      assert s - {y} - {x} == s - {x} - {y};
    }
  }

  lemma {:induction false} SumMonotone<T(!new)>(s: set<T>, f: T -> real, g: T -> real)
    requires forall x :: x in s ==> f(x) <= g(x)
    ensures Sum(s, f) <= Sum(s, g)
    decreases |s|
  {
    if s != {} {
      var x :| x in s;
      SumTake(s, f, x);
      SumTake(s, g, x);
      SumMonotone(s - {x}, f, g);
    }
  }

  lemma {:induction false} SumEqual<T(!new)>(s: set<T>, f: T -> real, g: T -> real)
    requires forall x :: x in s ==> f(x) == g(x)
    ensures Sum(s, f) == Sum(s, g)
  {
    SumMonotone(s, f, g);
    SumMonotone(s, g, f);
  }

  lemma {:induction false} SumUnion<T(!new)>(a: set<T>, b: set<T>, f: T -> real)
    requires a !! b
    ensures Sum(a + b, f) == Sum(a, f) + Sum(b, f)
    decreases |a|
  {
    if a == {} {
      assert a + b == b;
    } else {
      var x :| x in a;
      SumTake(a, f, x);
      SumTake(a + b, f, x);
      SumUnion(a - {x}, b, f);
      assert a - {x} + b == a + b - {x};
    }
  }

  lemma {:induction false} SumOfOnes<T(!new)>(s: set<T>)
    ensures Sum(s, (x: T) => 1.0) == |s| as real
    decreases |s|
  {
    if s != {} {
      var x :| x in s;
      SumTake(s, (x: T) => 1.0, x);
      SumOfOnes(s - {x});
    }
  }

  ghost function Count<T(!new)>(s: set<T>, f: T -> nat): nat {
    if s == {} then 0
    else
      var x :| x in s;
      f(x) + Count(s - {x}, f)
  }

  lemma {:induction false} CountTake<T(!new)>(s: set<T>, f: T -> nat, x: T)
    requires x in s
    ensures Count(s, f) == f(x) + Count(s - {x}, f)
    decreases |s|
  {
    var y :| y in s && Count(s, f) == f(y) + Count(s - {y}, f);
    if x != y {
      CountTake(s - {y}, f, x);
      CountTake(s - {x}, f, y);
      assert s - {y} - {x} == s - {x} - {y};
    }
  }

  lemma {:induction false} CountEqual<T(!new)>(s: set<T>, f: T -> nat, g: T -> nat)
    requires forall x :: x in s ==> f(x) == g(x)
    ensures Count(s, f) == Count(s, g)
    decreases |s|
  {
    if s != {} {
      var x :| x in s;
      CountTake(s, f, x);
      CountTake(s, g, x);
      CountEqual(s - {x}, f, g);
    }
  }

  lemma {:induction false} CountAtLeast<T(!new)>(s: set<T>, f: T -> nat)
    requires forall x :: x in s ==> f(x) >= 1
    ensures Count(s, f) >= |s|
    decreases |s|
  {
    if s != {} {
      var x :| x in s;
      CountTake(s, f, x);
      CountAtLeast(s - {x}, f);
    }
  }
}

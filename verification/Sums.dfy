/** Sums over finite sets and over map entries, in whatever order they are visited. */
module Sums {

  ghost function SumSet<T(!new)>(s: set<T>, f: T -> int): int {
    if s == {} then 0
    else
      var x :| x in s;
      f(x) + SumSet(s - {x}, f)
  }

  lemma {:induction false} SumSetRemove<T(!new)>(s: set<T>, f: T -> int, x: T)
    requires x in s
    ensures SumSet(s, f) == f(x) + SumSet(s - {x}, f)
  {
    var y :| y in s && SumSet(s, f) == f(y) + SumSet(s - {y}, f);
    if y != x {
      SumSetRemove(s - {y}, f, x);
      SumSetRemove(s - {x}, f, y);
      assert s - {y} - {x} == s - {x} - {y};
    }
  }

  lemma SumSetAdd<T(!new)>(s: set<T>, f: T -> int, x: T)
    requires x !in s
    ensures SumSet(s + {x}, f) == f(x) + SumSet(s, f)
  {
    SumSetRemove(s + {x}, f, x);
    assert s + {x} - {x} == s;
  }

  /** Only the values on the set matter. */
  lemma {:induction false} SumSetSame<T(!new)>(s: set<T>, f: T -> int, g: T -> int)
    requires forall x :: x in s ==> f(x) == g(x)
    ensures SumSet(s, f) == SumSet(s, g)
  {
    if s != {} {
      var x :| x in s;
      SumSetRemove(s, f, x);
      SumSetRemove(s, g, x);
      SumSetSame(s - {x}, f, g);
    }
  }

  lemma {:induction false} SumSetMono<T(!new)>(s: set<T>, f: T -> int, g: T -> int)
    requires forall x :: x in s ==> f(x) <= g(x)
    ensures SumSet(s, f) <= SumSet(s, g)
  {
    if s != {} {
      var x :| x in s;
      SumSetRemove(s, f, x);
      SumSetRemove(s, g, x);
      SumSetMono(s - {x}, f, g);
    }
  }

  /** Changing one summand changes the sum by the difference. */
  lemma SumSetUpdate<T(!new)>(s: set<T>, f: T -> int, g: T -> int, x: T)
    requires x in s && forall y :: y in s && y != x ==> f(y) == g(y)
    ensures SumSet(s, g) == SumSet(s, f) + g(x) - f(x)
  {
    SumSetRemove(s, f, x);
    SumSetRemove(s, g, x);
    SumSetSame(s - {x}, f, g);
  }

  lemma {:induction false} SumSetPlus<T(!new)>(s: set<T>, f: T -> int, g: T -> int, h: T -> int)
    requires forall x :: x in s ==> h(x) == f(x) + g(x)
    ensures SumSet(s, h) == SumSet(s, f) + SumSet(s, g)
  {
    if s != {} {
      var x :| x in s;
      SumSetRemove(s, f, x);
      SumSetRemove(s, g, x);
      SumSetRemove(s, h, x);
      SumSetPlus(s - {x}, f, g, h);
    }
  }

  lemma {:induction false} SumSetZero<T(!new)>(s: set<T>, f: T -> int)
    requires forall x :: x in s ==> f(x) == 0
    ensures SumSet(s, f) == 0
  {
    if s != {} {
      var x :| x in s;
      SumSetRemove(s, f, x);
      SumSetZero(s - {x}, f);
    }
  }

  /** Elements that contribute nothing can be left out. */
  lemma {:induction false} SumSetExtend<T(!new)>(s: set<T>, t: set<T>, f: T -> int)
    requires s <= t && forall x :: x in t - s ==> f(x) == 0
    ensures SumSet(t, f) == SumSet(s, f)
    decreases |t - s|
  {
    if t - s == {} {
      assert s == t;
    } else {
      var x :| x in t - s;
      SumSetRemove(t, f, x);
      assert (t - {x}) - s == (t - s) - {x};
      SumSetExtend(s, t - {x}, f);
    }
  }

  lemma {:induction false} SumSetSplit<T(!new)>(s: set<T>, t: set<T>, f: T -> int)
    ensures SumSet(s, f) == SumSet(s * t, f) + SumSet(s - t, f)
  {
    if s == {} {
      assert s * t == {} && s - t == {};
    } else {
      var x :| x in s;
      var rest := s - {x};
      SumSetRemove(s, f, x);
      SumSetSplit(rest, t, f);
      if x in t {
        assert rest * t == s * t - {x} && rest - t == s - t;
        SumSetRemove(s * t, f, x);
      } else {
        assert rest * t == s * t && rest - t == s - t - {x};
        SumSetRemove(s - t, f, x);
      }
    }
  }

  lemma {:induction false} SumSetSubset<T(!new)>(s: set<T>, t: set<T>, f: T -> int)
    requires s <= t && forall x :: x in t ==> f(x) >= 0
    ensures 0 <= SumSet(s, f) <= SumSet(t, f)
    decreases |t|
  {
    if t != {} {
      var x :| x in t;
      SumSetRemove(t, f, x);
      SumSetSubset(s - {x}, t - {x}, f);
      if x in s {
        SumSetRemove(s, f, x);
      } else {
        assert s - {x} == s;
      }
    } else {
      assert s == {};
    }
  }
}

/** Sums of a function over a finite set. */
module Sums {

  ghost function Sum<T(!new)>(s: set<T>, f: T -> nat): nat {
    if s == {} then 0
    else
      var x :| x in s;
      f(x) + Sum(s - {x}, f)
  }

  lemma {:induction false} SumSplit<T(!new)>(s: set<T>, f: T -> nat, x: T)
    requires x in s
    ensures Sum(s, f) == f(x) + Sum(s - {x}, f)
    decreases s
  {
    var y :| y in s && Sum(s, f) == f(y) + Sum(s - {y}, f);
    if y != x {
      SumSplit(s - {y}, f, x);
      SumSplit(s - {x}, f, y);
      assert s - {y} - {x} == s - {x} - {y};
    }
  }

  lemma {:induction false} SumSame<T(!new)>(s: set<T>, f: T -> nat, g: T -> nat)
    requires forall x :: x in s ==> f(x) == g(x)
    ensures Sum(s, f) == Sum(s, g)
    decreases s
  {
    if s != {} {
      var x :| x in s;
      SumSplit(s, f, x);
      SumSplit(s, g, x);
      SumSame(s - {x}, f, g);
    }
  }

  /** Changing the function, and possibly the membership, at one point only. */
  lemma SumChange<T(!new)>(s: set<T>, f: T -> nat, t: set<T>, g: T -> nat, x: T)
    requires s - {x} == t - {x}
    requires forall y :: y in s && y != x ==> f(y) == g(y)
    ensures Sum(t, g) + (if x in s then f(x) else 0) == Sum(s, f) + (if x in t then g(x) else 0)
  {
    if x in s {
      SumSplit(s, f, x);
    } else {
      assert s - {x} == s;
    }
    if x in t {
      SumSplit(t, g, x);
    } else {
      assert t - {x} == t;
    }
    SumSame(s - {x}, f, g);
  }

  lemma {:induction false} SumPositive<T(!new)>(s: set<T>, f: T -> nat)
    ensures Sum(s, f) > 0 <==> exists x :: x in s && f(x) > 0
    decreases s
  {
    if s != {} {
      var x :| x in s;
      SumSplit(s, f, x);
      SumPositive(s - {x}, f);
    }
  }

  /** Nothing but two elements adds to the sum, and only what is in the set does. */
  lemma SumOfTwo<T(!new)>(s: set<T>, f: T -> nat, x: T, y: T)
    requires x != y && forall z :: z in s && z != x && z != y ==> f(z) == 0
    requires (x !in s ==> f(x) == 0) && (y !in s ==> f(y) == 0)
    ensures Sum(s, f) == f(x) + f(y)
  {
    var rest := s - {x} - {y};
    SumPositive(rest, f);
    if x in s {
      SumSplit(s, f, x);
    } else {
      assert s - {x} == s;
    }
    if y in s {
      SumSplit(s - {x}, f, y);
    } else {
      assert rest == s - {x};
    }
  }

  lemma {:induction false} SumAtMost<T(!new)>(s: set<T>, f: T -> nat, g: T -> nat)
    requires forall x :: x in s ==> f(x) <= g(x)
    ensures Sum(s, f) <= Sum(s, g)
    decreases s
  {
    if s != {} {
      var x :| x in s;
      SumSplit(s, f, x);
      SumSplit(s, g, x);
      SumAtMost(s - {x}, f, g);
    }
  }

  function SumSeq(s: seq<nat>): nat {
    if s == [] then 0 else s[0] + SumSeq(s[1..])
  }

  lemma {:induction false} SumSeqUpdate(s: seq<nat>, i: nat, v: nat)
    requires i < |s|
    ensures SumSeq(s[i := v]) + s[i] == SumSeq(s) + v
  {
    if i == 0 {
      assert s[i := v][1..] == s[1..];
    } else {
      assert s[i := v][1..] == s[1..][i - 1 := v];
      SumSeqUpdate(s[1..], i - 1, v);
    }
  }

  lemma {:induction false} SumSeqPositive(s: seq<nat>)
    ensures SumSeq(s) > 0 <==> exists i :: 0 <= i < |s| && s[i] > 0
  {
    if s != [] {
      SumSeqPositive(s[1..]);
      if i :| 0 <= i < |s[1..]| && s[1..][i] > 0 {
        assert s[i + 1] > 0;
      }
      if i :| 0 < i < |s| && s[i] > 0 {
        assert s[1..][i - 1] > 0;
      }
    }
  }

  lemma {:induction false} SumSeqBounded(s: seq<nat>, bound: nat)
    requires forall i :: 0 <= i < |s| ==> s[i] <= bound
    ensures SumSeq(s) <= bound * |s|
  {
    if s != [] {
      SumSeqBounded(s[1..], bound);
      assert bound * |s| == bound + bound * |s[1..]|;
    }
  }

  /** All elements but one are bounded. */
  lemma {:induction false} SumSeqOneLarge(s: seq<nat>, j: nat, bound: nat)
    requires j < |s| && forall i :: 0 <= i < |s| && i != j ==> s[i] <= bound
    ensures s[j] <= SumSeq(s) <= s[j] + bound * (|s| - 1)
  {
    if j == 0 {
      SumSeqBounded(s[1..], bound);
    } else {
      SumSeqOneLarge(s[1..], j - 1, bound);
      assert bound * (|s| - 1) == bound + bound * (|s[1..]| - 1);
    }
  }

  lemma {:induction false} SumSeqAtMost(s: seq<nat>, t: seq<nat>)
    requires |s| == |t|
    requires forall i :: 0 <= i < |s| ==> s[i] <= t[i]
    ensures SumSeq(s) <= SumSeq(t)
  {
    if s != [] {
      SumSeqAtMost(s[1..], t[1..]);
    }
  }
}

/** What the search of `Streaming` gives out, and what it misses.

    The vectors that a node searches for may have a key twice, since a client sends it twice, or a redirection
    thread does.
 */
module Searches {
  import opened Keys
  import opened Batching
  import opened Streaming

  // ---------- How often a key is given out ----------

  lemma AbsentIffFirstDiffers(m: seq<Key>, x: Key)
    requires Sorted(m)
    ensures x in m <==> FirstAtLeast(m, x) < |m| && m[FirstAtLeast(m, x)] == x
  {
    TotalOrder();
    var j := FirstAtLeast(m, x);
    if x in m {
      var q :| 0 <= q < |m| && m[q] == x;
      assert j <= q;
      assert LessEq(m[j], m[q]);
    }
  }

  /** Whether the search gives out all copies of `x`: the map has no key from `x` on, or the vector has a key above
      `x` that the map's next key does not precede. An empty map holds back the first key of the vector. */
  predicate Closed(v: seq<Key>, m: seq<Key>, x: Key) {
    if m == [] then v != [] && v[0] != x
    else
      var j := FirstAtLeast(m, x);
      j == |m| || exists y :: y in v && Less(x, y) && LessEq(y, m[j])
  }

  lemma {:induction false} LastCopy(v: seq<Key>, i: nat) returns (k: nat)
    requires Sorted(v) && i < |v|
    ensures i <= k < |v| && v[k] == v[i] && forall q :: k < q < |v| ==> Less(v[i], v[q])
    decreases |v| - i
  {
    TotalOrder();
    if i + 1 < |v| && v[i + 1] == v[i] {
      k := LastCopy(v, i + 1);
    } else {
      k := i;
      forall q | k < q < |v|
        ensures Less(v[i], v[q])
      {
        assert LessEq(v[i], v[i + 1]) && LessEq(v[i + 1], v[q]);
      }
    }
  }

  /** All copies of `x` are given out, but for the one at `hidden`. */
  ghost predicate HidesOnly(v: seq<Key>, m: seq<Key>, x: Key, hidden: int) {
    forall i :: 0 <= i < |v| && v[i] == x ==> (Emits(v, m, i) <==> i != hidden)
  }

  lemma ClosedHidesNone(v: seq<Key>, m: seq<Key>, x: Key)
    requires Sorted(v) && Sorted(m) && Closed(v, m, x)
    ensures HidesOnly(v, m, x, -1)
  {
    TotalOrder();
    if m != [] && FirstAtLeast(m, x) < |m| {
      var y :| y in v && Less(x, y) && LessEq(y, m[FirstAtLeast(m, x)]);
      var k :| 0 <= k < |v| && v[k] == y;
      forall i | 0 <= i < |v| && v[i] == x
        ensures Emits(v, m, i)
      {
        assert i < k;
        assert LessEq(v[i + 1], v[k]);
      }
    }
  }

  lemma OpenHidesLast(v: seq<Key>, m: seq<Key>, i: nat) returns (hidden: nat)
    requires Sorted(v) && Sorted(m) && i < |v| && !Closed(v, m, v[i])
    ensures hidden < |v| && v[hidden] == v[i] && HidesOnly(v, m, v[i], hidden)
  {
    if m == [] {
      hidden := 0;
    } else {
      hidden := LastCopy(v, i);
      OpenHidesAt(v, m, v[i], hidden);
    }
  }

  lemma OpenHidesAt(v: seq<Key>, m: seq<Key>, x: Key, last: nat)
    requires Sorted(v) && m != [] && !Closed(v, m, x)
    requires last < |v| && v[last] == x && forall q :: last < q < |v| ==> Less(x, v[q])
    ensures HidesOnly(v, m, x, last)
  {
    TotalOrder();
    var y := m[FirstAtLeast(m, x)];
    assert last + 1 < |v| ==> v[last + 1] in v && Less(x, v[last + 1]);
    forall i | 0 <= i < |v| && v[i] == x
      ensures Emits(v, m, i) <==> i != last
    {
      if i < last {
        assert LessEq(v[i], v[i + 1]) && LessEq(v[i + 1], v[last]);
      }
    }
  }

  /** The marked ones among the first `k` keys. */
  function Picked<T>(v: seq<T>, marks: seq<bool>, k: nat): seq<T>
    requires k <= |v| == |marks|
  {
    if k == 0 then [] else Picked(v, marks, k - 1) + (if marks[k - 1] then [v[k - 1]] else [])
  }

  lemma TimesNext<T>(s: seq<T>, y: T, x: T)
    ensures multiset(s + [y])[x] == multiset(s)[x] + if y == x then 1 else 0
  {
  }

  lemma PickedNext<T>(v: seq<T>, marks: seq<bool>, x: T, k: nat)
    requires k < |v| == |marks|
    ensures multiset(v[..k + 1])[x] == multiset(v[..k])[x] + if v[k] == x then 1 else 0
    ensures multiset(Picked(v, marks, k + 1))[x] == multiset(Picked(v, marks, k))[x] + if marks[k] && v[k] == x then 1 else 0
  {
    assert v[..k + 1] == v[..k] + [v[k]];
    TimesNext(v[..k], v[k], x);
    TimesNext(Picked(v, marks, k), v[k], x);
    assert Picked(v, marks, k + 1) == Picked(v, marks, k) + if marks[k] then [v[k]] else [];
  }

  predicate GoUpTogether(a: seq<int>, b: seq<int>, hidden: int, i: nat)
    requires i + 1 < |a| == |b|
  {
    a[i + 1] - a[i] == b[i + 1] - b[i] - if i == hidden then 1 else 0
  }

  /** Two counts that go up together, but for one time. */
  lemma {:induction false} OnceLess(a: seq<int>, b: seq<int>, hidden: int, k: nat)
    requires k < |a| == |b| && a[0] == b[0]
    requires forall i :: 0 <= i < |a| - 1 ==> GoUpTogether(a, b, hidden, i)
    ensures a[k] == b[k] - if 0 <= hidden < k then 1 else 0
  {
    if k > 0 {
      OnceLess(a, b, hidden, k - 1);
      assert GoUpTogether(a, b, hidden, k - 1);
    }
  }

  function PickedCounts<T(==)>(v: seq<T>, marks: seq<bool>, x: T): seq<int>
    requires |v| == |marks|
  {
    seq(|v| + 1, k requires 0 <= k <= |v| => multiset(Picked(v, marks, k))[x])
  }

  function PrefixCounts<T(==)>(v: seq<T>, x: T): seq<int> {
    seq(|v| + 1, k requires 0 <= k <= |v| => multiset(v[..k])[x])
  }

  lemma CountsGoUp<T>(v: seq<T>, marks: seq<bool>, x: T, hidden: int, i: nat)
    requires i < |v| == |marks| && (i == hidden ==> v[i] == x)
    requires v[i] == x ==> (marks[i] <==> i != hidden)
    ensures GoUpTogether(PickedCounts(v, marks, x), PrefixCounts(v, x), hidden, i)
  {
    PickedNext(v, marks, x, i);
  }

  /** If all copies of a key but one are marked, that one is missing. */
  lemma PickedTimes<T>(v: seq<T>, marks: seq<bool>, x: T, hidden: int)
    requires |v| == |marks| && (0 <= hidden < |v| ==> v[hidden] == x)
    requires forall i :: 0 <= i < |v| && v[i] == x ==> (marks[i] <==> i != hidden)
    ensures multiset(Picked(v, marks, |v|))[x] == multiset(v)[x] - if 0 <= hidden < |v| then 1 else 0
  {
    forall i | 0 <= i < |v|
      ensures GoUpTogether(PickedCounts(v, marks, x), PrefixCounts(v, x), hidden, i)
    {
      CountsGoUp(v, marks, x, hidden, i);
    }
    OnceLess(PickedCounts(v, marks, x), PrefixCounts(v, x), hidden, |v|);
    assert v[..|v|] == v;
  }

  function Marks(v: seq<Key>, m: seq<Key>): seq<bool> {
    seq(|v|, i requires 0 <= i < |v| => Emits(v, m, i))
  }

  lemma {:induction false} EmittedIsPicked(v: seq<Key>, m: seq<Key>, k: nat)
    requires k <= |v|
    ensures EmittedUpTo(v, m, k) == Picked(v, Marks(v, m), k)
  {
    if k > 0 {
      EmittedIsPicked(v, m, k - 1);
    }
  }

  lemma EmittedCopies(v: seq<Key>, m: seq<Key>, x: Key, hidden: int)
    requires HidesOnly(v, m, x, hidden) && (0 <= hidden < |v| ==> v[hidden] == x)
    ensures multiset(Emitted(v, m))[x] == multiset(v)[x] - if 0 <= hidden < |v| then 1 else 0
  {
    EmittedIsPicked(v, m, |v|);
    PickedTimes(v, Marks(v, m), x, hidden);
  }

  /** The search gives out each key as often as the vector has it, or once less. */
  lemma EmittedTimes(v: seq<Key>, m: seq<Key>, x: Key)
    requires Sorted(v) && Sorted(m)
    ensures multiset(Emitted(v, m))[x] == multiset(v)[x] - if x in v && !Closed(v, m, x) then 1 else 0
  {
    if x !in v || Closed(v, m, x) {
      if x in v {
        ClosedHidesNone(v, m, x);
      }
      EmittedCopies(v, m, x, -1);
    } else {
      var i :| 0 <= i < |v| && v[i] == x;
      var hidden := OpenHidesLast(v, m, i);
      EmittedCopies(v, m, x, hidden);
    }
  }

  predicate Twice(v: seq<Key>, x: Key) {
    multiset(v)[x] > 1
  }

  lemma EmittedIff(v: seq<Key>, m: seq<Key>, x: Key)
    requires Sorted(v) && Sorted(m)
    ensures x in Emitted(v, m) <==> x in v && (Twice(v, x) || Closed(v, m, x))
  {
    EmittedTimes(v, m, x);
    assert x in Emitted(v, m) <==> multiset(Emitted(v, m))[x] > 0;
    assert x in v <==> multiset(v)[x] > 0;
  }

  lemma KnownIsOpen(v: seq<Key>, m: seq<Key>, x: Key)
    requires Sorted(m) && x in m
    ensures !Closed(v, m, x)
  {
    TotalOrder();
    AbsentIffFirstDiffers(m, x);
  }

  /** The copies of a key that the map has come back, except one: a known key is given out exactly if it is
      searched for twice. */
  lemma KnownComesBackIff(v: seq<Key>, m: seq<Key>, x: Key)
    requires Sorted(v) && Sorted(m) && x in m
    ensures x in Emitted(v, m) <==> Twice(v, x)
    ensures x in v ==> multiset(Emitted(v, m))[x] == multiset(v)[x] - 1
  {
    KnownIsOpen(v, m, x);
    EmittedTimes(v, m, x);
    EmittedIff(v, m, x);
    assert Twice(v, x) ==> x in multiset(v);
  }

  /** The keys given out keep their order. With `EmittedTimes` this determines them. */
  lemma EmittedInOrder(v: seq<Key>, m: seq<Key>)
    requires Sorted(v)
    ensures Sorted(Emitted(v, m)) && forall x :: x in Emitted(v, m) ==> x in v
  {
    EmittedUpToInOrder(v, m, |v|);
  }

  lemma {:induction false} EmittedUpToInOrder(v: seq<Key>, m: seq<Key>, k: nat)
    requires Sorted(v) && k <= |v|
    ensures Sorted(EmittedUpTo(v, m, k))
    ensures forall x :: x in EmittedUpTo(v, m, k) ==> x in v[..k]
  {
    if k > 0 {
      EmittedUpToInOrder(v, m, k - 1);
      var before := EmittedUpTo(v, m, k - 1);
      assert forall x :: x in v[..k - 1] ==> x in v[..k] && LessEq(x, v[k - 1]);
      assert v[k - 1] in v[..k];
      LastIsLargest(before, v[k - 1]);
    }
  }

  lemma LastIsLargest(s: seq<Key>, x: Key)
    requires Sorted(s) && forall y :: y in s ==> LessEq(y, x)
    ensures Sorted(s + [x]) && s + [] == s
  {
  }

  // ---------- When only new keys are given out, and when all of them are ----------

  /** No key is given out that the map has. */
  predicate FindsOnlyNew(v: seq<Key>, m: seq<Key>) {
    forall x :: x in Emitted(v, m) ==> x !in m
  }

  lemma FindsOnlyNewIff(v: seq<Key>, m: seq<Key>)
    requires Sorted(v) && Sorted(m)
    ensures FindsOnlyNew(v, m) <==> forall x :: x in v && Twice(v, x) ==> x !in m
  {
    forall x | x in m
      ensures x in Emitted(v, m) <==> x in v && Twice(v, x)
    {
      EmittedIff(v, m, x);
      KnownIsOpen(v, m, x);
    }
  }

  lemma {:induction false} StrictIsOnce(v: seq<Key>, x: Key)
    requires StrictlySorted(v)
    ensures !Twice(v, x)
  {
    if v != [] {
      StrictIsOnce(v[1..], x);
      TotalOrder();
      assert v == [v[0]] + v[1..];
      assert forall i :: 0 <= i < |v[1..]| ==> Less(v[0], v[1..][i]);
    }
  }

  /** Of a strictly increasing vector no key is given out that the map has. */
  lemma EmittedAreNew(v: seq<Key>, m: seq<Key>, x: Key)
    requires StrictlySorted(v) && Sorted(m)
    requires x in Emitted(v, m)
    ensures x in v && x !in m
  {
    TotalOrder();
    EmittedIff(v, m, x);
    StrictIsOnce(v, x);
    if x in m {
      KnownIsOpen(v, m, x);
    }
  }

  /** The search finds every new key. */
  predicate FindsAllNew(v: seq<Key>, m: seq<Key>) {
    forall x :: x in v && x !in m ==> x in Emitted(v, m)
  }

  /** The largest key of the vector below `y`. */
  predicate IsLargestBelow(v: seq<Key>, y: Key, x: Key) {
    x in v && Less(x, y) && forall z :: z in v && Less(z, y) ==> LessEq(z, x)
  }

  /** The vector reaches the key `y` of the map from below: it has `y`, or has the largest key below `y` twice. */
  predicate Reaches(v: seq<Key>, y: Key) {
    y in v || exists x :: x in v && IsLargestBelow(v, y, x) && Twice(v, x)
  }

  /** For a new key with a key of the map above it, the vector reaches the first such key of the map. */
  predicate GapsAreReached(v: seq<Key>, m: seq<Key>) {
    forall x :: x in v && x !in m && FirstAtLeast(m, x) < |m| ==> Reaches(v, m[FirstAtLeast(m, x)])
  }

  lemma {:induction false} LargestBelow(v: seq<Key>, y: Key, i: nat) returns (x: Key)
    requires Sorted(v) && i < |v| && Less(v[i], y)
    ensures LessEq(v[i], x) && IsLargestBelow(v, y, x)
    decreases |v| - i
  {
    TotalOrder();
    if i + 1 < |v| && Less(v[i + 1], y) {
      x := LargestBelow(v, y, i + 1);
      assert LessEq(v[i], v[i + 1]);
    } else {
      x := v[i];
      assert forall q :: i < q < |v| ==> LessEq(v[i + 1], v[q]);
    }
  }

  lemma SameGap(m: seq<Key>, x: Key, z: Key)
    requires Sorted(m) && FirstAtLeast(m, x) < |m| && LessEq(x, z) && Less(z, m[FirstAtLeast(m, x)])
    ensures FirstAtLeast(m, z) == FirstAtLeast(m, x) && z !in m
  {
    TotalOrder();
    FirstAtLeastIs(m, z, FirstAtLeast(m, x));
    AbsentIffFirstDiffers(m, z);
  }

  lemma ReachedIsFound(v: seq<Key>, m: seq<Key>, x: Key)
    requires Sorted(v) && Sorted(m) && m != [] && x in v && x !in m
    requires FirstAtLeast(m, x) < |m| ==> Reaches(v, m[FirstAtLeast(m, x)])
    ensures x in Emitted(v, m)
  {
    TotalOrder();
    EmittedIff(v, m, x);
    AbsentIffFirstDiffers(m, x);
  }

  lemma FoundIsReached(v: seq<Key>, m: seq<Key>, x: Key)
    requires Sorted(v) && Sorted(m) && x in v && x !in m && FirstAtLeast(m, x) < |m|
    requires FindsAllNew(v, m)
    ensures Reaches(v, m[FirstAtLeast(m, x)])
  {
    TotalOrder();
    AbsentIffFirstDiffers(m, x);
    var y := m[FirstAtLeast(m, x)];
    var i :| 0 <= i < |v| && v[i] == x;
    var z := LargestBelow(v, y, i);
    SameGap(m, x, z);
    EmittedIff(v, m, z);
    if y !in v {
      assert !Closed(v, m, z);
    }
  }

  lemma EmptyMapHidesFirst(v: seq<Key>)
    requires Sorted(v)
    ensures FindsAllNew(v, []) <==> v == [] || Twice(v, v[0])
  {
    forall x | x in v
      ensures x in Emitted(v, []) <==> Twice(v, x) || x != v[0]
    {
      EmittedIff(v, [], x);
    }
  }

  /** In general the search is not complete: it gives out all new keys exactly when, for every new key below the
      largest of the map, the vector reaches the map's next key, or the map is empty and there is nothing to
      find or the first key is searched for twice. */
  lemma FindsAllNewIff(v: seq<Key>, m: seq<Key>)
    requires Sorted(v) && Sorted(m)
    ensures FindsAllNew(v, m) <==> if m == [] then v == [] || Twice(v, v[0]) else GapsAreReached(v, m)
  {
    if m == [] {
      EmptyMapHidesFirst(v);
    } else {
      if GapsAreReached(v, m) {
        forall x | x in v && x !in m
          ensures x in Emitted(v, m)
        {
          ReachedIsFound(v, m, x);
        }
      }
      if FindsAllNew(v, m) {
        forall x | x in v && x !in m && FirstAtLeast(m, x) < |m|
          ensures Reaches(v, m[FirstAtLeast(m, x)])
        {
          FoundIsReached(v, m, x);
        }
      }
    }
  }

  /** For a new key with a key of the map above it, the first such key of the map is in the vector too. */
  predicate GapsAreClosed(v: seq<Key>, m: seq<Key>) {
    forall x :: x in v && x !in m && FirstAtLeast(m, x) < |m| ==> m[FirstAtLeast(m, x)] in v
  }

  /** Of a strictly increasing vector all new keys are given out exactly when the map's next keys are in it. */
  lemma StrictFindsAllNewIff(v: seq<Key>, m: seq<Key>)
    requires StrictlySorted(v) && Sorted(m)
    ensures FindsAllNew(v, m) <==> if m == [] then v == [] else GapsAreClosed(v, m)
  {
    TotalOrder();
    FindsAllNewIff(v, m);
    forall x
      ensures !Twice(v, x)
    {
      StrictIsOnce(v, x);
    }
  }

  /** The search is the set difference exactly when it finds all new keys and no known key is searched for twice. */
  lemma IsDifferenceIff(v: seq<Key>, m: seq<Key>)
    requires Sorted(v) && Sorted(m)
    ensures Elements(Emitted(v, m)) == Elements(v) - Elements(m)
            <==> (forall x :: x in v && Twice(v, x) ==> x !in m)
                 && if m == [] then v == [] || Twice(v, v[0]) else GapsAreReached(v, m)
  {
    FindsOnlyNewIff(v, m);
    FindsAllNewIff(v, m);
    var found, wanted := Elements(Emitted(v, m)), Elements(v) - Elements(m);
    forall x
      ensures x in found <==> x in Emitted(v, m)
      ensures x in wanted <==> x in v && x !in m
      ensures x in found ==> x in v
    {
      EmittedIff(v, m, x);
    }
    if found == wanted {
      assert forall x :: x in Emitted(v, m) ==> x in wanted;
      assert forall x :: x in v && x !in m ==> x in found;
    }
  }

  /** Searching for 3 twice in a map that holds it gives it out, and searching for 1 twice finds it where
      searching for it once does not. */
  lemma RepeatedKeys()
    ensures Emitted(["3", "3"], ["3"]) == ["3"] && !FindsOnlyNew(["3", "3"], ["3"])
    ensures FindsAllNew(["1", "1"], ["3"]) && !FindsAllNew(["1"], ["3"])
  {
    assert Less("1", "3") && !Less("3", "3") && !Less("1", "1");
    assert FirstAtLeast(["3"], "3") == 0 && FirstAtLeast(["3"], "1") == 0;
    assert EmittedUpTo(["3", "3"], ["3"], 1) == ["3"];
    assert EmittedUpTo(["3", "3"], ["3"], 2) == ["3"];
    assert "3" in Emitted(["3", "3"], ["3"]) && "3" in ["3"];
    assert EmittedUpTo(["1", "1"], ["3"], 1) == ["1"];
    assert EmittedUpTo(["1", "1"], ["3"], 2) == ["1"];
    assert EmittedUpTo(["1"], ["3"], 1) == [];
    assert "1" in ["1"] && "1" !in ["3"];
  }

  /** Searching 1 and 5 in a map that holds 3 finds 5 only, although 1 is new as well. */
  lemma MissedKey()
    ensures Emitted(["1", "5"], ["3"]) == ["5"] && "1" !in ["3"]
    ensures !FindsAllNew(["1", "5"], ["3"])
  {
    var v, m := ["1", "5"], ["3"];
    assert Less("1", "3") && !Less("3", "1") && Less("3", "5") && !Less("5", "3");
    assert FirstAtLeast(m, "1") == 0;
    assert FirstAtLeast(m[1..], "5") == 0;
    assert FirstAtLeast(m, "5") == 1;
    assert !Emits(v, m, 0) && Emits(v, m, 1);
    assert EmittedUpTo(v, m, 1) == [];
    assert EmittedUpTo(v, m, 2) == ["5"];
    assert v[0] == "1";
  }

  // ---------- What a node has collected ----------

  /** The keys at the indices 99, 198, ..., which two batches have. */
  function Resent(q: seq<Key>): seq<Key> {
    if |q| < BATCH_COUNT then [] else [q[BATCH_COUNT - 1]] + Resent(q[BATCH_COUNT - 1..])
  }

  lemma {:induction false} ResentAt(q: seq<Key>, b: nat)
    requires 0 < b && (BATCH_COUNT - 1) * b < |q|
    ensures q[(BATCH_COUNT - 1) * b] in Resent(q)
  {
    var rest := q[BATCH_COUNT - 1..];
    if b > 1 {
      ResentAt(rest, b - 1);
      assert rest[(BATCH_COUNT - 1) * (b - 1)] == q[(BATCH_COUNT - 1) * b];
    }
  }

  lemma CopiesOverlap(q: seq<Key>, more: multiset<Key>)
    requires |q| >= BATCH_COUNT
    ensures multiset(q[..BATCH_COUNT]) + (multiset(q[BATCH_COUNT - 1..]) + more) == multiset(q) + (multiset{q[BATCH_COUNT - 1]} + more)
  {
    assert q[..BATCH_COUNT] == q[..BATCH_COUNT - 1] + [q[BATCH_COUNT - 1]];
    assert q == q[..BATCH_COUNT - 1] + q[BATCH_COUNT - 1..];
  }

  /** The batches have every key of the vector as often as it has it, and those that are sent twice once more. */
  lemma {:induction false} BatchesTimes(q: seq<Key>)
    ensures multiset(Flatten(Batches(q))) == multiset(q) + multiset(Resent(q))
  {
    if |q| < BATCH_COUNT {
      assert Flatten([q]) == q + Flatten([q][1..]) == q;
    } else {
      var rest := q[BATCH_COUNT - 1..];
      BatchesTimes(rest);
      assert Batches(q)[1..] == Batches(rest);
      CopiesOverlap(q, multiset(Resent(rest)));
    }
  }

  /** The writing thread for find keys sorts its vector and searches for it. */
  method SearchCollected(file: File, collected: seq<Key>) returns (output: seq<Key>)
    requires Sorted(Visible(file))
    ensures output == Emitted(Sort(collected), Visible(file))
    ensures Sorted(output) && forall x :: x in output ==> x in collected
  {
    SortSorts(collected);
    output := SearchNew(file, Sort(collected));
    EmittedInOrder(Sort(collected), Visible(file));
    forall x | x in output
      ensures x in collected
    {
      assert x in multiset(Sort(collected));
    }
  }

  /** A node sorts the keys that it has collected and searches for them: a key that the map has is given out,
      exactly if the node has collected it twice. */
  lemma CollectedComesBackIff(collected: seq<Key>, m: seq<Key>, x: Key)
    requires Sorted(m) && x in m
    ensures x in Emitted(Sort(collected), m) <==> multiset(collected)[x] > 1
  {
    SortSorts(collected);
    KnownComesBackIff(Sort(collected), m, x);
  }

  /** A known key that a client sends once is given out as new, if a node forwards it at the index 99, 198, ... of
      a vector, and its owner has collected all copies that come of that. */
  lemma ForwardedKeyComesBack(q: seq<Key>, b: nat, collected: seq<Key>, m: seq<Key>)
    requires 0 < b && (BATCH_COUNT - 1) * b < |q|
    requires Sorted(m) && q[(BATCH_COUNT - 1) * b] in m
    requires var x := q[(BATCH_COUNT - 1) * b]; multiset(Flatten(Batches(q)))[x] <= multiset(collected)[x]
    ensures q[(BATCH_COUNT - 1) * b] in Emitted(Sort(collected), m)
  {
    var x := q[(BATCH_COUNT - 1) * b];
    ResentAt(q, b);
    BatchesTimes(q);
    assert x in multiset(q) && x in multiset(Resent(q));
    CollectedComesBackIff(collected, m, x);
  }
}

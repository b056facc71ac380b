/** `operator +` on sorted vectors, and the sorting of a directory by folding it.

    The elements are of any type with a key that they are compared by, so that stability can be stated.
 */
module Merging {
  import opened Keys

  predicate SortedBy<T>(s: seq<T>, key: T -> Key) {
    forall i, j :: 0 <= i < j < |s| ==> LessEq(key(s[i]), key(s[j]))
  }

  function Merge<T>(a: seq<T>, b: seq<T>, key: T -> Key): (c: seq<T>)
    ensures |c| == |a| + |b|
  {
    if a == [] then b
    else if b == [] then a
    else if Less(key(b[0]), key(a[0])) then [b[0]] + Merge(a, b[1..], key)
    else [a[0]] + Merge(a[1..], b, key)
  }

  /** `operator +`: fills every cell of an array made to measure. */
  method Plus<T(0)>(a: seq<T>, b: seq<T>, key: T -> Key) returns (c: array<T>)
    ensures fresh(c) && c[..] == Merge(a, b, key)
  {
    c := new T[|a| + |b|];
    var itA, itB, itC := 0, 0, 0;
    assert a[0..] == a && b[0..] == b;
    while itC != c.Length
      invariant 0 <= itA <= |a| && 0 <= itB <= |b| && itC == itA + itB
      invariant c[..itC] + Merge(a[itA..], b[itB..], key) == Merge(a, b, key)
      decreases c.Length - itC
    {
      ghost var i, j, done := itA, itB, c[..itC];
      if itA != |a| && itB != |b| {
        if Less(key(b[itB]), key(a[itA])) {
          c[itC] := b[itB];
          itB := itB + 1;
        } else {
          c[itC] := a[itA];
          itA := itA + 1;
        }
      } else if itA == |a| {
        c[itC] := b[itB];
        itB := itB + 1;
      } else {
        c[itC] := a[itA];
        itA := itA + 1;
      }
      MergeStep(a, b, key, i, j, done);
      assert c[..itC + 1] == done + [c[itC]];
      itC := itC + 1;
    }
    assert Merge(a[itA..], b[itB..], key) == [];
  }

  /** Whether the next element comes from the second vector. */
  predicate TakesSecond<T>(a: seq<T>, b: seq<T>, key: T -> Key, i: nat, j: nat)
    requires i <= |a| && j <= |b| && i + j < |a| + |b|
  {
    i == |a| || (j < |b| && Less(key(b[j]), key(a[i])))
  }

  lemma MergeStep<T>(a: seq<T>, b: seq<T>, key: T -> Key, i: nat, j: nat, done: seq<T>)
    requires i <= |a| && j <= |b| && i + j < |a| + |b|
    ensures done + Merge(a[i..], b[j..], key)
         == (if TakesSecond(a, b, key, i, j) then (done + [b[j]]) + Merge(a[i..], b[j + 1..], key)
             else (done + [a[i]]) + Merge(a[i + 1..], b[j..], key))
  {
    if TakesSecond(a, b, key, i, j) {
      assert b[j..][1..] == b[j + 1..];
      assert Merge(a[i..], b[j..], key) == [b[j]] + Merge(a[i..], b[j + 1..], key);
      assert done + ([b[j]] + Merge(a[i..], b[j + 1..], key)) == (done + [b[j]]) + Merge(a[i..], b[j + 1..], key);
    } else {
      assert a[i..][1..] == a[i + 1..];
      assert Merge(a[i..], b[j..], key) == [a[i]] + Merge(a[i + 1..], b[j..], key);
      assert done + ([a[i]] + Merge(a[i + 1..], b[j..], key)) == (done + [a[i]]) + Merge(a[i + 1..], b[j..], key);
    }
  }

  /** The elements with the key `x`, in order. */
  function Same<T>(s: seq<T>, key: T -> Key, x: Key): seq<T> {
    if s == [] then [] else (if key(s[0]) == x then [s[0]] else []) + Same(s[1..], key, x)
  }

  lemma ConsKeeps<T>(x: T, s: seq<T>)
    ensures multiset([x] + s) == multiset{x} + multiset(s)
  {
  }

  lemma {:induction false} MergeKeeps<T>(a: seq<T>, b: seq<T>, key: T -> Key)
    ensures multiset(Merge(a, b, key)) == multiset(a) + multiset(b)
  {
    if a != [] && b != [] {
      if Less(key(b[0]), key(a[0])) {
        MergeKeeps(a, b[1..], key);
        ConsKeeps(b[0], Merge(a, b[1..], key));
        ConsKeeps(b[0], b[1..]);
        assert b == [b[0]] + b[1..];
      } else {
        MergeKeeps(a[1..], b, key);
        ConsKeeps(a[0], Merge(a[1..], b, key));
        ConsKeeps(a[0], a[1..]);
        assert a == [a[0]] + a[1..];
      }
    }
  }

  lemma ConsSortedBy<T>(x: T, s: seq<T>, key: T -> Key)
    requires SortedBy(s, key) && forall y :: y in s ==> LessEq(key(x), key(y))
    ensures SortedBy([x] + s, key)
  {
    forall i, j | 0 <= i < j < |[x] + s|
      ensures LessEq(key(([x] + s)[i]), key(([x] + s)[j]))
    {
      assert ([x] + s)[j] == s[j - 1];
    }
  }

  lemma MergeMembers<T>(a: seq<T>, b: seq<T>, key: T -> Key, y: T)
    requires y in Merge(a, b, key)
    ensures y in a || y in b
  {
    MergeKeeps(a, b, key);
    assert y in multiset(Merge(a, b, key));
  }

  lemma {:induction false} MergeSorted<T>(a: seq<T>, b: seq<T>, key: T -> Key)
    requires SortedBy(a, key) && SortedBy(b, key)
    ensures SortedBy(Merge(a, b, key), key)
  {
    if a != [] && b != [] {
      TotalOrder();
      if Less(key(b[0]), key(a[0])) {
        MergeSorted(a, b[1..], key);
        forall y | y in Merge(a, b[1..], key)
          ensures LessEq(key(b[0]), key(y))
        {
          MergeMembers(a, b[1..], key, y);
        }
        ConsSortedBy(b[0], Merge(a, b[1..], key), key);
      } else {
        MergeSorted(a[1..], b, key);
        forall y | y in Merge(a[1..], b, key)
          ensures LessEq(key(a[0]), key(y))
        {
          MergeMembers(a[1..], b, key, y);
        }
        ConsSortedBy(a[0], Merge(a[1..], b, key), key);
      }
    }
  }

  lemma {:induction false} NoneSame<T>(s: seq<T>, key: T -> Key, x: Key)
    requires forall y :: y in s ==> key(y) != x
    ensures Same(s, key, x) == []
  {
    if s != [] {
      assert s[0] in s;
      NoneSame(s[1..], key, x);
    }
  }

  /** The merge is stable: among equal keys first those of `a` and then those of `b`, each in their order. */
  lemma {:induction false} MergeStable<T>(a: seq<T>, b: seq<T>, key: T -> Key, x: Key)
    requires SortedBy(a, key) && SortedBy(b, key)
    ensures Same(Merge(a, b, key), key, x) == Same(a, key, x) + Same(b, key, x)
  {
    if a != [] && b != [] {
      var m := Merge(a, b, key);
      if Less(key(b[0]), key(a[0])) {
        MergeStable(a, b[1..], key, x);
        assert m[1..] == Merge(a, b[1..], key);
        if key(b[0]) == x {
          AboveHead(a, b[0], key);
          NoneSame(a, key, x);
        }
      } else {
        MergeStable(a[1..], b, key, x);
        assert m[1..] == Merge(a[1..], b, key);
      }
    }
  }

  lemma AboveHead<T>(a: seq<T>, y: T, key: T -> Key)
    requires a != [] && SortedBy(a, key) && Less(key(y), key(a[0]))
    ensures forall z :: z in a ==> key(z) != key(y)
  {
    TotalOrder();
    forall z | z in a
      ensures key(z) != key(y)
    {
      var i :| 0 <= i < |a| && a[i] == z;
      assert i > 0 ==> LessEq(key(a[0]), key(a[i]));
    }
  }

  lemma {:induction false} SameHas<T>(s: seq<T>, key: T -> Key, x: Key)
    ensures Same(s, key, x) != [] <==> exists y :: y in s && key(y) == x
    ensures Same(s, key, x) != [] ==> key(Same(s, key, x)[0]) == x
  {
    if s != [] {
      SameHas(s[1..], key, x);
      assert forall y :: y in s <==> y == s[0] || y in s[1..];
    }
  }

  /** Sorted, and with the given elements for every key: there is only one such sequence. */
  lemma {:induction false} StableUnique<T>(c: seq<T>, d: seq<T>, key: T -> Key)
    requires SortedBy(c, key) && SortedBy(d, key)
    requires forall x :: Same(c, key, x) == Same(d, key, x)
    ensures c == d
  {
    if c == [] || d == [] {
      if c != [] { SameHas(c, key, key(c[0])); SameHas(d, key, key(c[0])); }
      if d != [] { SameHas(c, key, key(d[0])); SameHas(d, key, key(d[0])); }
    } else {
      SameHead(c, d, key);
      SameHead(d, c, key);
      TotalOrder();
      assert Same(c, key, key(c[0]))[0] == c[0] && Same(d, key, key(d[0]))[0] == d[0];
      forall x
        ensures Same(c[1..], key, x) == Same(d[1..], key, x)
      {
        assert Same(c, key, x) == (if key(c[0]) == x then [c[0]] else []) + Same(c[1..], key, x);
        assert Same(d, key, x) == (if key(d[0]) == x then [d[0]] else []) + Same(d[1..], key, x);
        if key(c[0]) == x {
          assert Same(c, key, x)[1..] == Same(c[1..], key, x);
          assert Same(d, key, x)[1..] == Same(d[1..], key, x);
        } else {
          assert Same(c, key, x) == Same(c[1..], key, x) && Same(d, key, x) == Same(d[1..], key, x);
        }
      }
      StableUnique(c[1..], d[1..], key);
      assert c == [c[0]] + c[1..] && d == [d[0]] + d[1..];
    }
  }

  /** The first key of the one is no larger than the first key of the other. */
  lemma SameHead<T>(c: seq<T>, d: seq<T>, key: T -> Key)
    requires c != [] && d != [] && SortedBy(c, key)
    requires Same(c, key, key(d[0])) == Same(d, key, key(d[0]))
    ensures LessEq(key(c[0]), key(d[0]))
  {
    SameHas(d, key, key(d[0]));
    SameHas(c, key, key(d[0]));
    var y :| y in c && key(y) == key(d[0]);
    var i :| 0 <= i < |c| && c[i] == y;
    TotalOrder();
    assert i > 0 ==> LessEq(key(c[0]), key(c[i]));
  }

  // ---------- sort_directory ----------

  function Identity(): Key -> Key {
    x => x
  }

  /** Sorting a directory: the sorted tokens of the first file, merged with those of each other file.
      Nothing is written for an empty directory. */
  method SortDirectory(files: seq<seq<Key>>) returns (written: bool, output: seq<Key>)
    ensures written == (files != [])
    ensures Sorted(output) && multiset(output) == multiset(Flatten(files))
  {
    written, output := false, [];
    if |files| > 0 {
      SortSorts(files[0]);
      var sortedData := Sort(files[0]);
      FlattenNext(files, 0);
      var k := 1;
      while k < |files|
        invariant 1 <= k <= |files|
        invariant Sorted(sortedData) && multiset(sortedData) == multiset(Flatten(files[..k]))
      {
        SortSorts(files[k]);
        var fileData := Sort(files[k]);
        MergeSorted(sortedData, fileData, Identity());
        MergeKeeps(sortedData, fileData, Identity());
        FlattenNext(files, k);
        var c := Plus(sortedData, fileData, Identity());
        sortedData := c[..];
        k := k + 1;
      }
      assert files[..k] == files;
      written, output := true, sortedData;
    }
  }
}

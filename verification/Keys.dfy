/** Keys are `std::string`s under `operator<`, which compares lexicographically.

    The order is proved total here; the modules that sort or merge keys rely on nothing else about it.
 */
module Keys {

  type Key = string

  /** `a < b` on strings. */
  predicate Less(a: Key, b: Key) {
    if b == [] then false
    else if a == [] then true
    else if a[0] != b[0] then a[0] < b[0]
    else Less(a[1..], b[1..])
  }

  /** `a <= b` on strings. */
  predicate LessEq(a: Key, b: Key) {
    !Less(b, a)
  }

  lemma {:induction false} LessTrichotomy(a: Key, b: Key)
    ensures Less(a, b) || a == b || Less(b, a)
    ensures !(Less(a, b) && Less(b, a))
    ensures a == b ==> !Less(a, b)
  {
    if a != [] && b != [] && a[0] == b[0] {
      LessTrichotomy(a[1..], b[1..]);
      assert a == [a[0]] + a[1..] && b == [b[0]] + b[1..];
    }
  }

  lemma {:induction false} LessTransitive(a: Key, b: Key, c: Key)
    requires Less(a, b) && Less(b, c)
    ensures Less(a, c)
  {
    if a != [] && a[0] == b[0] && b[0] == c[0] {
      LessTransitive(a[1..], b[1..], c[1..]);
    }
  }

  /** `operator<` is a strict total order. */
  lemma TotalOrder()
    ensures forall a, b :: Less(a, b) || a == b || Less(b, a)
    ensures forall a, b :: Less(a, b) ==> !Less(b, a) && a != b
    ensures forall a, b, c :: Less(a, b) && Less(b, c) ==> Less(a, c)
  {
    forall a, b
      ensures Less(a, b) || a == b || Less(b, a)
      ensures Less(a, b) ==> !Less(b, a) && a != b
    {
      LessTrichotomy(a, b);
    }
    forall a, b, c | Less(a, b) && Less(b, c)
      ensures Less(a, c)
    {
      LessTransitive(a, b, c);
    }
  }

  /** Where two strings differ: one ends, or has the smaller character. */
  predicate DiffersAt(a: Key, b: Key, k: nat) {
    && k <= |a| && k <= |b| && a[..k] == b[..k]
    && (if k == |a| then k < |b| else k < |b| && a[k] < b[k])
  }

  lemma DiffersLater(a: Key, b: Key, k: nat)
    requires a != [] && b != [] && a[0] == b[0]
    ensures DiffersAt(a[1..], b[1..], k) <==> DiffersAt(a, b, k + 1)
  {
    if k < |a| && k < |b| {
      assert a[..k + 1] == [a[0]] + a[1..][..k] && b[..k + 1] == [b[0]] + b[1..][..k];
      assert a[..k + 1][1..] == a[1..][..k] && b[..k + 1][1..] == b[1..][..k];
    }
  }

  /** `operator<` is the lexicographic order: behind a common beginning, the first string ends or has the smaller
      character. */
  lemma {:induction false} LessMeans(a: Key, b: Key)
    ensures Less(a, b) <==> exists k: nat :: DiffersAt(a, b, k)
  {
    if a == [] || b == [] || a[0] != b[0] {
      assert DiffersAt(a, b, 0) <==> Less(a, b);
      assert forall k: nat :: DiffersAt(a, b, k) ==> k == 0 || a[..k][0] == b[..k][0];
    } else {
      LessMeans(a[1..], b[1..]);
      forall k: nat
        ensures DiffersAt(a[1..], b[1..], k) <==> DiffersAt(a, b, k + 1)
      {
        DiffersLater(a, b, k);
      }
      if k: nat :| DiffersAt(a, b, k) {
        assert k > 0;
        assert DiffersAt(a[1..], b[1..], k - 1);
      }
    }
  }

  predicate Sorted(s: seq<Key>) {
    forall i, j :: 0 <= i < j < |s| ==> LessEq(s[i], s[j])
  }

  predicate StrictlySorted(s: seq<Key>) {
    forall i, j :: 0 <= i < j < |s| ==> Less(s[i], s[j])
  }

  function Elements<T>(s: seq<T>): set<T> {
    set x | x in s
  }

  lemma {:induction false} ElementsSize<T>(s: seq<T>)
    ensures |Elements(s)| <= |s|
  {
    if s == [] {
      assert Elements(s) == {};
    } else {
      ElementsSize(s[1..]);
      assert s == [s[0]] + s[1..];
      assert Elements(s) == {s[0]} + Elements(s[1..]);
    }
  }

  function Flatten<T>(ss: seq<seq<T>>): seq<T> {
    if ss == [] then [] else ss[0] + Flatten(ss[1..])
  }

  lemma {:induction false} FlattenAppend<T>(a: seq<seq<T>>, b: seq<seq<T>>)
    ensures Flatten(a + b) == Flatten(a) + Flatten(b)
  {
    if a == [] {
      assert a + b == b;
    } else {
      assert (a + b)[1..] == a[1..] + b;
      FlattenAppend(a[1..], b);
    }
  }

  lemma FlattenNext<T>(ss: seq<seq<T>>, k: nat)
    requires k < |ss|
    ensures Flatten(ss[..k + 1]) == Flatten(ss[..k]) + ss[k]
  {
    assert ss[..k + 1] == ss[..k] + [ss[k]];
    FlattenAppend(ss[..k], [ss[k]]);
    assert [ss[k]][1..] == [];
    assert Flatten([ss[k]]) == ss[k] + Flatten([ss[k]][1..]);
  }

  lemma FlattenAll<T>(ss: seq<seq<T>>, k: nat)
    requires k == |ss|
    ensures Flatten(ss[..k]) == Flatten(ss)
  {
    assert ss[..k] == ss;
  }

  /** A strictly sorted sequence is determined by its set of keys. */
  lemma {:induction false} StrictlySortedUnique(s: seq<Key>, t: seq<Key>)
    requires StrictlySorted(s) && StrictlySorted(t)
    requires Elements(s) == Elements(t)
    ensures s == t
  {
    TotalOrder();
    assert s != [] ==> s[0] in Elements(s);
    assert t != [] ==> t[0] in Elements(t);
    if s != [] && t != [] {
      assert s[0] in Elements(t) && t[0] in Elements(s);
      assert s[0] == t[0];
      forall x
        ensures x in Elements(s[1..]) <==> x in Elements(t[1..])
      {
        RestElements(s, x);
        RestElements(t, x);
      }
      StrictlySortedUnique(s[1..], t[1..]);
      assert s == [s[0]] + s[1..] && t == [t[0]] + t[1..];
    }
  }

  lemma RestElements(s: seq<Key>, x: Key)
    requires s != [] && StrictlySorted(s)
    ensures x in Elements(s[1..]) <==> x in Elements(s) && x != s[0]
  {
    TotalOrder();
    if x in s && x != s[0] {
      var i :| 0 <= i < |s| && s[i] == x;
      assert s[1..][i - 1] == x;
    }
  }

  /** `std::sort`: insertion of every key, in order. */
  function Insert(x: Key, s: seq<Key>): seq<Key> {
    if s == [] then [x]
    else if Less(s[0], x) then [s[0]] + Insert(x, s[1..])
    else [x] + s
  }

  function Sort(s: seq<Key>): seq<Key> {
    if s == [] then [] else Insert(s[0], Sort(s[1..]))
  }

  lemma {:induction false} InsertKeeps(x: Key, s: seq<Key>)
    ensures multiset(Insert(x, s)) == multiset(s) + multiset{x}
  {
    if s != [] {
      assert s == [s[0]] + s[1..];
      InsertKeeps(x, s[1..]);
    }
  }

  /** A least key in front of a sorted sequence. */
  lemma ConsSorted(x: Key, s: seq<Key>)
    requires Sorted(s)
    requires forall y :: y in s ==> LessEq(x, y)
    ensures Sorted([x] + s)
  {
    var t := [x] + s;
    forall i, j | 0 <= i < j < |t|
      ensures LessEq(t[i], t[j])
    {
      assert t[j] == s[j - 1];
    }
  }

  lemma {:induction false} InsertSorted(x: Key, s: seq<Key>)
    requires Sorted(s)
    ensures Sorted(Insert(x, s))
  {
    TotalOrder();
    if s != [] {
      if Less(s[0], x) {
        InsertSorted(x, s[1..]);
        InsertKeeps(x, s[1..]);
        var r := Insert(x, s[1..]);
        forall y | y in r
          ensures LessEq(s[0], y)
        {
          assert y in multiset(r);
        }
        ConsSorted(s[0], r);
      } else {
        ConsSorted(x, s);
      }
    }
  }

  lemma {:induction false} SortSorts(s: seq<Key>)
    ensures Sorted(Sort(s))
    ensures multiset(Sort(s)) == multiset(s)
  {
    if s != [] {
      SortSorts(s[1..]);
      InsertSorted(s[0], Sort(s[1..]));
      InsertKeeps(s[0], Sort(s[1..]));
      assert s == [s[0]] + s[1..];
    }
  }
}

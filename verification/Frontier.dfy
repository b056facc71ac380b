/** The filter in front of the crawl queue: repairing duplicates among the known keys, then keeping only the
    first occurrence of each candidate that is not known, in chunks.
 */
module Frontier {
  import opened Machine
  import opened Keys
  import opened Text

  ghost predicate Distinct(s: seq<Key>) {
    forall i, j :: 0 <= i < j < |s| ==> s[i] != s[j]
  }

  lemma DistinctNext(s: seq<Key>, x: Key)
    ensures Distinct(s + [x]) <==> Distinct(s) && x !in s
  {
    var t := s + [x];
    if Distinct(t) {
      forall i, j | 0 <= i < j < |s|
        ensures s[i] != s[j]
      {
        assert t[i] != t[j];
      }
      forall i | 0 <= i < |s|
        ensures s[i] != x
      {
        assert t[i] != t[|s|];
      }
    }
  }

  lemma DistinctPrefix(s: seq<Key>, t: seq<Key>)
    ensures Distinct(s + t) ==> Distinct(s)
  {
    if Distinct(s + t) {
      forall i, j | 0 <= i < j < |s|
        ensures s[i] != s[j]
      {
        assert (s + t)[i] != (s + t)[j];
      }
    }
  }

  lemma ElementsNext(s: seq<Key>, x: Key)
    ensures Elements(s + [x]) == Elements(s) + {x}
  {
  }

  /** The next key of a row, after what came before the row. */
  lemma RowNext(seen: seq<Key>, row: seq<Key>, i: nat)
    requires i < |row|
    ensures seen + row[..i + 1] == (seen + row[..i]) + [row[i]]
  {
  }

  lemma RowEnds(seen: seq<Key>, row: seq<Key>)
    ensures seen + row[..0] == seen && seen + row[..|row|] == seen + row
  {
  }

  // ---------- verify_uniqueness ----------

  lemma {:induction false} DistinctCounts(s: seq<Key>)
    ensures Distinct(s) <==> forall x :: x in s ==> multiset(s)[x] <= 1
  {
    if s != [] {
      var t, x := s[..|s| - 1], s[|s| - 1];
      assert s == t + [x];
      DistinctCounts(t);
      DistinctNext(t, x);
      assert multiset(s) == multiset(t) + multiset{x};
      if forall y :: y in s ==> multiset(s)[y] <= 1 {
        assert multiset(s)[x] <= 1;
        assert x !in t by {
          assert x in t ==> x in multiset(t);
        }
        forall y | y in t
          ensures multiset(t)[y] <= 1
        {
          assert multiset(s)[y] <= 1;
        }
      }
      if Distinct(s) {
        assert x !in multiset(t);
      }
    }
  }

  /** The map counts the keys seen. */
  ghost predicate Counts(uniqueMap: map<Key, nat>, seen: seq<Key>) {
    uniqueMap.Keys == Elements(seen) && forall x :: x in uniqueMap ==> uniqueMap[x] == multiset(seen)[x]
  }

  method CountKey(x: Key, counts: map<Key, nat>, ghost seen: seq<Key>) returns (uniqueMap: map<Key, nat>)
    requires Counts(counts, seen)
    ensures Counts(uniqueMap, seen + [x])
  {
    ElementsNext(seen, x);
    assert x !in Elements(seen) ==> multiset(seen)[x] == 0;
    if x !in counts {
      uniqueMap := counts[x := 1];
    } else {
      uniqueMap := counts[x := counts[x] + 1];
    }
  }

  method CountRow(row: seq<Key>, counts: map<Key, nat>, ghost seen: seq<Key>) returns (uniqueMap: map<Key, nat>)
    requires Counts(counts, seen)
    ensures Counts(uniqueMap, seen + row)
  {
    uniqueMap := counts;
    RowEnds(seen, row);
    for i := 0 to |row|
      invariant Counts(uniqueMap, seen + row[..i])
    {
      RowNext(seen, row, i);
      uniqueMap := CountKey(row[i], uniqueMap, seen + row[..i]);
    }
  }

  method CountKeys(vec: seq<seq<Key>>) returns (uniqueMap: map<Key, nat>)
    ensures Counts(uniqueMap, Flatten(vec))
  {
    uniqueMap := map[];
    for k := 0 to |vec|
      invariant Counts(uniqueMap, Flatten(vec[..k]))
    {
      FlattenNext(vec, k);
      uniqueMap := CountRow(vec[k], uniqueMap, Flatten(vec[..k]));
    }
    FlattenAll(vec, |vec|);
  }

  method VerifyUniqueness(vec: seq<seq<Key>>) returns (unique: bool)
    ensures unique <==> Distinct(Flatten(vec))
  {
    var uniqueMap := CountKeys(vec);
    DistinctCounts(Flatten(vec));
    var it := uniqueMap.Keys;
    while it != {}
      invariant it <= uniqueMap.Keys
      invariant forall x :: x in uniqueMap.Keys - it ==> uniqueMap[x] <= 1
      decreases |it|
    {
      var x :| x in it;
      if uniqueMap[x] > 1 {
        assert x in Elements(Flatten(vec));
        return false;
      }
      it := it - {x};
    }
    forall x | x in Flatten(vec)
      ensures multiset(Flatten(vec))[x] <= 1
    {
      assert x in uniqueMap.Keys - it;
    }
    return true;
  }

  // ---------- enforce_uniqueness ----------

  /** `atoi`, for numbers of any size: blanks, a sign, digits; zero if there is no digit. */
  function Atoi(s: string): int {
    var t := SkipSpace(s);
    if t != "" && t[0] == '-' then 0 - Value(t[1..][..DigitLength(t[1..])])
    else if t != "" && t[0] == '+' then Value(t[1..][..DigitLength(t[1..])])
    else Value(t[..DigitLength(t)])
  }

  lemma AtoiDigits(n: nat)
    ensures Atoi(Digits(n)) == n
  {
    var s := Digits(n);
    assert IsDigit(s[0]);
    assert SkipSpace(s) == s;
    assert s[..DigitLength(s)] == s;
    DigitsValue(n);
  }

  /** A sign in front of the digits, and text without a number. */
  lemma AtoiOthers(n: nat, s: string)
    ensures Atoi("-" + Digits(n)) == 0 - n && Atoi("+" + Digits(n)) == n
    ensures SkipSpace(s) == "" || !(IsDigit(SkipSpace(s)[0]) || IsSign(SkipSpace(s)[0])) ==> Atoi(s) == 0
  {
    var d := Digits(n);
    DigitsValue(n);
    assert ("-" + d)[1..] == d && ("+" + d)[1..] == d && d[..DigitLength(d)] == d;
    assert SkipSpace("-" + d) == "-" + d && SkipSpace("+" + d) == "+" + d;
    var t := SkipSpace(s);
    assert t[..0] == "";
  }

  /** The number that replaces a duplicate: one more than its value, as a `std::size_t` if that is negative. */
  function Next(s: Key): nat {
    var v := Atoi(s) + 1;
    if v < 0 then ToWord(v) else v
  }

  lemma NextOfDigits(n: nat)
    ensures Next(Digits(n)) == n + 1
  {
    AtoiDigits(n);
  }

  /** What follows a number, a negative number and text without a number. */
  lemma NextMeans(n: nat, s: string)
    ensures Next(Digits(n)) == n + 1
    ensures n <= 1 ==> Next("-" + Digits(n)) == 1 - n
    ensures 1 < n <= WORD ==> Next("-" + Digits(n)) == WORD + 1 - n
    ensures SkipSpace(s) == "" || !(IsDigit(SkipSpace(s)[0]) || IsSign(SkipSpace(s)[0])) ==> Next(s) == 1
  {
    NextOfDigits(n);
    AtoiOthers(n, s);
    if 1 < n <= WORD {
      ToWordOfNegative(n - 1);
    }
  }

  lemma ToWordOfNegative(n: nat)
    requires 0 < n <= WORD - 1
    ensures ToWord(0 - n) == WORD - n
  {
  }

  /** What a key becomes when `known` are taken: itself if it is free, else the first free number after it. */
  ghost predicate RepairOf(s: Key, known: set<Key>, r: Key) {
    if s !in known then r == s
    else exists m: nat :: Next(s) <= m && r == Digits(m) && r !in known && AllTaken(Next(s), m, known)
  }

  lemma RepairUnique(s: Key, known: set<Key>, a: Key, b: Key)
    requires RepairOf(s, known, a) && RepairOf(s, known, b)
    ensures a == b
  {
    if s in known {
      var m: nat :| Next(s) <= m && a == Digits(m) && a !in known && AllTaken(Next(s), m, known);
      var n: nat :| Next(s) <= n && b == Digits(n) && b !in known && AllTaken(Next(s), n, known);
      assert m == n;
    }
  }

  /** The inner loop: count up until the key is free. It ends because only finitely many keys are taken. */
  method FirstFree(s: Key, uniqueMap: map<Key, nat>) returns (r: Key)
    ensures RepairOf(s, uniqueMap.Keys, r)
  {
    r := s;
    ghost var started, n := false, Next(s);
    while r in uniqueMap
      invariant if started then s in uniqueMap && Next(s) <= n && r == Digits(n) else r == s && n == Next(s)
      invariant AllTaken(Next(s), n, uniqueMap.Keys)
      decreases !started, |uniqueMap.Keys| + Next(s) - n
    {
      NextOfDigits(n);
      if started {
        n := n + 1;
        Pigeonhole(Next(s), n, uniqueMap.Keys);
      }
      r := Digits(Next(r));
      started := true;
    }
  }

  /** Each key is repaired with respect to the repaired keys before it. */
  ghost predicate Repairs(input: seq<Key>, output: seq<Key>) {
    |output| == |input| && forall i :: 0 <= i < |input| ==> RepairOf(input[i], Elements(output[..i]), output[i])
  }

  lemma RepairsNext(input: seq<Key>, output: seq<Key>, x: Key, r: Key)
    requires Repairs(input, output) && RepairOf(x, Elements(output), r)
    ensures Repairs(input + [x], output + [r])
  {
    var a, b := input + [x], output + [r];
    forall i | 0 <= i < |a|
      ensures RepairOf(a[i], Elements(b[..i]), b[i])
    {
      assert b[..i] == output[..i];
      if i == |input| {
        assert output[..i] == output;
      }
    }
  }

  predicate SameShape(a: seq<seq<Key>>, b: seq<seq<Key>>) {
    |a| == |b| && forall k :: 0 <= k < |a| ==> |a[k]| == |b[k]|
  }

  method RepairKey(x: Key, known: map<Key, nat>, ghost input: seq<Key>, ghost output: seq<Key>)
    returns (r: Key, uniqueMap: map<Key, nat>)
    requires Repairs(input, output) && known.Keys == Elements(output)
    ensures Repairs(input + [x], output + [r]) && uniqueMap.Keys == Elements(output + [r])
  {
    r := FirstFree(x, known);
    uniqueMap := known[r := 1];
    RepairsNext(input, output, x, r);
    ElementsNext(output, r);
  }

  method RepairRow(row: seq<Key>, known: map<Key, nat>, ghost input: seq<Key>, ghost output: seq<Key>)
    returns (vec: seq<Key>, uniqueMap: map<Key, nat>)
    requires Repairs(input, output) && known.Keys == Elements(output)
    ensures |vec| == |row| && Repairs(input + row, output + vec)
    ensures uniqueMap.Keys == Elements(output + vec)
  {
    vec, uniqueMap := row, known;
    ghost var before, after := input, output;
    for i := 0 to |row|
      invariant |vec| == |row| && vec[i..] == row[i..]
      invariant before == input + row[..i] && after == output + vec[..i]
      invariant Repairs(before, after) && uniqueMap.Keys == Elements(after)
    {
      assert vec[i] == row[i] && vec[i + 1..] == row[i + 1..] by {
        assert vec[i] == vec[i..][0] && vec[i + 1..] == vec[i..][1..];
      }
      var r;
      r, uniqueMap := RepairKey(vec[i], uniqueMap, before, after);
      RowNext(input, row, i);
      before, after := before + [row[i]], after + [r];
      vec := vec[i := r];
    }
    assert row[..|row|] == row && vec[..|row|] == vec;
  }

  method EnforceUniqueness(input: seq<seq<Key>>) returns (vec: seq<seq<Key>>)
    ensures SameShape(input, vec)
    ensures Repairs(Flatten(input), Flatten(vec))
  {
    vec := input;
    var uniqueMap: map<Key, nat> := map[];
    var k := 0;
    while k < |vec|
      invariant 0 <= k <= |vec| && SameShape(input, vec)
      invariant vec[k..] == input[k..]
      invariant Repairs(Flatten(input[..k]), Flatten(vec[..k]))
      invariant uniqueMap.Keys == Elements(Flatten(vec[..k]))
    {
      assert vec[k] == vec[k..][0] == input[k];
      ghost var was := vec;
      var row;
      row, uniqueMap := RepairRow(vec[k], uniqueMap, Flatten(input[..k]), Flatten(vec[..k]));
      vec := vec[k := row];
      FlattenNext(input, k);
      FlattenNext(vec, k);
      assert vec[..k] == was[..k];
      assert vec[k + 1..] == was[k..][1..] == input[k..][1..] == input[k + 1..];
      k := k + 1;
    }
    FlattenAll(input, k);
    FlattenAll(vec, k);
  }

  /** After the repair all keys are different and every original key is still there. */
  lemma RepairedAreDistinct(input: seq<Key>, output: seq<Key>)
    requires Repairs(input, output)
    ensures Distinct(output)
    ensures Elements(input) <= Elements(output)
  {
    forall i | 0 <= i < |output|
      ensures output[i] !in output[..i]
    {
      assert RepairOf(input[i], Elements(output[..i]), output[i]);
      assert output[i] !in Elements(output[..i]);
    }
    forall i, j | 0 <= i < j < |output|
      ensures output[i] != output[j]
    {
      assert output[..j][i] == output[i];
    }
    forall i | 0 <= i < |input|
      ensures input[i] in output
    {
      assert RepairOf(input[i], Elements(output[..i]), output[i]);
      assert input[i] in Elements(output[..i]) || output[i] == input[i];
    }
  }

  lemma {:induction false} RepairsUnique(input: seq<Key>, a: seq<Key>, b: seq<Key>)
    requires Repairs(input, a) && Repairs(input, b)
    ensures a == b
  {
    if input != [] {
      var n := |input| - 1;
      RepairsPrefix(input, a, n);
      RepairsPrefix(input, b, n);
      RepairsUnique(input[..n], a[..n], b[..n]);
      RepairUnique(input[n], Elements(a[..n]), a[n], b[n]);
      assert a == a[..n] + [a[n]] && b == b[..n] + [b[n]];
    }
  }

  lemma RepairsPrefix(input: seq<Key>, output: seq<Key>, n: nat)
    requires Repairs(input, output) && n <= |input|
    ensures Repairs(input[..n], output[..n])
  {
    forall i | 0 <= i < n
      ensures RepairOf(input[..n][i], Elements(output[..n][..i]), output[..n][i])
    {
      assert output[..n][..i] == output[..i];
    }
  }

  /** The repair changes nothing exactly when there is nothing to repair. */
  lemma RepairIsIdentityIff(input: seq<Key>, output: seq<Key>)
    requires Repairs(input, output)
    ensures output == input <==> Distinct(input)
  {
    RepairedAreDistinct(input, output);
    if Distinct(input) {
      forall i | 0 <= i < |input|
        ensures RepairOf(input[i], Elements(input[..i]), input[i])
      {
        assert input[i] !in input[..i];
      }
      RepairsUnique(input, input, output);
    }
  }

  // ---------- remove_non_unique ----------

  /** The first occurrences of keys that are not known. */
  function FirstNew(s: seq<Key>, known: set<Key>): seq<Key> {
    if s == [] then []
    else
      var r, x := FirstNew(s[..|s| - 1], known), s[|s| - 1];
      if x in known || x in r then r else r + [x]
  }

  function FirstIndex(s: seq<Key>, x: Key): (i: nat)
    requires x in s
    ensures i < |s| && s[i] == x && x !in s[..i]
  {
    if s[0] == x then 0 else 1 + FirstIndex(s[1..], x)
  }

  lemma FirstIndexIs(s: seq<Key>, x: Key, i: nat)
    requires i < |s| && s[i] == x && x !in s[..i]
    ensures FirstIndex(s, x) == i
  {
    var j := FirstIndex(s, x);
    assert forall k: nat :: k < i ==> s[..i][k] == s[k];
    assert forall k: nat :: k < j ==> s[..j][k] == s[k];
  }

  lemma {:induction false} FirstNewElements(s: seq<Key>, known: set<Key>)
    ensures Elements(FirstNew(s, known)) == Elements(s) - known
    ensures Distinct(FirstNew(s, known))
  {
    if s != [] {
      var t, x := s[..|s| - 1], s[|s| - 1];
      FirstNewElements(t, known);
      DistinctNext(FirstNew(t, known), x);
      assert s == t + [x];
      assert Elements(s) == Elements(t) + {x};
      assert x in FirstNew(t, known) <==> x in Elements(FirstNew(t, known));
      assert Elements(FirstNew(t, known) + [x]) == Elements(FirstNew(t, known)) + {x};
    }
  }

  /** They are in the order in which they first occur. With `FirstNewElements` this determines them. */
  lemma {:induction false} FirstNewOrder(s: seq<Key>, known: set<Key>, i: nat, j: nat)
    requires i < j < |FirstNew(s, known)|
    ensures var r := FirstNew(s, known);
            r[i] in s && r[j] in s && FirstIndex(s, r[i]) < FirstIndex(s, r[j])
  {
    var t, x := s[..|s| - 1], s[|s| - 1];
    var q, r := FirstNew(t, known), FirstNew(s, known);
    FirstNewElements(t, known);
    assert q[i] in Elements(q);
    InPrefix(s, |t|, q[i]);
    if j < |q| {
      assert q[j] in Elements(q);
      InPrefix(s, |t|, q[j]);
      FirstNewOrder(t, known, i, j);
    } else {
      assert x !in t by {
        assert x in t ==> x in Elements(q);
      }
      FirstIndexIs(s, x, |t|);
    }
  }

  lemma InPrefix(s: seq<Key>, n: nat, x: Key)
    requires n <= |s| && x in s[..n]
    ensures x in s && FirstIndex(s, x) == FirstIndex(s[..n], x) < n
  {
    var i := FirstIndex(s[..n], x);
    assert s[..n][..i] == s[..i];
    FirstIndexIs(s, x, i);
  }

  /** Full chunks, then one chunk that is not full. */
  ghost predicate IsChunked(output: seq<seq<Key>>, keys: seq<Key>, size: nat) {
    && output != []
    && Flatten(output) == keys
    && (forall k :: 0 <= k < |output| - 1 ==> |output[k]| == size)
    && |output[|output| - 1]| < size
  }

  lemma {:induction false} FullChunks(chunks: seq<seq<Key>>, size: nat)
    requires forall k :: 0 <= k < |chunks| ==> |chunks[k]| == size
    ensures |Flatten(chunks)| == |chunks| * size
  {
    if chunks != [] {
      FullChunks(chunks[1..], size);
      assert (|chunks| - 1) * size + size == |chunks| * size;
    }
  }

  /** There are as many full chunks as fit, and one more. */
  lemma ChunkCount(output: seq<seq<Key>>, keys: seq<Key>, size: nat)
    requires IsChunked(output, keys, size)
    ensures (|output| - 1) * size <= |keys| < |output| * size
  {
    var n := |output| - 1;
    FlattenNext(output, n);
    FlattenAll(output, n + 1);
    FullChunks(output[..n], size);
    assert |output| * size == n * size + size;
  }

  /** The first loop: `ok` unless a known key occurs twice. */
  method CollectKnown(unique: seq<seq<Key>>) returns (ok: bool, uniqueMap: map<Key, nat>)
    ensures ok <==> Distinct(Flatten(unique))
    ensures ok ==> uniqueMap.Keys == Elements(Flatten(unique))
  {
    uniqueMap := map[];
    var k := 0;
    while k < |unique|
      invariant 0 <= k <= |unique|
      invariant Distinct(Flatten(unique[..k]))
      invariant uniqueMap.Keys == Elements(Flatten(unique[..k]))
    {
      ok, uniqueMap := CollectRow(unique[k], uniqueMap, Flatten(unique[..k]));
      FlattenNext(unique, k);
      if !ok {
        PrefixDistinct(unique, k + 1);
        return;
      }
      k := k + 1;
    }
    FlattenAll(unique, k);
    ok := true;
  }

  lemma PrefixDistinct(unique: seq<seq<Key>>, k: nat)
    requires k <= |unique|
    ensures Distinct(Flatten(unique)) ==> Distinct(Flatten(unique[..k]))
  {
    assert unique == unique[..k] + unique[k..];
    FlattenAppend(unique[..k], unique[k..]);
    DistinctPrefix(Flatten(unique[..k]), Flatten(unique[k..]));
  }

  method CollectRow(row: seq<Key>, known: map<Key, nat>, ghost seen: seq<Key>) returns (ok: bool, uniqueMap: map<Key, nat>)
    requires Distinct(seen) && known.Keys == Elements(seen)
    ensures ok <==> Distinct(seen + row)
    ensures ok ==> uniqueMap.Keys == Elements(seen + row)
  {
    uniqueMap := known;
    RowEnds(seen, row);
    for i := 0 to |row|
      invariant Distinct(seen + row[..i])
      invariant uniqueMap.Keys == Elements(seen + row[..i])
    {
      RowNext(seen, row, i);
      DistinctNext(seen + row[..i], row[i]);
      ElementsNext(seen + row[..i], row[i]);
      if row[i] in uniqueMap {
        RowPrefixDistinct(seen, row, i + 1);
        return false, uniqueMap;
      }
      uniqueMap := uniqueMap[row[i] := 1];
    }
    ok := true;
  }

  lemma RowPrefixDistinct(seen: seq<Key>, row: seq<Key>, i: nat)
    requires i <= |row|
    ensures Distinct(seen + row) ==> Distinct(seen + row[..i])
  {
    assert seen + row == (seen + row[..i]) + row[i..];
    DistinctPrefix(seen + row[..i], row[i..]);
  }

  function ChunkSize(nNumbers: nat): nat {
    if nNumbers == 0 then 1 else nNumbers
  }

  /** Full chunks, and the chunk being filled, hold the keys so far. */
  ghost predicate Filling(output: seq<seq<Key>>, vec: seq<Key>, keys: seq<Key>, size: nat) {
    && Flatten(output) + vec == keys
    && (forall k :: 0 <= k < |output| ==> |output[k]| == size)
    && |vec| < size
  }

  /** Where the second loop is: keys recorded, chunks written, and the chunk being filled. */
  ghost predicate Filtering(uniqueMap: map<Key, nat>, output: seq<seq<Key>>, vec: seq<Key>, seen: seq<Key>, known: set<Key>,
                            size: nat) {
    && Filling(output, vec, FirstNew(seen, known), size)
    && uniqueMap.Keys == known + Elements(FirstNew(seen, known))
  }

  lemma FilterNext(seen: seq<Key>, x: Key, known: set<Key>)
    ensures FirstNew(seen + [x], known)
            == if x in known || x in FirstNew(seen, known) then FirstNew(seen, known) else FirstNew(seen, known) + [x]
  {
    assert (seen + [x])[..|seen + [x]| - 1] == seen;
  }

  lemma FlattenPush(output: seq<seq<Key>>, vec: seq<Key>)
    ensures Flatten(output + [vec]) == Flatten(output) + vec
  {
    FlattenNext(output + [vec], |output|);
    assert (output + [vec])[..|output|] == output;
    FlattenAll(output + [vec], |output| + 1);
  }

  method FillChunk(x: Key, out: seq<seq<Key>>, v: seq<Key>, nNumbers: nat, ghost keys: seq<Key>)
    returns (output: seq<seq<Key>>, vec: seq<Key>)
    requires Filling(out, v, keys, ChunkSize(nNumbers))
    ensures Filling(output, vec, keys + [x], ChunkSize(nNumbers))
  {
    output, vec := out, v + [x];
    assert Flatten(output) + vec == keys + [x];
    if |vec| >= nNumbers {
      FlattenPush(output, vec);
      output := output + [vec];
      vec := [];
    }
  }

  method FilterKey(x: Key, m: map<Key, nat>, out: seq<seq<Key>>, v: seq<Key>, nNumbers: nat,
                   ghost seen: seq<Key>, ghost known: set<Key>)
    returns (uniqueMap: map<Key, nat>, output: seq<seq<Key>>, vec: seq<Key>)
    requires Filtering(m, out, v, seen, known, ChunkSize(nNumbers))
    ensures Filtering(uniqueMap, output, vec, seen + [x], known, ChunkSize(nNumbers))
  {
    uniqueMap, output, vec := m, out, v;
    FilterNext(seen, x, known);
    ghost var r := FirstNew(seen, known);
    if x !in uniqueMap {
      uniqueMap := uniqueMap[x := 1];
      ElementsNext(r, x);
      output, vec := FillChunk(x, output, vec, nNumbers, r);
    }
  }

  method FilterRow(row: seq<Key>, m: map<Key, nat>, out: seq<seq<Key>>, v: seq<Key>, nNumbers: nat,
                   ghost seen: seq<Key>, ghost known: set<Key>)
    returns (uniqueMap: map<Key, nat>, output: seq<seq<Key>>, vec: seq<Key>)
    requires Filtering(m, out, v, seen, known, ChunkSize(nNumbers))
    ensures Filtering(uniqueMap, output, vec, seen + row, known, ChunkSize(nNumbers))
  {
    uniqueMap, output, vec := m, out, v;
    ghost var now := seen;
    for i := 0 to |row|
      invariant now == seen + row[..i]
      invariant Filtering(uniqueMap, output, vec, now, known, ChunkSize(nNumbers))
    {
      RowNext(seen, row, i);
      uniqueMap, output, vec := FilterKey(row[i], uniqueMap, output, vec, nNumbers, now, known);
      now := now + [row[i]];
    }
    RowEnds(seen, row);
  }

  /** If a known key occurs twice this is an error and the output stays as it was. Otherwise the output
      becomes the first occurrences of the unknown candidates, in chunks. */
  method RemoveNonUnique(unique: seq<seq<Key>>, nonUniqueInput: seq<seq<Key>>, uniqueOutput: seq<seq<Key>>, nNumbers: nat)
    returns (output: seq<seq<Key>>)
    ensures !Distinct(Flatten(unique)) ==> output == uniqueOutput
    ensures Distinct(Flatten(unique)) ==>
              IsChunked(output, FirstNew(Flatten(nonUniqueInput), Elements(Flatten(unique))), ChunkSize(nNumbers))
    ensures Distinct(Flatten(unique)) && nNumbers >= 1 ==>
              (forall k :: 0 <= k < |output| - 1 ==> |output[k]| == nNumbers) && |output[|output| - 1]| < nNumbers
    ensures Distinct(Flatten(unique)) && nNumbers == 0 ==>
              (forall k :: 0 <= k < |output| - 1 ==> |output[k]| == 1) && output[|output| - 1] == []
  {
    var ok, uniqueMap := CollectKnown(unique);
    if !ok {
      return uniqueOutput;
    }
    ghost var known := uniqueMap.Keys;
    output := [];
    var vec: seq<Key> := [];
    var k := 0;
    while k < |nonUniqueInput|
      invariant 0 <= k <= |nonUniqueInput|
      invariant Filtering(uniqueMap, output, vec, Flatten(nonUniqueInput[..k]), known, ChunkSize(nNumbers))
    {
      uniqueMap, output, vec :=
        FilterRow(nonUniqueInput[k], uniqueMap, output, vec, nNumbers, Flatten(nonUniqueInput[..k]), known);
      FlattenNext(nonUniqueInput, k);
      k := k + 1;
    }
    FlattenAll(nonUniqueInput, k);
    FlattenPush(output, vec);
    output := output + [vec];
  }

  // ---------- One round of the daemon ----------

  /** The known keys as the round uses them: repaired, joined with the files that came meanwhile, repaired again. */
  ghost predicate KnownAs(uniqueFiles: seq<seq<Key>>, lateFiles: seq<seq<Key>>, known: seq<seq<Key>>) {
    exists first :: SameShape(uniqueFiles, first) && Repairs(Flatten(uniqueFiles), Flatten(first))
                    && SameShape(first + lateFiles, known) && Repairs(Flatten(first + lateFiles), Flatten(known))
  }

  lemma KnownKeysKept(uniqueFiles: seq<seq<Key>>, lateFiles: seq<seq<Key>>, known: seq<seq<Key>>)
    requires KnownAs(uniqueFiles, lateFiles, known)
    ensures Distinct(Flatten(known))
    ensures Elements(Flatten(uniqueFiles)) + Elements(Flatten(lateFiles)) <= Elements(Flatten(known))
  {
    var first :| SameShape(uniqueFiles, first) && Repairs(Flatten(uniqueFiles), Flatten(first))
                 && SameShape(first + lateFiles, known) && Repairs(Flatten(first + lateFiles), Flatten(known));
    RepairedAreDistinct(Flatten(uniqueFiles), Flatten(first));
    RepairedAreDistinct(Flatten(first + lateFiles), Flatten(known));
    FlattenAppend(first, lateFiles);
  }

  /** A round never fails, its output is never empty, so that the last chunk can be shown, and no known key
      comes back: what it writes are the first occurrences of the candidates that are not known. */
  method Round(nonUniqueFiles: seq<seq<Key>>, uniqueFiles: seq<seq<Key>>, lateFiles: seq<seq<Key>>, fileSize: nat)
    returns (known: seq<seq<Key>>, output: seq<seq<Key>>, lastSize: nat)
    ensures KnownAs(uniqueFiles, lateFiles, known)
    ensures IsChunked(output, FirstNew(Flatten(nonUniqueFiles), Elements(Flatten(known))), ChunkSize(fileSize))
    ensures fileSize >= 1 ==> (forall k :: 0 <= k < |output| - 1 ==> |output[k]| == fileSize) && lastSize < fileSize
    ensures fileSize == 0 ==> (forall k :: 0 <= k < |output| - 1 ==> |output[k]| == 1) && lastSize == 0
    ensures lastSize == |output[|output| - 1]|
    ensures Distinct(Flatten(output))
    ensures forall x :: x in Flatten(output) ==> x in Flatten(nonUniqueFiles) && x !in Flatten(uniqueFiles)
  {
    known := EnforceUniqueness(uniqueFiles);
    known := EnforceUniqueness(known + lateFiles);
    KnownKeysKept(uniqueFiles, lateFiles, known);
    output := RemoveNonUnique(known, nonUniqueFiles, [], fileSize);
    lastSize := |output[|output| - 1]|;
    FirstNewElements(Flatten(nonUniqueFiles), Elements(Flatten(known)));
    forall x | x in Flatten(output)
      ensures x in Flatten(nonUniqueFiles) && x !in Flatten(uniqueFiles)
    {
      assert x in Elements(Flatten(output));
      assert x in Elements(Flatten(nonUniqueFiles));
      assert x !in Elements(Flatten(uniqueFiles));
    }
  }

  // ---------- What the repair costs ----------

  lemma {:induction false} DistinctSize(s: seq<Key>)
    ensures |Elements(s)| <= |s|
    ensures Distinct(s) <==> |Elements(s)| == |s|
  {
    if s != [] {
      var t, x := s[..|s| - 1], s[|s| - 1];
      assert s == t + [x];
      assert Elements(s) == Elements(t) + {x};
      DistinctSize(t);
      DistinctNext(t, x);
      assert x in t <==> x in Elements(t);
    } else {
      assert Elements(s) == {};
    }
  }

  /** The candidates that pass although the known keys were repaired: all new ones. */
  ghost predicate NothingLost(input: seq<Key>, known: seq<Key>, repaired: seq<Key>) {
    Elements(FirstNew(input, Elements(repaired))) == Elements(input) - Elements(known)
  }

  lemma SomeKeyIsInvented(known: seq<Key>, repaired: seq<Key>) returns (x: Key)
    requires |repaired| == |known| && Distinct(repaired) && !Distinct(known) && Elements(known) <= Elements(repaired)
    ensures x in Elements(repaired) && x !in Elements(known)
  {
    DistinctSize(known);
    DistinctSize(repaired);
    assert Elements(repaired) != Elements(known);
    x :| x in Elements(repaired) && x !in Elements(known);
  }

  lemma InventedIsLost(known: seq<Key>, repaired: seq<Key>, x: Key)
    requires x in Elements(repaired) && x !in Elements(known)
    ensures !NothingLost([x], known, repaired)
  {
    FirstNewElements([x], Elements(repaired));
    assert x in Elements([x]);
  }

  lemma NothingLostIfDistinct(known: seq<Key>, input: seq<Key>)
    ensures NothingLost(input, known, known)
  {
    FirstNewElements(input, Elements(known));
  }

  /** The numbers invented by the repair count as known. So no new candidate is ever held back exactly when
      the known keys had no duplicate. */
  lemma NothingLostIff(known: seq<Key>, repaired: seq<Key>)
    requires Repairs(known, repaired)
    ensures (forall input :: NothingLost(input, known, repaired)) <==> Distinct(known)
  {
    if Distinct(known) {
      RepairIsIdentityIff(known, repaired);
      forall input
        ensures NothingLost(input, known, repaired)
      {
        NothingLostIfDistinct(known, input);
      }
    } else {
      RepairedAreDistinct(known, repaired);
      var x := SomeKeyIsInvented(known, repaired);
      InventedIsLost(known, repaired, x);
    }
  }

  /** Files without a duplicate are left alone, whenever they come. */
  lemma DistinctIsKept(uniqueFiles: seq<seq<Key>>, lateFiles: seq<seq<Key>>, known: seq<seq<Key>>)
    requires KnownAs(uniqueFiles, lateFiles, known) && Distinct(Flatten(uniqueFiles + lateFiles))
    ensures Flatten(known) == Flatten(uniqueFiles + lateFiles)
  {
    var first :| SameShape(uniqueFiles, first) && Repairs(Flatten(uniqueFiles), Flatten(first))
                 && SameShape(first + lateFiles, known) && Repairs(Flatten(first + lateFiles), Flatten(known));
    FlattenAppend(uniqueFiles, lateFiles);
    FlattenAppend(first, lateFiles);
    DistinctPrefix(Flatten(uniqueFiles), Flatten(lateFiles));
    RepairIsIdentityIff(Flatten(uniqueFiles), Flatten(first));
    RepairIsIdentityIff(Flatten(first + lateFiles), Flatten(known));
  }

  lemma KnownAsMany(uniqueFiles: seq<seq<Key>>, lateFiles: seq<seq<Key>>, known: seq<seq<Key>>)
    requires KnownAs(uniqueFiles, lateFiles, known)
    ensures |Flatten(known)| == |Flatten(uniqueFiles + lateFiles)|
  {
    var first :| SameShape(uniqueFiles, first) && Repairs(Flatten(uniqueFiles), Flatten(first))
                 && SameShape(first + lateFiles, known) && Repairs(Flatten(first + lateFiles), Flatten(known));
    FlattenAppend(uniqueFiles, lateFiles);
    FlattenAppend(first, lateFiles);
  }

  /** A round of the daemon repairs twice, and still holds back no new candidate exactly when no key was in the
      files twice, those that came between the repairs included. */
  lemma RoundLosesNothingIff(uniqueFiles: seq<seq<Key>>, lateFiles: seq<seq<Key>>, known: seq<seq<Key>>)
    requires KnownAs(uniqueFiles, lateFiles, known)
    ensures (forall input :: NothingLost(input, Flatten(uniqueFiles + lateFiles), Flatten(known)))
            <==> Distinct(Flatten(uniqueFiles + lateFiles))
  {
    var all := Flatten(uniqueFiles + lateFiles);
    if Distinct(all) {
      DistinctIsKept(uniqueFiles, lateFiles, known);
      forall input
        ensures NothingLost(input, all, Flatten(known))
      {
        NothingLostIfDistinct(all, input);
      }
    } else {
      KnownKeysKept(uniqueFiles, lateFiles, known);
      KnownAsMany(uniqueFiles, lateFiles, known);
      FlattenAppend(uniqueFiles, lateFiles);
      assert Elements(all) == Elements(Flatten(uniqueFiles)) + Elements(Flatten(lateFiles));
      var x := SomeKeyIsInvented(all, Flatten(known));
      InventedIsLost(all, Flatten(known), x);
    }
  }
}

/** Passes over a sorted file of tokens, side by side with sorted vectors in memory.

    `>>` finds the end of a file only when it reads past the last token: with a delimiter after every
    token one more read is needed, and without one the last token is met together with the end and lost.
 */
module Streaming {
  import opened Directories
  import opened Keys

  /** A file as its tokens; `terminated` says whether a delimiter follows the last one. */
  datatype File = File(tokens: seq<Key>, terminated: bool)

  /** The tokens that a loop gets to see which tests for the end after each read. */
  function Visible(file: File): seq<Key> {
    if file.terminated || file.tokens == [] then file.tokens else file.tokens[..|file.tokens| - 1]
  }

  /** Without a delimiter behind it the last token is not seen. */
  lemma LastTokenSeenIff(tokens: seq<Key>, x: Key)
    ensures Visible(File(tokens + [x], true)) == tokens + [x]
    ensures Visible(File(tokens + [x], false)) == tokens
    ensures Visible(File([], true)) == Visible(File([], false)) == []
  {
    assert (tokens + [x])[..|tokens + [x]| - 1] == tokens;
  }

  /** An input stream: the tokens read so far, and whether the end has been met. */
  datatype Input = Input(file: File, pos: nat, eof: bool) {

    /** Of the visible tokens `m`, `word` is number `p`, or the end has been met just after the last one. */
    predicate Holds(m: seq<Key>, p: int, word: Key) {
      && 0 <= p <= |m|
      && eof == (p == |m|)
      && (!eof ==> pos == p + 1 && word == m[p])
    }

    /** `>>`: the word is unchanged if there is none left. */
    function Read(word: Key): (Input, Key) {
      if pos >= |file.tokens| then (Input(file, pos, true), word)
      else (Input(file, pos + 1, pos + 1 == |file.tokens| && !file.terminated), file.tokens[pos])
    }

    /** Each read moves on by one visible token. */
    lemma ReadNext(m: seq<Key>, word: Key, p: int)
      requires m == Visible(file)
      requires !eof && (if p == -1 then pos == 0 else Holds(m, p, word))
      ensures Read(word).0.file == file && Read(word).0.Holds(m, p + 1, Read(word).1)
    {
    }
  }

  function OpenFile(file: File): Input {
    Input(file, 0, false)
  }

  // ---------- search_new ----------

  /** Index of the first key of a sorted map that is at least `x`. */
  function FirstAtLeast(m: seq<Key>, x: Key): (j: nat)
    ensures j <= |m|
    ensures forall q :: 0 <= q < j ==> Less(m[q], x)
    ensures j < |m| ==> LessEq(x, m[j])
  {
    if m == [] || !Less(m[0], x) then 0 else 1 + FirstAtLeast(m[1..], x)
  }

  /** Whether the search gives out `v[i]`: it is above the whole map, or the next key of `v` comes no later
      than the first key of the map that is at least `v[i]`. An empty map hides the first key only. */
  predicate Emits(v: seq<Key>, m: seq<Key>, i: nat)
    requires i < |v|
  {
    if m == [] then i > 0
    else
      var j := FirstAtLeast(m, v[i]);
      j == |m| || (i + 1 < |v| && LessEq(v[i + 1], m[j]))
  }

  /** The keys given out among the first `k`. */
  function EmittedUpTo(v: seq<Key>, m: seq<Key>, k: nat): seq<Key>
    requires k <= |v|
  {
    if k == 0 then [] else EmittedUpTo(v, m, k - 1) + (if Emits(v, m, k - 1) then [v[k - 1]] else [])
  }

  function Emitted(v: seq<Key>, m: seq<Key>): seq<Key> {
    EmittedUpTo(v, m, |v|)
  }

  lemma FirstAtLeastIs(m: seq<Key>, x: Key, p: nat)
    requires Sorted(m) && p <= |m|
    requires forall q :: 0 <= q < p ==> Less(m[q], x)
    requires p < |m| ==> LessEq(x, m[p])
    ensures FirstAtLeast(m, x) == p
  {
  }

  /** `m[p]` exists and is the first key of the map that is at least `x`. */
  predicate StandsBefore(m: seq<Key>, x: Key, p: nat) {
    p < |m| && LessEq(x, m[p]) && forall q :: 0 <= q < p ==> Less(m[q], x)
  }

  /** Where the search stands: `it` keys of the vector and `p` of the map are consumed, and the output has
      what it should have, up to the key taken last if that is still undecided. */
  predicate SearchState(v: seq<Key>, m: seq<Key>, it: nat, p: nat, first: bool, consecutive: nat, line: Key, output: seq<Key>) {
    var pending := Pending(p == |m|, first, consecutive);
    && it <= |v| && p <= |m|
    && (first <==> it == 0 && p == 0)
    && (first ==> line == "" && consecutive == 2)
    && (it < |v| ==> forall q :: 0 <= q < p ==> Less(m[q], v[it]))
    && (pending ==> it > 0 && line == v[it - 1] && StandsBefore(m, line, p))
    && (it == |v| && p < |m| ==> v == [] || pending)
    && (v == [] ==> first)
    && output == EmittedUpTo(v, m, if pending then it - 1 else it)
  }

  /** `search_new`. The check vector of the source holds the sorted data only. */
  method SearchNew(file: File, sortedData: seq<Key>) returns (output: seq<Key>)
    requires Sorted(Visible(file)) && Sorted(sortedData)
    ensures output == Emitted(sortedData, Visible(file))
  {
    ghost var m := Visible(file);
    output := [];
    var line, fileLine := "", "";
    var input := OpenFile(file);
    var it: nat := 0;
    if !input.eof {
      input.ReadNext(m, fileLine, -1);
      var (next, word) := input.Read(fileLine);
      input, fileLine := next, word;
    }
    var prevLine, outputString := "", "";
    var consecutiveFromVector: nat := 2;
    var firstFromVector := true;
    ghost var p: nat := 0;
    while true
      invariant input.file == file && input.Holds(m, p, fileLine)
      invariant SearchState(sortedData, m, it, p, firstFromVector, consecutiveFromVector, line, output)
      decreases |sortedData| - it + |m| - p
    {
      prevLine := line;
      var done := true;
      var outputLine := false;
      var found := false;
      if it != |sortedData| {
        line := sortedData[it];
        found := true;
        done := false;
      }
      if input.eof {
        if found {
          EndStep(sortedData, m, it, firstFromVector, consecutiveFromVector, prevLine, output);
          it := it + 1;
          consecutiveFromVector := consecutiveFromVector + 1;
          if !firstFromVector {
            outputLine := true;
            outputString := line;
          }
        }
      } else {
        if Less(fileLine, line) {
          FileStep(sortedData, m, it, p, firstFromVector, consecutiveFromVector, prevLine, output);
          line := fileLine;
          input.ReadNext(m, fileLine, p);
          input, fileLine := input.Read(fileLine).0, input.Read(fileLine).1;
          p := p + 1;
          done := false;
          consecutiveFromVector := 0;
        } else {
          if found {
            VectorStep(sortedData, m, it, p, firstFromVector, consecutiveFromVector, prevLine, output);
            it := it + 1;
            consecutiveFromVector := consecutiveFromVector + 1;
            if !firstFromVector {
              if consecutiveFromVector > 1 {
                outputLine := true;
                outputString := prevLine;
              }
            }
          }
        }
      }
      ghost var wasFirst := firstFromVector;
      firstFromVector := false;
      if done {
        NothingLeft(sortedData, m, p, wasFirst, consecutiveFromVector, prevLine, output);
        break;
      }
      if outputLine {
        output := output + [outputString];
      }
    }
  }

  /** The key taken last is not decided yet: it came from the vector, with the file not at its end. */
  predicate Pending(eof: bool, first: bool, consecutive: nat) {
    !eof && !first && consecutive >= 1
  }

  /** The next key of the vector, with the file at its end. */
  lemma EndStep(v: seq<Key>, m: seq<Key>, it: nat, first: bool, consecutive: nat, line: Key, output: seq<Key>)
    requires Sorted(v)
    requires SearchState(v, m, it, |m|, first, consecutive, line, output) && it < |v|
    ensures SearchState(v, m, it + 1, |m|, false, consecutive + 1, v[it], if first then output else output + [v[it]])
  {
    TotalOrder();
    assert it + 1 < |v| ==> LessEq(v[it], v[it + 1]);
    if m != [] {
      var j := FirstAtLeast(m, v[it]);
      assert Emits(v, m, it);
    }
  }

  /** The next key of the file: the key of the vector before it, if undecided, is not given out. */
  lemma FileStep(v: seq<Key>, m: seq<Key>, it: nat, p: nat, first: bool, consecutive: nat, line: Key, output: seq<Key>)
    requires Sorted(m)
    requires SearchState(v, m, it, p, first, consecutive, line, output) && p < |m|
    requires Less(m[p], if it < |v| then v[it] else line)
    ensures it < |v|
    ensures SearchState(v, m, it, p + 1, false, 0, m[p], output)
  {
    TotalOrder();
    if Pending(false, first, consecutive) {
      FirstAtLeastIs(m, v[it - 1], p);
    }
  }

  /** The next key of the vector, no larger than that of the file: the one before it, if undecided, is given out. */
  lemma VectorStep(v: seq<Key>, m: seq<Key>, it: nat, p: nat, first: bool, consecutive: nat, line: Key, output: seq<Key>)
    requires Sorted(v) && Sorted(m)
    requires SearchState(v, m, it, p, first, consecutive, line, output) && p < |m|
    requires it < |v| && !Less(m[p], v[it])
    ensures SearchState(v, m, it + 1, p, false, consecutive + 1, v[it],
                        if !first && consecutive + 1 > 1 then output + [line] else output)
  {
    TotalOrder();
    assert it + 1 < |v| ==> LessEq(v[it], v[it + 1]);
    if Pending(false, first, consecutive) {
      FirstAtLeastIs(m, v[it - 1], p);
    }
  }

  /** The vector is used up: the key taken last, if undecided, is not given out. */
  lemma NothingLeft(v: seq<Key>, m: seq<Key>, p: nat, first: bool, consecutive: nat, line: Key, output: seq<Key>)
    requires Sorted(m)
    requires SearchState(v, m, |v|, p, first, consecutive, line, output)
    ensures output == Emitted(v, m)
  {
    if Pending(p == |m|, first, consecutive) {
      FirstAtLeastIs(m, v[|v| - 1], p);
    }
  }

  // ---------- sort_write_file ----------

  predicate AllSorted(vs: seq<seq<Key>>) {
    forall k :: 0 <= k < |vs| ==> Sorted(vs[k])
  }

  /** Some key of the vectors is larger. */
  predicate BelowSome(x: Key, vs: seq<seq<Key>>) {
    exists k, j :: 0 <= k < |vs| && 0 <= j < |vs[k]| && Less(x, vs[k][j])
  }

  /** The tokens of the file that are strictly below the largest key of the vectors. */
  function Kept(m: seq<Key>, vs: seq<seq<Key>>): seq<Key> {
    if m == [] then [] else (if BelowSome(m[0], vs) then [m[0]] else []) + Kept(m[1..], vs)
  }

  /** The iterators are within their vectors. */
  predicate Within(vs: seq<seq<Key>>, its: seq<nat>) {
    |its| == |vs| && forall k :: 0 <= k < |vs| ==> its[k] <= |vs[k]|
  }

  /** What the iterators have passed. */
  function Taken(vs: seq<seq<Key>>, its: seq<nat>): multiset<Key>
    requires Within(vs, its)
  {
    if vs == [] then multiset{} else multiset(vs[0][..its[0]]) + Taken(vs[1..], its[1..])
  }

  /** What the iterators have not passed yet. */
  function Remaining(vs: seq<seq<Key>>, its: seq<nat>): nat
    requires Within(vs, its)
  {
    if vs == [] then 0 else |vs[0]| - its[0] + Remaining(vs[1..], its[1..])
  }

  lemma OneMore(s: seq<Key>, k: nat)
    requires k < |s|
    ensures multiset(s[..k + 1]) == multiset(s[..k]) + multiset{s[k]}
  {
    assert s[..k + 1] == s[..k] + [s[k]];
  }

  lemma AddedAnywhere(a: multiset<Key>, b: multiset<Key>, x: Key)
    ensures (a + multiset{x}) + b == (a + b) + multiset{x} == a + (b + multiset{x})
  {
  }

  lemma {:induction false} TakeOne(vs: seq<seq<Key>>, its: seq<nat>, k: nat)
    requires Within(vs, its) && k < |vs| && its[k] < |vs[k]|
    ensures Within(vs, its[k := its[k] + 1])
    ensures Taken(vs, its[k := its[k] + 1]) == Taken(vs, its) + multiset{vs[k][its[k]]}
  {
    var its' := its[k := its[k] + 1];
    if k == 0 {
      assert its'[1..] == its[1..];
      OneMore(vs[0], its[0]);
      AddedAnywhere(multiset(vs[0][..its[0]]), Taken(vs[1..], its[1..]), vs[0][its[0]]);
    } else {
      assert its'[1..] == its[1..][k - 1 := its[k] + 1];
      TakeOne(vs[1..], its[1..], k - 1);
      AddedAnywhere(multiset(vs[0][..its[0]]), Taken(vs[1..], its[1..]), vs[k][its[k]]);
    }
  }

  lemma {:induction false} OneLess(vs: seq<seq<Key>>, its: seq<nat>, k: nat)
    requires Within(vs, its) && k < |vs| && its[k] < |vs[k]|
    ensures Within(vs, its[k := its[k] + 1])
    ensures Remaining(vs, its[k := its[k] + 1]) == Remaining(vs, its) - 1
  {
    var its' := its[k := its[k] + 1];
    if k == 0 {
      assert its'[1..] == its[1..];
    } else {
      assert its'[1..] == its[1..][k - 1 := its[k] + 1];
      OneLess(vs[1..], its[1..], k - 1);
    }
  }

  lemma {:induction false} TakenAtStart(vs: seq<seq<Key>>, its: seq<nat>)
    requires Within(vs, its) && forall k :: 0 <= k < |its| ==> its[k] == 0
    ensures Taken(vs, its) == multiset{}
  {
    if vs != [] {
      TakenAtStart(vs[1..], its[1..]);
    }
  }

  lemma {:induction false} TakenAtEnd(vs: seq<seq<Key>>, its: seq<nat>)
    requires Within(vs, its) && forall k :: 0 <= k < |its| ==> its[k] == |vs[k]|
    ensures Taken(vs, its) == multiset(Flatten(vs))
  {
    if vs != [] {
      TakenAtEnd(vs[1..], its[1..]);
      assert vs[0][..its[0]] == vs[0];
    }
  }

  lemma {:induction false} TakenHas(vs: seq<seq<Key>>, its: seq<nat>, k: nat, j: nat)
    requires Within(vs, its) && k < |vs| && j < its[k]
    ensures vs[k][j] in Taken(vs, its)
  {
    if k == 0 {
      assert vs[0][j] in vs[0][..its[0]];
    } else {
      TakenHas(vs[1..], its[1..], k - 1, j);
    }
  }

  /** `out` may be followed by the heads that are left, in any order. */
  predicate HeadsFollow(out: seq<Key>, vs: seq<seq<Key>>, its: seq<nat>)
    requires Within(vs, its)
  {
    forall x, k :: x in out && 0 <= k < |vs| && its[k] < |vs[k]| ==> LessEq(x, vs[k][its[k]])
  }

  predicate AllAtMost(out: seq<Key>, y: Key) {
    forall x :: x in out ==> LessEq(x, y)
  }

  /** Where the merge stands. */
  predicate MergeState(vs: seq<seq<Key>>, m: seq<Key>, its: seq<nat>, p: nat, line: Key, out: seq<Key>) {
    && Within(vs, its) && p <= |m|
    && Sorted(out)
    && multiset(out) == Taken(vs, its) + multiset(m[..p])
    && HeadsFollow(out, vs, its)
    && (p < |m| ==> AllAtMost(out, m[p]))
    && (forall q :: 0 <= q < p ==> BelowSome(m[q], vs))
    && (if out == [] then line == "" else line == out[|out| - 1])
  }

  /** The choice of the inner loop among the first `k` vectors: the first of the smallest heads, if there is any. */
  predicate SmallestHead(vs: seq<seq<Key>>, its: seq<nat>, k: nat, chosen: int, line: Key)
    requires Within(vs, its) && k <= |vs|
  {
    && -1 <= chosen < k
    && (chosen == -1 ==> forall j :: 0 <= j < k ==> its[j] == |vs[j]|)
    && (chosen >= 0 ==>
          && its[chosen] < |vs[chosen]| && line == vs[chosen][its[chosen]]
          && (forall j :: 0 <= j < chosen && its[j] < |vs[j]| ==> Less(line, vs[j][its[j]]))
          && forall j :: 0 <= j < k && its[j] < |vs[j]| ==> LessEq(line, vs[j][its[j]]))
  }

  /** The inner loop; -1 stands for the index that is past all vectors. */
  method ChooseHead(vs: seq<seq<Key>>, its: seq<nat>, line0: Key) returns (maxK: int, line: Key)
    requires Within(vs, its)
    ensures SmallestHead(vs, its, |vs|, maxK, line)
    ensures maxK == -1 ==> line == line0
  {
    TotalOrder();
    maxK, line := -1, line0;
    var init := true;
    var k := 0;
    while k < |its|
      invariant 0 <= k <= |its|
      invariant SmallestHead(vs, its, k, maxK, line)
      invariant init <==> maxK == -1
      invariant maxK == -1 ==> line == line0
    {
      if its[k] != |vs[k]| {
        if init {
          line := vs[k][its[k]];
          maxK := k;
          init := false;
        } else if Less(vs[k][its[k]], line) {
          line := vs[k][its[k]];
          maxK := k;
        }
      }
      k := k + 1;
    }
  }

  /** `sort_write_file`: the vectors and the file, merged as long as there is a vector left. */
  method SortWriteFile(file: File, sortedData: seq<seq<Key>>) returns (output: seq<Key>)
    requires Sorted(Visible(file)) && AllSorted(sortedData)
    ensures Sorted(output)
    ensures multiset(output) == multiset(Flatten(sortedData)) + multiset(Kept(Visible(file), sortedData))
  {
    ghost var m := Visible(file);
    output := [];
    var line, fileLine := "", "";
    var input := OpenFile(file);
    var its: seq<nat> := seq(|sortedData|, _ => 0);
    if !input.eof {
      input.ReadNext(m, fileLine, -1);
      var (next, word) := input.Read(fileLine);
      input, fileLine := next, word;
    }
    ghost var p: nat := 0;
    MergeStarts(sortedData, m, its);
    while true
      invariant input.file == file && input.Holds(m, p, fileLine)
      invariant MergeState(sortedData, m, its, p, line, output)
      decreases Remaining(sortedData, its) + |m| - p
    {
      ghost var before := line;
      var done := true;
      var maxK;
      maxK, line := ChooseHead(sortedData, its, line);
      if maxK != -1 {
        done := false;
      }
      if !input.eof && Less(fileLine, line) {
        MergeFileToken(sortedData, m, its, p, maxK, before, line, output);
        line := fileLine;
        input.ReadNext(m, fileLine, p);
        var (next, word) := input.Read(fileLine);
        input, fileLine := next, word;
        p := p + 1;
        done := false;
      } else if maxK != -1 {
        MergeVectorKey(sortedData, m, its, p, maxK, before, line, output);
        its := its[maxK := its[maxK] + 1];
      }
      if done {
        MergeEnds(sortedData, m, its, p, line, output);
        break;
      }
      output := output + [line];
    }
  }

  lemma MergeStarts(vs: seq<seq<Key>>, m: seq<Key>, its: seq<nat>)
    requires |its| == |vs| && forall k :: 0 <= k < |its| ==> its[k] == 0
    ensures MergeState(vs, m, its, 0, "", [])
  {
    TakenAtStart(vs, its);
    assert m[..0] == [];
  }

  lemma AppendSorted(out: seq<Key>, x: Key)
    requires Sorted(out) && AllAtMost(out, x)
    ensures Sorted(out + [x])
  {
    forall i, j | 0 <= i < j < |out + [x]|
      ensures LessEq((out + [x])[i], (out + [x])[j])
    {
      assert j == |out| ==> out[i] in out;
    }
  }

  /** The head of a vector comes next. */
  lemma MergeVectorKey(vs: seq<seq<Key>>, m: seq<Key>, its: seq<nat>, p: nat, k: int, before: Key, x: Key, out: seq<Key>)
    requires AllSorted(vs) && Sorted(m)
    requires MergeState(vs, m, its, p, before, out)
    requires SmallestHead(vs, its, |vs|, k, x) && k >= 0
    requires p < |m| ==> LessEq(x, m[p])
    ensures Within(vs, its[k := its[k] + 1])
    ensures MergeState(vs, m, its[k := its[k] + 1], p, x, out + [x])
    ensures Remaining(vs, its[k := its[k] + 1]) == Remaining(vs, its) - 1
  {
    TotalOrder();
    TakeOne(vs, its, k);
    OneLess(vs, its, k);
    AppendSorted(out, x);
    var its' := its[k := its[k] + 1];
    forall y, j | y in out + [x] && 0 <= j < |vs| && its'[j] < |vs[j]|
      ensures LessEq(y, vs[j][its'[j]])
    {
      assert LessEq(x, vs[j][its[j]]);
      assert Sorted(vs[j]);
      assert LessEq(x, vs[j][its'[j]]);
    }
  }

  /** A token of the file comes next: it is below a key of the vectors. */
  lemma MergeFileToken(vs: seq<seq<Key>>, m: seq<Key>, its: seq<nat>, p: nat, k: int, before: Key, x: Key, out: seq<Key>)
    requires Sorted(m)
    requires MergeState(vs, m, its, p, before, out) && p < |m|
    requires SmallestHead(vs, its, |vs|, k, x) && (k == -1 ==> x == before)
    requires Less(m[p], x)
    ensures MergeState(vs, m, its, p + 1, m[p], out + [m[p]])
  {
    FileTokenIsBelow(vs, m, its, p, k, before, x, out);
    TokenPrecedes(m, p, out, vs, its);
    AppendSorted(out, m[p]);
    TokenCounts(out, m, p, Taken(vs, its));
  }

  lemma TokenCounts(out: seq<Key>, m: seq<Key>, p: nat, taken: multiset<Key>)
    requires p < |m| && multiset(out) == taken + multiset(m[..p])
    ensures multiset(out + [m[p]]) == taken + multiset(m[..p + 1])
  {
    OneMore(m, p);
  }

  lemma FileTokenIsBelow(vs: seq<seq<Key>>, m: seq<Key>, its: seq<nat>, p: nat, k: int, before: Key, x: Key, out: seq<Key>)
    requires MergeState(vs, m, its, p, before, out) && p < |m|
    requires SmallestHead(vs, its, |vs|, k, x) && (k == -1 ==> x == before)
    requires Less(m[p], x)
    ensures BelowSome(m[p], vs)
    ensures forall j :: 0 <= j < |vs| && its[j] < |vs[j]| ==> LessEq(m[p], vs[j][its[j]])
  {
    TotalOrder();
    assert !Less(m[p], "");
    assert out != [] ==> before in out;
    assert k >= 0;
  }

  lemma TokenPrecedes(m: seq<Key>, p: nat, out: seq<Key>, vs: seq<seq<Key>>, its: seq<nat>)
    requires Within(vs, its) && Sorted(m) && p < |m| && AllAtMost(out, m[p]) && HeadsFollow(out, vs, its)
    requires forall j :: 0 <= j < |vs| && its[j] < |vs[j]| ==> LessEq(m[p], vs[j][its[j]])
    ensures p + 1 < |m| ==> AllAtMost(out + [m[p]], m[p + 1])
    ensures HeadsFollow(out + [m[p]], vs, its)
  {
    TotalOrder();
    assert p + 1 < |m| ==> LessEq(m[p], m[p + 1]);
  }

  /** All vectors are used up: what is left of the file is below none of their keys. */
  lemma MergeEnds(vs: seq<seq<Key>>, m: seq<Key>, its: seq<nat>, p: nat, line: Key, out: seq<Key>)
    requires Sorted(m)
    requires MergeState(vs, m, its, p, line, out)
    requires SmallestHead(vs, its, |vs|, -1, line)
    ensures multiset(out) == multiset(Flatten(vs)) + multiset(Kept(m, vs))
  {
    TakenAtEnd(vs, its);
    forall q | p <= q < |m|
      ensures !BelowSome(m[q], vs)
    {
      forall k, j | 0 <= k < |vs| && 0 <= j < |vs[k]|
        ensures !Less(m[q], vs[k][j])
      {
        TakenHas(vs, its, k, j);
        assert vs[k][j] in multiset(out);
        NotBelow(m, p, q, vs[k][j]);
      }
    }
    KeptIsPrefix(m, vs, p);
  }

  lemma NotBelow(m: seq<Key>, p: nat, q: nat, x: Key)
    requires Sorted(m) && p <= q < |m| && LessEq(x, m[p])
    ensures !Less(m[q], x)
  {
    TotalOrder();
    assert p < q ==> LessEq(m[p], m[q]);
  }

  lemma {:induction false} KeptIsPrefix(m: seq<Key>, vs: seq<seq<Key>>, p: nat)
    requires p <= |m|
    requires forall q :: 0 <= q < p ==> BelowSome(m[q], vs)
    requires forall q :: p <= q < |m| ==> !BelowSome(m[q], vs)
    ensures Kept(m, vs) == m[..p]
  {
    if m != [] {
      if p > 0 {
        KeptIsPrefix(m[1..], vs, p - 1);
        assert m[..p] == [m[0]] + m[1..][..p - 1];
      } else {
        KeptIsPrefix(m[1..], vs, 0);
      }
    }
  }

  /** The merge is a full one exactly when the vectors have a key above the last token of the file. */
  lemma FullMergeIff(m: seq<Key>, vs: seq<seq<Key>>)
    requires Sorted(m)
    ensures multiset(Kept(m, vs)) == multiset(m)
            <==> m == [] || exists x :: x in Flatten(vs) && Less(m[|m| - 1], x)
  {
    TotalOrder();
    if m != [] {
      BelowSomeIff(m[|m| - 1], vs);
    }
    if m != [] && BelowSome(m[|m| - 1], vs) {
      forall q | 0 <= q < |m|
        ensures BelowSome(m[q], vs)
      {
        var k, j :| 0 <= k < |vs| && 0 <= j < |vs[k]| && Less(m[|m| - 1], vs[k][j]);
        assert q < |m| - 1 ==> LessEq(m[q], m[|m| - 1]);
        assert Less(m[q], vs[k][j]);
      }
      KeptIsPrefix(m, vs, |m|);
      assert m[..|m|] == m;
    } else if m != [] {
      KeptAreBelow(m, vs, m[|m| - 1]);
      assert m[|m| - 1] in multiset(m);
    }
  }

  lemma {:induction false} FlattenHas<T>(ss: seq<seq<T>>, x: T)
    ensures x in Flatten(ss) <==> exists k :: 0 <= k < |ss| && x in ss[k]
  {
    if ss != [] {
      FlattenHas(ss[1..], x);
      assert forall k :: 0 < k < |ss| ==> ss[k] == ss[1..][k - 1];
    }
  }

  lemma BelowSomeIff(x: Key, vs: seq<seq<Key>>)
    ensures BelowSome(x, vs) <==> exists y :: y in Flatten(vs) && Less(x, y)
  {
    forall y
      ensures y in Flatten(vs) <==> exists k :: 0 <= k < |vs| && y in vs[k]
    {
      FlattenHas(vs, y);
    }
    if k, j :| 0 <= k < |vs| && 0 <= j < |vs[k]| && Less(x, vs[k][j]) {
      assert vs[k][j] in vs[k];
      assert vs[k][j] in Flatten(vs);
    }
    if y :| y in Flatten(vs) && Less(x, y) {
      var k :| 0 <= k < |vs| && y in vs[k];
      var j :| 0 <= j < |vs[k]| && vs[k][j] == y;
      assert Less(x, vs[k][j]);
    }
  }

  /** A token of the file is kept, as often as it is there, exactly if a key of the vectors is larger. */
  lemma {:induction false} KeptTimes(m: seq<Key>, vs: seq<seq<Key>>, x: Key)
    ensures multiset(Kept(m, vs))[x] == if exists y :: y in Flatten(vs) && Less(x, y) then multiset(m)[x] else 0
  {
    BelowSomeIff(x, vs);
    if m != [] {
      KeptTimes(m[1..], vs, x);
      assert m == [m[0]] + m[1..];
    }
  }

  lemma {:induction false} KeptAreBelow(m: seq<Key>, vs: seq<seq<Key>>, x: Key)
    ensures x in multiset(Kept(m, vs)) ==> BelowSome(x, vs)
  {
    if m != [] {
      KeptAreBelow(m[1..], vs, x);
    }
  }

  // ---------- sort_files ----------

  /** Each file of a directory sorted by itself. */
  predicate SortedEach(files: seq<seq<Key>>, vs: seq<seq<Key>>) {
    |vs| == |files| && forall k :: 0 <= k < |files| ==> vs[k] == Sort(files[k])
  }

  lemma {:induction false} SortedEachKeeps(files: seq<seq<Key>>, vs: seq<seq<Key>>)
    requires SortedEach(files, vs)
    ensures AllSorted(vs) && multiset(Flatten(vs)) == multiset(Flatten(files))
  {
    if files != [] {
      SortSorts(files[0]);
      SortedEachKeeps(files[1..], vs[1..]);
      assert forall k :: 0 < k < |vs| ==> vs[k] == vs[1..][k - 1];
    }
  }

  lemma SortedEachBelow(files: seq<seq<Key>>, vs: seq<seq<Key>>, x: Key)
    requires SortedEach(files, vs)
    ensures BelowSome(x, vs) <==> BelowSome(x, files)
  {
    forall k | 0 <= k < |files|
      ensures multiset(vs[k]) == multiset(files[k])
    {
      SortSorts(files[k]);
    }
    if k, j :| 0 <= k < |vs| && 0 <= j < |vs[k]| && Less(x, vs[k][j]) {
      assert vs[k][j] in multiset(files[k]);
    }
    if k, j :| 0 <= k < |files| && 0 <= j < |files[k]| && Less(x, files[k][j]) {
      assert files[k][j] in multiset(vs[k]);
    }
  }

  lemma {:induction false} SortedEachKept(files: seq<seq<Key>>, vs: seq<seq<Key>>, m: seq<Key>)
    requires SortedEach(files, vs)
    ensures Kept(m, vs) == Kept(m, files)
  {
    if m != [] {
      SortedEachBelow(files, vs, m[0]);
      SortedEachKept(files, vs, m[1..]);
    }
  }

  /** Sorting and, if asked to, removing the listed files. */
  method SortEach(names: seq<string>, dir: map<string, seq<Key>>, remove: bool)
    returns (sortedData: seq<seq<Key>>, dir': map<string, seq<Key>>)
    requires AllThere(names, dir)
    ensures SortedEach(FilesOf(names, dir), sortedData)
    ensures dir' == if remove then dir - Elements(names) else dir
  {
    sortedData, dir' := [], dir;
    for k := 0 to |names|
      invariant |sortedData| == k && forall j :: 0 <= j < k ==> sortedData[j] == Sort(dir[names[j]])
      invariant dir' == if remove then dir - Elements(names[..k]) else dir
    {
      assert names[k] in names && names[k] !in names[..k];
      assert names[..k + 1] == names[..k] + [names[k]];
      sortedData := sortedData + [Sort(dir'[names[k]])];
      if remove {
        dir' := dir' - {names[k]};
      }
    }
    assert names[..|names|] == names;
  }

  /** The tokens of all files, and those of the initial file that are below one of them, in order. Nothing is
      written for an empty directory, and the files are removed if asked for. */
  method SortFiles(names: seq<string>, dir: map<string, seq<Key>>, initial: File, remove: bool)
    returns (written: bool, output: seq<Key>, dir': map<string, seq<Key>>)
    requires IsListing(names, dir) && Sorted(Visible(initial))
    ensures written == (dir != map[])
    ensures dir' == if remove then map[] else dir
    ensures written ==> Sorted(output)
    ensures written ==>
              multiset(output) == multiset(Flatten(FilesOf(names, dir))) + multiset(Kept(Visible(initial), FilesOf(names, dir)))
  {
    assert names == [] <==> dir.Keys == {} by {
      assert names != [] ==> names[0] in dir;
    }
    if |names| == 0 {
      return false, [], dir;
    }
    var sortedData;
    sortedData, dir' := SortEach(names, dir, remove);
    SortedEachKeeps(FilesOf(names, dir), sortedData);
    SortedEachKept(FilesOf(names, dir), sortedData, Visible(initial));
    output := SortWriteFile(initial, sortedData);
    written := true;
  }
}

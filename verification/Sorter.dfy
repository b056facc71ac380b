/** The sorter: batches of keys written by the daemons at any time, and rounds that collect them into one
    comprehensive file.

    Reading, writing, removing and renaming a file are atomic steps, and a round may be overtaken by new
    batches between any two of them.
 */
module Sorter {
  import opened Directories
  import opened Keys

  // ---------- Keys in order, each once ----------

  function InsertUnique(x: Key, s: seq<Key>): seq<Key> {
    if s == [] then [x]
    else if Less(s[0], x) then [s[0]] + InsertUnique(x, s[1..])
    else if s[0] == x then s
    else [x] + s
  }

  /** What iterating over a `std::set` of the keys yields. */
  function Unique(data: seq<Key>): seq<Key> {
    if data == [] then [] else InsertUnique(data[0], Unique(data[1..]))
  }

  lemma ElementsCons(x: Key, s: seq<Key>)
    ensures Elements([x] + s) == {x} + Elements(s)
  {
  }

  lemma ConsStrictlySorted(x: Key, s: seq<Key>)
    requires StrictlySorted(s)
    requires forall y :: y in Elements(s) ==> Less(x, y)
    ensures StrictlySorted([x] + s)
  {
    var t := [x] + s;
    forall i, j | 0 <= i < j < |t|
      ensures Less(t[i], t[j])
    {
      assert t[j] == s[j - 1] && s[j - 1] in Elements(s);
    }
  }

  lemma HeadIsLeast(s: seq<Key>, x: Key)
    requires s != [] && StrictlySorted(s) && x in Elements(s[1..])
    ensures Less(s[0], x)
  {
    var i :| 0 <= i < |s[1..]| && s[1..][i] == x;
    assert s[i + 1] == x;
  }

  lemma {:induction false} InsertUniqueElements(x: Key, s: seq<Key>)
    ensures Elements(InsertUnique(x, s)) == Elements(s) + {x}
  {
    if s == [] {
      assert Elements(s) == {};
      ElementsCons(x, s);
      assert [x] + s == [x];
    } else {
      assert s == [s[0]] + s[1..];
      ElementsCons(s[0], s[1..]);
      ElementsCons(x, s);
      InsertUniqueElements(x, s[1..]);
      ElementsCons(s[0], InsertUnique(x, s[1..]));
    }
  }

  lemma {:induction false} InsertUniqueSorted(x: Key, s: seq<Key>)
    requires StrictlySorted(s)
    ensures StrictlySorted(InsertUnique(x, s))
  {
    TotalOrder();
    if s != [] {
      if Less(s[0], x) {
        InsertUniqueSorted(x, s[1..]);
        InsertUniqueElements(x, s[1..]);
        forall y | y in Elements(InsertUnique(x, s[1..]))
          ensures Less(s[0], y)
        {
          if y != x {
            HeadIsLeast(s, y);
          }
        }
        ConsStrictlySorted(s[0], InsertUnique(x, s[1..]));
      } else if s[0] != x {
        forall y | y in Elements(s)
          ensures Less(x, y)
        {
          if y != s[0] {
            RestElements(s, y);
            HeadIsLeast(s, y);
          }
        }
        ConsStrictlySorted(x, s);
      }
    }
  }

  lemma {:induction false} UniqueSorts(data: seq<Key>)
    ensures StrictlySorted(Unique(data))
    ensures Elements(Unique(data)) == Elements(data)
  {
    if data != [] {
      UniqueSorts(data[1..]);
      InsertUniqueSorted(data[0], Unique(data[1..]));
      InsertUniqueElements(data[0], Unique(data[1..]));
      assert data == [data[0]] + data[1..];
      ElementsCons(data[0], data[1..]);
    }
  }

  // ---------- sort_files_map ----------

  /** The keys in all files of a directory. */
  ghost function KeysIn(dir: map<string, seq<Key>>): set<Key> {
    set name, x | name in dir && x in dir[name] :: x
  }

  predicate IsLeast(x: Key, s: set<Key>) {
    x in s && forall y :: y in s ==> LessEq(x, y)
  }

  lemma LeastOfMore(s: set<Key>, x: Key, y: Key)
    requires x in s && IsLeast(y, s - {x})
    ensures IsLeast(if Less(y, x) then y else x, s)
  {
    TotalOrder();
    forall z | z in s
      ensures LessEq(if Less(y, x) then y else x, z)
    {
      assert z == x || LessEq(y, z);
    }
  }

  lemma {:induction false} LeastExists(s: set<Key>)
    requires s != {}
    ensures exists x :: IsLeast(x, s)
    decreases s
  {
    var x :| x in s;
    if s == {x} {
      TotalOrder();
      assert IsLeast(x, s);
    } else {
      assert s - {x} != {};
      LeastExists(s - {x});
      var y :| IsLeast(y, s - {x});
      LeastOfMore(s, x, y);
    }
  }

  /** The loop over the set, from its least key on. */
  method Iterate(uniqueSet: set<Key>) returns (uniqueVec: seq<Key>)
    ensures StrictlySorted(uniqueVec) && Elements(uniqueVec) == uniqueSet
  {
    uniqueVec := [];
    var left := uniqueSet;
    while left != {}
      invariant left <= uniqueSet && Elements(uniqueVec) == uniqueSet - left
      invariant StrictlySorted(uniqueVec) && AllBelow(Elements(uniqueVec), left)
      decreases |left|
    {
      LeastExists(left);
      var it :| it in left && IsLeast(it, left);
      AppendGreatest(uniqueVec, it);
      LeastSplits(Elements(uniqueVec), left, it);
      uniqueVec := uniqueVec + [it];
      left := left - {it};
    }
  }

  predicate AllBelow(a: set<Key>, b: set<Key>) {
    forall x, y :: x in a && y in b ==> Less(x, y)
  }

  lemma LeastSplits(a: set<Key>, b: set<Key>, x: Key)
    requires AllBelow(a, b) && IsLeast(x, b)
    ensures AllBelow(a + {x}, b - {x})
  {
    TotalOrder();
  }

  lemma AppendGreatest(s: seq<Key>, x: Key)
    requires StrictlySorted(s)
    requires forall y :: y in Elements(s) ==> Less(y, x)
    ensures StrictlySorted(s + [x]) && Elements(s + [x]) == Elements(s) + {x}
  {
    var t := s + [x];
    forall i, j | 0 <= i < j < |t|
      ensures Less(t[i], t[j])
    {
      assert t[i] == s[i] && s[i] in Elements(s);
    }
  }

  /** The directories as the sorter changes them. */
  class Store {
    var batches: map<string, seq<Key>>
    var comprehensive: seq<Key>
    var temporary: seq<Key>

    constructor ()
      ensures batches == map[] && comprehensive == [] && temporary == []
    {
      batches, comprehensive, temporary := map[], [], [];
    }

    /** A daemon writes a batch, under a name that no file has. */
    method AddBatch(name: string, keys: seq<Key>)
      requires name !in batches
      modifies this`batches
      ensures batches == old(batches)[name := keys]
      ensures KeysIn(batches) == KeysIn(old(batches)) + Elements(keys)
    {
      KeysInAdd(batches, name, keys);
      batches := batches[name := keys];
    }

    method CollectBatches(fileNames: seq<string>) returns (dataVec: seq<Key>)
      requires IsListing(fileNames, batches)
      modifies this`batches
      ensures batches == map[]
      ensures Elements(dataVec) == Elements(comprehensive) + KeysIn(old(batches))
    {
      dataVec := comprehensive;
      assert fileNames[0..] == fileNames;
      for k := 0 to |fileNames|
        invariant IsListing(fileNames[k..], batches)
        invariant Elements(dataVec) + KeysIn(batches) == Elements(comprehensive) + KeysIn(old(batches))
      {
        ListingNext(fileNames[k..], batches);
        KeysInRemove(batches, fileNames[k]);
        ElementsAppend(dataVec, batches[fileNames[k]]);
        assert fileNames[k..][1..] == fileNames[k + 1..];
        dataVec := dataVec + batches[fileNames[k]];
        batches := batches - {fileNames[k]};
      }
      assert batches.Keys == {};
      assert KeysIn(batches) == {};
    }

    /** Whether there were batches. If so the temporary file has all keys, each once and in order. */
    method SortFilesMap(fileNames: seq<string>) returns (updated: bool)
      requires IsListing(fileNames, batches)
      modifies this`batches, this`temporary
      ensures updated == (old(batches) != map[]) && batches == map[]
      ensures if updated then StrictlySorted(temporary) && Elements(temporary) == Elements(comprehensive) + KeysIn(old(batches))
              else temporary == old(temporary)
    {
      if |fileNames| > 0 {
        assert fileNames[0] in batches;
        var dataVec := CollectBatches(fileNames);
        var uniqueSet := {};
        for k := 0 to |dataVec|
          invariant uniqueSet == Elements(dataVec[..k])
        {
          assert dataVec[..k + 1] == dataVec[..k] + [dataVec[k]];
          uniqueSet := uniqueSet + {dataVec[k]};
        }
        assert dataVec[..|dataVec|] == dataVec;
        temporary := Iterate(uniqueSet);
        return true;
      }
      assert batches.Keys == {};
      return false;
    }

    /** One round of the main loop, with the lock held: the new file replaces the old one. */
    method Round(fileNames: seq<string>)
      requires IsListing(fileNames, batches)
      requires StrictlySorted(comprehensive)
      modifies this
      ensures batches == map[]
      ensures StrictlySorted(comprehensive)
      ensures Elements(comprehensive) == Elements(old(comprehensive)) + KeysIn(old(batches))
    {
      var updated := SortFilesMap(fileNames);
      if updated {
        comprehensive, temporary := temporary, [];
      }
    }
  }

  // ---------- Rounds overtaken by new batches ----------

  datatype Pc =
    | Idle
    | ReadInitial(names: seq<string>)
    | ReadFile(names: seq<string>, data: seq<Key>)
    | RemoveFile(name: string, names: seq<string>, data: seq<Key>)
    | RemoveInitial
    | RenameTemp

  /** The batch directory, the comprehensive file, its successor, the sorter, and, as history, all keys ever
      batched. `names` are the listed files not yet taken. */
  datatype State = State(dir: map<string, seq<Key>>, initial: seq<Key>, temp: seq<Key>, pc: Pc, batched: set<Key>)

  datatype Step =
    | Arrives(name: string, keys: seq<Key>)
    | Lists(names: seq<string>)
    | Sorts

  function Init(): State {
    State(map[], [], [], Idle, {})
  }

  predicate Enabled(s: State, step: Step) {
    match step
    case Arrives(_, _) => true
    case Lists(names) => s.pc.Idle? && IsListing(names, s.dir)
    case Sorts => !s.pc.Idle?
  }

  /** The next file operation of a round. */
  function SorterStep(s: State): State
    requires !s.pc.Idle?
  {
    match s.pc
    case ReadInitial(names) => s.(pc := ReadFile(names, s.initial))
    case ReadFile(names, data) =>
      if names == [] then s.(temp := Unique(data), pc := RemoveInitial)
      else s.(pc := RemoveFile(names[0], names[1..], data + if names[0] in s.dir then s.dir[names[0]] else []))
    case RemoveFile(name, names, data) => s.(dir := s.dir - {name}, pc := ReadFile(names, data))
    case RemoveInitial => s.(initial := [], pc := RenameTemp)
    case RenameTemp => s.(initial := s.temp, temp := [], pc := Idle)
  }

  function Apply(s: State, step: Step): State
    requires Enabled(s, step)
  {
    match step
    case Arrives(name, keys) => s.(dir := s.dir[name := keys], batched := s.batched + Elements(keys))
    case Lists(names) => if names == [] then s else s.(pc := ReadInitial(names))
    case Sorts => SorterStep(s)
  }

  /** A run in which no batch takes the name of a file that is still there. */
  predicate Reaches(s: State, steps: seq<Step>, s': State)
    decreases |steps|
  {
    if steps == [] then s' == s
    else Enabled(s, steps[0]) && FreshName(s, steps[0]) && Reaches(Apply(s, steps[0]), steps[1..], s')
  }

  predicate FreshName(s: State, step: Step) {
    step.Arrives? ==> step.name !in s.dir
  }

  /** The keys in the sorter's memory or its temporary file. */
  function InHand(s: State): set<Key> {
    match s.pc
    case Idle => {}
    case ReadInitial(_) => {}
    case ReadFile(_, data) => Elements(data)
    case RemoveFile(_, _, data) => Elements(data)
    case RemoveInitial => Elements(s.temp)
    case RenameTemp => Elements(s.temp)
  }

  ghost function Held(s: State): set<Key> {
    Elements(s.initial) + KeysIn(s.dir) + InHand(s)
  }

  /** What is about to be removed is in hand. */
  ghost predicate Secured(s: State) {
    match s.pc
    case Idle => true
    case ReadInitial(_) => true
    case ReadFile(_, data) => Elements(s.initial) <= Elements(data)
    case RemoveFile(name, _, data) =>
      Elements(s.initial) <= Elements(data) && name in s.dir && Elements(s.dir[name]) <= Elements(data)
    case RemoveInitial => StrictlySorted(s.temp) && Elements(s.initial) <= Elements(s.temp)
    case RenameTemp => StrictlySorted(s.temp) && s.initial == []
  }

  /** Listed files are still there, since only the sorter removes files. */
  predicate ListingOk(s: State) {
    match s.pc
    case ReadInitial(names) => AllThere(names, s.dir)
    case ReadFile(names, _) => AllThere(names, s.dir)
    case RemoveFile(name, names, _) => name !in names && AllThere(names, s.dir)
    case _ => true
  }

  ghost predicate Inv(s: State) {
    StrictlySorted(s.initial) && ListingOk(s) && Secured(s) && Held(s) == s.batched
  }

  lemma KeysInAdd(dir: map<string, seq<Key>>, name: string, keys: seq<Key>)
    requires name !in dir
    ensures KeysIn(dir[name := keys]) == KeysIn(dir) + Elements(keys)
  {
    var dir' := dir[name := keys];
    forall x
      ensures x in KeysIn(dir') <==> x in KeysIn(dir) || x in Elements(keys)
    {
      if x in KeysIn(dir) {
        var n :| n in dir && x in dir[n];
        assert n in dir' && x in dir'[n];
      }
      if x in Elements(keys) {
        assert name in dir' && x in dir'[name];
      }
    }
  }

  lemma KeysInRemove(dir: map<string, seq<Key>>, name: string)
    ensures KeysIn(dir) == KeysIn(dir - {name}) + if name in dir then Elements(dir[name]) else {}
  {
    var dir' := dir - {name};
    forall x
      ensures x in KeysIn(dir) <==> x in KeysIn(dir') || (name in dir && x in dir[name])
    {
      if x in KeysIn(dir) {
        var n :| n in dir && x in dir[n];
        assert n != name ==> n in dir' && x in dir'[n];
      }
      if x in KeysIn(dir') {
        var n :| n in dir' && x in dir'[n];
        assert n in dir && x in dir[n];
      }
    }
  }

  lemma ElementsAppend(a: seq<Key>, b: seq<Key>)
    ensures Elements(a + b) == Elements(a) + Elements(b)
  {
  }

  lemma ArrivalKeepsInv(s: State, name: string, keys: seq<Key>)
    requires Inv(s) && name !in s.dir
    ensures Inv(Apply(s, Arrives(name, keys)))
  {
    KeysInAdd(s.dir, name, keys);
  }

  lemma ReadKeepsInv(s: State)
    requires Inv(s) && s.pc.ReadFile?
    ensures Inv(SorterStep(s))
  {
    var names, data := s.pc.names, s.pc.data;
    UniqueSorts(data);
    if names != [] {
      assert names[0] in names && names[0] !in names[1..];
      assert forall name :: name in names[1..] ==> name in names;
      var more := if names[0] in s.dir then s.dir[names[0]] else [];
      ElementsAppend(data, more);
      KeysInRemove(s.dir, names[0]);
    }
  }

  lemma RemoveKeepsInv(s: State)
    requires Inv(s) && s.pc.RemoveFile?
    ensures Inv(SorterStep(s))
  {
    KeysInRemove(s.dir, s.pc.name);
  }

  lemma ReplaceKeepsInv(s: State)
    requires Inv(s) && (s.pc.ReadInitial? || s.pc.RemoveInitial? || s.pc.RenameTemp?)
    ensures Inv(SorterStep(s))
  {
    assert Elements<Key>([]) == {};
  }

  lemma StepKeepsInv(s: State, step: Step)
    requires Inv(s) && Enabled(s, step) && FreshName(s, step)
    ensures Inv(Apply(s, step))
  {
    match step
    case Arrives(name, keys) => ArrivalKeepsInv(s, name, keys);
    case Lists(names) =>
    case Sorts =>
      if s.pc.ReadFile? {
        ReadKeepsInv(s);
      } else if s.pc.RemoveFile? {
        RemoveKeepsInv(s);
      } else {
        ReplaceKeepsInv(s);
      }
  }

  lemma {:induction false} RunKeepsInv(s: State, steps: seq<Step>, s': State)
    requires Inv(s) && Reaches(s, steps, s')
    ensures Inv(s')
    decreases |steps|
  {
    if steps != [] {
      StepKeepsInv(s, steps[0]);
      RunKeepsInv(Apply(s, steps[0]), steps[1..], s');
    }
  }

  lemma InitInv()
    ensures Inv(Init())
  {
    assert KeysIn(Init().dir) == {};
  }

  /** However rounds and batches are interleaved, no key ever batched is lost and none is made up: it is in
      the comprehensive file, in a pending batch, or in the sorter's hands, and the file is strictly sorted. Before
      its successor takes its place it is empty. */
  lemma StoreAccumulates(steps: seq<Step>, s: State)
    requires Reaches(Init(), steps, s)
    ensures StrictlySorted(s.initial)
    ensures Elements(s.initial) + KeysIn(s.dir) + InHand(s) == s.batched
    ensures s.pc.Idle? ==> Elements(s.initial) + KeysIn(s.dir) == s.batched
    ensures s.pc.RenameTemp? ==> s.initial == [] && StrictlySorted(s.temp)
  {
    InitInv();
    RunKeepsInv(Init(), steps, s);
  }

  /** When all batches have been taken in, the file depends on nothing but the set of keys batched: how often
      a key was delivered, in which batches, and how the rounds fell make no difference. */
  lemma FileIsDetermined(steps1: seq<Step>, s1: State, steps2: seq<Step>, s2: State)
    requires Reaches(Init(), steps1, s1) && Reaches(Init(), steps2, s2)
    requires s1.pc.Idle? && s2.pc.Idle? && s1.dir == map[] && s2.dir == map[]
    requires s1.batched == s2.batched
    ensures s1.initial == s2.initial
  {
    StoreAccumulates(steps1, s1);
    StoreAccumulates(steps2, s2);
    assert KeysIn(s1.dir) == {} && KeysIn(s2.dir) == {};
    StrictlySortedUnique(s1.initial, s2.initial);
  }

  /** The keys that survive if the file `name` is written over. */
  ghost function HeldWithout(s: State, name: string): set<Key> {
    Elements(s.initial) + KeysIn(s.dir - {name}) + InHand(s)
  }

  /** The fresh name is needed: a batch that takes the name of a file keeps all keys exactly when those of
      the old file are held elsewhere or are in the new one. */
  lemma OverwriteIff(s: State, name: string, keys: seq<Key>)
    requires Inv(s) && name in s.dir
    ensures Held(Apply(s, Arrives(name, keys))) == Apply(s, Arrives(name, keys)).batched
            <==> Elements(s.dir[name]) <= HeldWithout(s, name) + Elements(keys)
  {
    var rest := s.dir - {name};
    KeysInRemove(s.dir, name);
    KeysInAdd(rest, name, keys);
    assert s.dir[name := keys] == rest[name := keys];
  }

  // ---------- Names that are safe ----------

  /** A run in which a batch may take any name. */
  predicate ReachesAny(s: State, steps: seq<Step>, s': State)
    decreases |steps|
  {
    if steps == [] then s' == s
    else Enabled(s, steps[0]) && ReachesAny(Apply(s, steps[0]), steps[1..], s')
  }

  /** The names of the batches, in the order in which they are written. */
  function NamesUsed(steps: seq<Step>): seq<string> {
    if steps == [] then []
    else (if steps[0].Arrives? then [steps[0].name] else []) + NamesUsed(steps[1..])
  }

  predicate NoneTwice(names: seq<string>) {
    forall i, j :: 0 <= i < j < |names| ==> names[i] != names[j]
  }

  lemma StepKeepsNames(s: State, step: Step)
    requires Enabled(s, step) && !step.Arrives?
    ensures Apply(s, step).dir.Keys <= s.dir.Keys
  {
  }

  /** A name that no earlier batch had is the name of no file. */
  lemma {:induction false} NoneTwiceIsFresh(s: State, steps: seq<Step>, s': State)
    requires ReachesAny(s, steps, s') && NoneTwice(NamesUsed(steps))
    requires forall name :: name in NamesUsed(steps) ==> name !in s.dir
    ensures Reaches(s, steps, s')
    decreases |steps|
  {
    if steps != [] {
      var used, later := NamesUsed(steps), NamesUsed(steps[1..]);
      if steps[0].Arrives? {
        assert used[0] == steps[0].name && used[0] in used;
        assert forall i :: 0 <= i < |later| ==> later[i] == used[i + 1];
      } else {
        assert used == later;
        StepKeepsNames(s, steps[0]);
      }
      NoneTwiceIsFresh(Apply(s, steps[0]), steps[1..], s');
    }
  }

  lemma ReachesAnyFirst(s: State, step: Step, steps: seq<Step>, s': State)
    requires Enabled(s, step) && ReachesAny(Apply(s, step), steps, s')
    ensures ReachesAny(s, [step] + steps, s')
  {
    assert ([step] + steps)[1..] == steps;
  }

  /** Batches with these names arrive, all of them empty but for the one at `j`, if there is that one. */
  function Arrivals(names: seq<string>, j: int, keys: seq<Key>): seq<Step> {
    seq(|names|, i requires 0 <= i < |names| => Arrives(names[i], if i == j then keys else []))
  }

  lemma {:induction false} ArrivalNames(names: seq<string>, j: int, keys: seq<Key>)
    ensures NamesUsed(Arrivals(names, j, keys)) == names
  {
    if names != [] {
      ArrivalNames(names[1..], j - 1, keys);
      assert Arrivals(names, j, keys)[1..] == Arrivals(names[1..], j - 1, keys);
      assert names == [names[0]] + names[1..];
    }
  }

  /** Only files with these names can have keys. */
  predicate EmptyBut(s: State, names: seq<string>) {
    s.pc.Idle? && s.initial == [] && forall name :: name in s.dir && name !in names ==> s.dir[name] == []
  }

  lemma OneArrival(s: State, names: seq<string>, keys: seq<Key>)
    requires names != [] && EmptyBut(s, names) && (keys == [] || names[0] in names[1..])
    ensures EmptyBut(Apply(s, Arrives(names[0], keys)), names[1..])
  {
    assert forall name :: name in names ==> name == names[0] || name in names[1..];
  }

  lemma ArrivalsFirst(names: seq<string>, j: int, keys: seq<Key>)
    requires names != []
    ensures Arrivals(names, j, keys) == [Arrives(names[0], if j == 0 then keys else [])] + Arrivals(names[1..], j - 1, keys)
  {
  }

  lemma LaterIndex(names: seq<string>, j: int)
    requires names != [] && j != 0 && (0 <= j < |names| ==> names[j] in names[j + 1..])
    ensures 0 <= j - 1 < |names[1..]| ==> names[1..][j - 1] in names[1..][j..]
  {
    assert 0 < j < |names| ==> names[1..][j..] == names[j + 1..];
  }

  /** The batch at `j` is overwritten by a later one. */
  lemma {:induction false} ArrivalsRun(s: State, names: seq<string>, j: int, keys: seq<Key>) returns (s': State)
    requires EmptyBut(s, names)
    requires 0 <= j < |names| ==> names[j] in names[j + 1..]
    ensures ReachesAny(s, Arrivals(names, j, keys), s') && EmptyBut(s', [])
    ensures s'.batched == s.batched + if 0 <= j < |names| then Elements(keys) else {}
    decreases |names|
  {
    if names == [] {
      s' := s;
    } else {
      var first := if j == 0 then keys else [];
      var step := Arrives(names[0], first);
      OneArrival(s, names, first);
      if j != 0 {
        LaterIndex(names, j);
      }
      s' := ArrivalsRun(Apply(s, step), names[1..], j - 1, keys);
      assert Elements<Key>([]) == {};
      ReachesAnyFirst(s, step, Arrivals(names[1..], j - 1, keys), s');
      ArrivalsFirst(names, j, keys);
    }
  }

  /** The names that the daemons give to their batches are safe, in that whatever is in the batches and however
      the rounds fall no key is lost, exactly when no name is used twice. */
  lemma SafeIffNoneTwice(names: seq<string>)
    ensures NoneTwice(names)
            <==> forall steps, s :: ReachesAny(Init(), steps, s) && NamesUsed(steps) == names ==> Held(s) == s.batched
  {
    if NoneTwice(names) {
      forall steps, s | ReachesAny(Init(), steps, s) && NamesUsed(steps) == names
        ensures Held(s) == s.batched
      {
        NoneTwiceIsFresh(Init(), steps, s);
        StoreAccumulates(steps, s);
      }
    } else {
      var i, j :| 0 <= i < j < |names| && names[i] == names[j];
      assert names[i + 1..][j - (i + 1)] == names[j];
      var s := ArrivalsRun(Init(), names, i, ["a"]);
      ArrivalNames(names, i, ["a"]);
      assert KeysIn(s.dir) == {} && Elements<Key>([]) == {};
      assert "a" in Elements(["a"]) && "a" in s.batched && "a" !in Held(s);
    }
  }

  // ---------- A round that nothing overtakes ----------

  /** The keys of the listed files, in the order of the listing. */
  function Listed(names: seq<string>, dir: map<string, seq<Key>>): seq<Key> {
    if names == [] then []
    else (if names[0] in dir then dir[names[0]] else []) + Listed(names[1..], dir - {names[0]})
  }

  lemma {:induction false} ListedKeys(names: seq<string>, dir: map<string, seq<Key>>)
    requires IsListing(names, dir)
    ensures Elements(Listed(names, dir)) == KeysIn(dir)
    decreases |names|
  {
    if names == [] {
      assert dir.Keys == {};
      assert KeysIn(dir) == {};
    } else {
      ListingNext(names, dir);
      ListedKeys(names[1..], dir - {names[0]});
      KeysInRemove(dir, names[0]);
      ElementsAppend(dir[names[0]], Listed(names[1..], dir - {names[0]}));
    }
  }

  /** Reading and removing one file. */
  lemma TakingOne(s: State, names: seq<string>, data: seq<Key>, steps: seq<Step>, s': State) returns (s2: State)
    requires s.pc == ReadFile(names, data) && names != [] && names[0] in s.dir
    ensures s2 == State(s.dir - {names[0]}, s.initial, s.temp, ReadFile(names[1..], data + s.dir[names[0]]), s.batched)
    ensures Reaches(s2, steps, s') ==> Reaches(s, [Sorts] + ([Sorts] + steps), s')
  {
    var s1 := SorterStep(s);
    s2 := SorterStep(s1);
    if Reaches(s2, steps, s') {
      StepFirst(s1, steps, s');
      StepFirst(s, [Sorts] + steps, s');
    }
  }

  function TakingSteps(m: nat): (steps: seq<Step>)
    ensures forall k :: 0 <= k < |steps| ==> steps[k].Sorts?
  {
    if m == 0 then [] else [Sorts] + ([Sorts] + TakingSteps(m - 1))
  }

  /** Reading and removing the listed files, one after the other. */
  lemma {:induction false} TakingFiles(s: State, names: seq<string>, data: seq<Key>)
    requires s.pc == ReadFile(names, data) && IsListing(names, s.dir)
    ensures Reaches(s, TakingSteps(|names|), State(map[], s.initial, s.temp, ReadFile([], data + Listed(names, s.dir)), s.batched))
    decreases |names|
  {
    if names == [] {
      assert s.dir.Keys == {};
      assert data + [] == data;
    } else {
      ListingNext(names, s.dir);
      var more, rest := s.dir[names[0]], Listed(names[1..], s.dir - {names[0]});
      assert (data + more) + rest == data + (more + rest);
      var end := State(map[], s.initial, s.temp, ReadFile([], data + Listed(names, s.dir)), s.batched);
      var s2 := TakingOne(s, names, data, TakingSteps(|names| - 1), end);
      TakingFiles(s2, names[1..], data + more);
    }
  }

  lemma StepFirst(s: State, steps: seq<Step>, s': State)
    requires !s.pc.Idle? && Reaches(SorterStep(s), steps, s')
    ensures Reaches(s, [Sorts] + steps, s')
  {
    assert ([Sorts] + steps)[1..] == steps;
  }

  lemma {:induction false} RunsJoin(s: State, steps1: seq<Step>, s1: State, steps2: seq<Step>, s2: State)
    requires Reaches(s, steps1, s1) && Reaches(s1, steps2, s2)
    ensures Reaches(s, steps1 + steps2, s2)
    decreases |steps1|
  {
    if steps1 == [] {
      assert steps1 + steps2 == steps2;
    } else {
      assert (steps1 + steps2)[1..] == steps1[1..] + steps2;
      RunsJoin(Apply(s, steps1[0]), steps1[1..], s1, steps2, s2);
    }
  }

  /** Writing the new file and putting it in the place of the old one. */
  lemma Replacing(s: State, data: seq<Key>) returns (steps: seq<Step>, s': State)
    requires s.pc == ReadFile([], data)
    ensures Reaches(s, steps, s') && forall k :: 0 <= k < |steps| ==> steps[k].Sorts?
    ensures s' == State(s.dir, Unique(data), [], Idle, s.batched)
  {
    var s1 := SorterStep(s);
    var s2 := SorterStep(s1);
    s' := SorterStep(s2);
    StepFirst(s2, [], s');
    StepFirst(s1, [Sorts] + [], s');
    StepFirst(s, [Sorts] + ([Sorts] + []), s');
    steps := [Sorts] + ([Sorts] + ([Sorts] + []));
  }

  /** A round whose steps follow each other ends in the state that `Store.Round` describes, and that
      description leaves only one file. */
  lemma RoundIsSteps(s: State, names: seq<string>) returns (steps: seq<Step>, s': State)
    requires s.pc.Idle? && names != [] && IsListing(names, s.dir)
    ensures Reaches(s, [Lists(names)] + steps, s') && forall k :: 0 <= k < |steps| ==> steps[k].Sorts?
    ensures s'.pc.Idle? && s'.dir == map[] && s'.temp == [] && s'.batched == s.batched
    ensures StrictlySorted(s'.initial) && Elements(s'.initial) == Elements(s.initial) + KeysIn(s.dir)
    ensures forall file :: StrictlySorted(file) && Elements(file) == Elements(s.initial) + KeysIn(s.dir) ==> file == s'.initial
  {
    var s1 := Apply(s, Lists(names));
    var s2 := SorterStep(s1);
    var data := s.initial + Listed(names, s.dir);
    TakingFiles(s2, names, s.initial);
    var taking := TakingSteps(|names|);
    var s3 := State(map[], s.initial, s.temp, ReadFile([], data), s.batched);
    var replacing;
    replacing, s' := Replacing(s3, data);
    RunsJoin(s2, taking, s3, replacing, s');
    StepFirst(s1, taking + replacing, s');
    steps := [Sorts] + (taking + replacing);
    assert ([Lists(names)] + steps)[1..] == steps;
    ListedKeys(names, s.dir);
    ElementsAppend(s.initial, Listed(names, s.dir));
    UniqueSorts(data);
    forall file | StrictlySorted(file) && Elements(file) == Elements(s'.initial)
      ensures file == s'.initial
    {
      StrictlySortedUnique(file, s'.initial);
    }
  }
}

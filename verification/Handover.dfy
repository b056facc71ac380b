/** What goes into the producer/consumer queue and what comes out, told from the calls alone: which item each
    critical section of `put` appends, and which one each `get` returns.
 */
module Handover {
  import opened Semaphores
  import opened Sums
  import opened BoundedQueue

  // ---------- Told from the steps ----------

  /** The item of the thread's last call of `put`. */
  function LastPut<T>(steps: seq<Step<T>>, t: Thread): Option<T> {
    if steps == [] then None
    else
      var step := steps[|steps| - 1];
      if step.CallPut? && step.t == t then Some(step.item) else LastPut(steps[..|steps| - 1], t)
  }

  /** Every critical section of a `put` hands in what its thread last called `put` with. */
  function HandedIn<T>(steps: seq<Step<T>>): seq<T> {
    if steps == [] then []
    else
      var before, step := steps[..|steps| - 1], steps[|steps| - 1];
      HandedIn(before) + if step.Push? && LastPut(before, step.t).Some? then [LastPut(before, step.t).value] else []
  }

  /** The number of critical sections of `get`. */
  function Pops<T>(steps: seq<Step<T>>): nat {
    if steps == [] then 0 else Pops(steps[..|steps| - 1]) + One(steps[|steps| - 1].Pop?)
  }

  /** How many of them came before the thread's last one. */
  function LastPop<T>(steps: seq<Step<T>>, t: Thread): nat {
    if steps == [] then 0
    else
      var before, step := steps[..|steps| - 1], steps[|steps| - 1];
      if step.Pop? && step.t == t then Pops(before) else LastPop(before, t)
  }

  /** The items of all calls of `put`. */
  function PutItems<T>(steps: seq<Step<T>>): seq<T> {
    if steps == [] then []
    else PutItems(steps[..|steps| - 1]) + if steps[|steps| - 1].CallPut? then [steps[|steps| - 1].item] else []
  }

  /** What the calls of `get` have returned: of all items handed in, the one with the number of the thread's pop. */
  function GotItems<T>(steps: seq<Step<T>>): seq<T> {
    if steps == [] then []
    else
      var before, step := steps[..|steps| - 1], steps[|steps| - 1];
      GotItems(before) + if step.SignalEmpty? && LastPop(before, step.t) < |HandedIn(before)|
                         then [HandedIn(before)[LastPop(before, step.t)]] else []
  }

  // ---------- What threads have in their hands ----------

  predicate Gives<T(==)>(pc: Pc<T>, x: T) {
    (pc.PutWait? || pc.PutAdmitted?) && pc.item == x
  }

  predicate Takes<T(==)>(pc: Pc<T>, x: T) {
    pc.GetSignal? && pc.result == Some(x)
  }

  /** The number of threads that have not yet handed in the item. */
  ghost function Giving<T>(pcs: map<Thread, Pc<T>>, x: T): nat {
    Sum(pcs.Keys, (t: Thread) => One(Gives(PcOf(pcs, t), x)))
  }

  /** The number of threads that have popped the item and not returned it. */
  ghost function Taking<T>(pcs: map<Thread, Pc<T>>, x: T): nat {
    Sum(pcs.Keys, (t: Thread) => One(Takes(PcOf(pcs, t), x)))
  }

  lemma HandsChange<T>(pcs: map<Thread, Pc<T>>, t: Thread, pc: Pc<T>, x: T)
    ensures Giving(pcs[t := pc], x) + One(Gives(PcOf(pcs, t), x)) == Giving(pcs, x) + One(Gives(pc, x))
    ensures Taking(pcs[t := pc], x) + One(Takes(PcOf(pcs, t), x)) == Taking(pcs, x) + One(Takes(pc, x))
  {
    var pcs' := pcs[t := pc];
    assert pcs'.Keys == pcs.Keys + {t};
    SumChange(pcs.Keys, (u: Thread) => One(Gives(PcOf(pcs, u), x)),
              pcs'.Keys, (u: Thread) => One(Gives(PcOf(pcs', u), x)), t);
    SumChange(pcs.Keys, (u: Thread) => One(Takes(PcOf(pcs, u), x)),
              pcs'.Keys, (u: Thread) => One(Takes(PcOf(pcs', u), x)), t);
  }

  // ---------- What every step keeps ----------

  /** A thread's hands hold what the steps say. */
  predicate HandsOk<T(==)>(steps: seq<Step<T>>, s: State<T>, t: Thread) {
    match PcOf(s.pcs, t)
    case PutWait(item) => LastPut(steps, t) == Some(item)
    case PutAdmitted(item) => LastPut(steps, t) == Some(item)
    case GetSignal(result) => LastPop(steps, t) < |s.popped| && result == Some(s.popped[LastPop(steps, t)])
    case _ => true
  }

  ghost predicate HistoryOk<T>(steps: seq<Step<T>>, s: State<T>) {
    && s.pushed == HandedIn(steps)
    && |s.popped| == Pops(steps)
    && forall t :: HandsOk(steps, s, t)
  }

  lemma LastOf<T>(steps: seq<Step<T>>, step: Step<T>)
    ensures (steps + [step])[..|steps + [step]| - 1] == steps
  {
  }

  /** What a step adds to the account of the steps before it. */
  lemma OneStepMore<T>(steps: seq<Step<T>>, step: Step<T>, t: Thread)
    ensures LastPut(steps + [step], t) == if step.CallPut? && step.t == t then Some(step.item) else LastPut(steps, t)
    ensures LastPop(steps + [step], t) == if step.Pop? && step.t == t then Pops(steps) else LastPop(steps, t)
    ensures Pops(steps + [step]) == Pops(steps) + One(step.Pop?)
    ensures HandedIn(steps + [step])
            == if step.Push? && LastPut(steps, step.t).Some? then HandedIn(steps) + [LastPut(steps, step.t).value]
               else HandedIn(steps)
  {
    LastOf(steps, step);
  }

  lemma StepKeepsHands<T>(steps: seq<Step<T>>, s: State<T>, step: Step<T>, t: Thread)
    requires Enabled(s, step) && ItemsOk(s) && HistoryOk(steps, s) && (step.Pop? ==> s.data != [])
    ensures HandsOk(steps + [step], Apply(s, step), t)
  {
    OneStepMore(steps, step, t);
    assert HandsOk(steps, s, t);
  }

  lemma StepKeepsHistory<T>(steps: seq<Step<T>>, s: State<T>, step: Step<T>)
    requires Enabled(s, step) && ItemsOk(s) && HistoryOk(steps, s) && (step.Pop? ==> s.data != [])
    ensures HistoryOk(steps + [step], Apply(s, step))
  {
    OneStepMore(steps, step, step.t);
    assert HandsOk(steps, s, step.t);
    forall t
      ensures HandsOk(steps + [step], Apply(s, step), t)
    {
      StepKeepsHands(steps, s, step, t);
    }
  }

  function Times<T(==)>(items: seq<T>, x: T): nat {
    if items == [] then 0 else Times(items[..|items| - 1], x) + One(items[|items| - 1] == x)
  }

  /** Every call of `put` has handed in its item or has it still to do. */
  ghost predicate PutsOk<T>(puts: seq<T>, pushed: seq<T>, pcs: map<Thread, Pc<T>>, x: T) {
    Times(puts, x) == Times(pushed, x) + Giving(pcs, x)
  }

  /** Every item popped has been returned or will be. */
  ghost predicate GetsOk<T>(popped: seq<T>, got: seq<T>, pcs: map<Thread, Pc<T>>, x: T) {
    Times(popped, x) == Times(got, x) + Taking(pcs, x)
  }

  lemma TimesNext<T>(items: seq<T>, y: T, x: T)
    ensures Times(items + [y], x) == Times(items, x) + One(y == x)
  {
    assert (items + [y])[..|items + [y]| - 1] == items;
  }

  lemma {:induction false} TimesAppend<T>(a: seq<T>, b: seq<T>, x: T)
    ensures Times(a + b, x) == Times(a, x) + Times(b, x)
  {
    if b == [] {
      assert a + b == a;
    } else {
      var b', y := b[..|b| - 1], b[|b| - 1];
      TimesAppend(a, b', x);
      TimesNext(a + b', y, x);
      assert a + b == (a + b') + [y];
    }
  }

  lemma {:induction false} TimesAreCopies<T>(items: seq<T>, x: T)
    ensures Times(items, x) == multiset(items)[x]
  {
    if items != [] {
      TimesAreCopies(items[..|items| - 1], x);
      assert items == items[..|items| - 1] + [items[|items| - 1]];
    }
  }

  lemma OneItemMore<T>(steps: seq<Step<T>>, step: Step<T>)
    ensures PutItems(steps + [step]) == if step.CallPut? then PutItems(steps) + [step.item] else PutItems(steps)
    ensures GotItems(steps + [step])
            == if step.SignalEmpty? && LastPop(steps, step.t) < |HandedIn(steps)|
               then GotItems(steps) + [HandedIn(steps)[LastPop(steps, step.t)]] else GotItems(steps)
  {
    LastOf(steps, step);
  }

  lemma CallKeepsPuts<T>(puts: seq<T>, pushed: seq<T>, pcs: map<Thread, Pc<T>>, t: Thread, item: T, x: T)
    requires PutsOk(puts, pushed, pcs, x) && PcOf(pcs, t).Idle?
    ensures PutsOk(puts + [item], pushed, pcs[t := PutWait(item)], x)
  {
    HandsChange(pcs, t, PutWait(item), x);
    TimesNext(puts, item, x);
  }

  lemma PushKeepsPuts<T>(puts: seq<T>, pushed: seq<T>, pcs: map<Thread, Pc<T>>, t: Thread, x: T)
    requires PutsOk(puts, pushed, pcs, x) && PcOf(pcs, t).PutAdmitted?
    ensures PutsOk(puts, pushed + [pcs[t].item], pcs[t := PutSignal], x)
  {
    HandsChange(pcs, t, PutSignal, x);
    TimesNext(pushed, pcs[t].item, x);
  }

  /** Any other step leaves in a thread's hands what is there. */
  lemma MoveKeepsPuts<T>(puts: seq<T>, pushed: seq<T>, pcs: map<Thread, Pc<T>>, t: Thread, pc: Pc<T>, x: T)
    requires PutsOk(puts, pushed, pcs, x) && (Gives(PcOf(pcs, t), x) <==> Gives(pc, x))
    ensures PutsOk(puts, pushed, pcs[t := pc], x)
  {
    HandsChange(pcs, t, pc, x);
  }

  lemma StepKeepsPuts<T>(puts: seq<T>, s: State<T>, step: Step<T>, x: T)
    requires Enabled(s, step) && PutsOk(puts, s.pushed, s.pcs, x)
    ensures PutsOk(if step.CallPut? then puts + [step.item] else puts, Apply(s, step).pushed, Apply(s, step).pcs, x)
  {
    match step
    case CallPut(t, item) => CallKeepsPuts(puts, s.pushed, s.pcs, t, item, x);
    case Push(t) => PushKeepsPuts(puts, s.pushed, s.pcs, t, x);
    case SpuriousWake(_) =>
    case _ => MoveKeepsPuts(puts, s.pushed, s.pcs, step.t, Apply(s, step).pcs[step.t], x);
  }

  lemma PopKeepsGets<T>(popped: seq<T>, got: seq<T>, pcs: map<Thread, Pc<T>>, t: Thread, item: T, x: T)
    requires GetsOk(popped, got, pcs, x) && PcOf(pcs, t).GetAdmitted?
    ensures GetsOk(popped + [item], got, pcs[t := GetSignal(Some(item))], x)
  {
    HandsChange(pcs, t, GetSignal(Some(item)), x);
    TimesNext(popped, item, x);
  }

  lemma ReturnKeepsGets<T>(popped: seq<T>, got: seq<T>, pcs: map<Thread, Pc<T>>, t: Thread, item: T, x: T)
    requires GetsOk(popped, got, pcs, x) && PcOf(pcs, t) == GetSignal(Some(item))
    ensures GetsOk(popped, got + [item], pcs[t := Idle], x)
  {
    HandsChange(pcs, t, Idle, x);
    TimesNext(got, item, x);
  }

  lemma MoveKeepsGets<T>(popped: seq<T>, got: seq<T>, pcs: map<Thread, Pc<T>>, t: Thread, pc: Pc<T>, x: T)
    requires GetsOk(popped, got, pcs, x) && (Takes(PcOf(pcs, t), x) <==> Takes(pc, x))
    ensures GetsOk(popped, got, pcs[t := pc], x)
  {
    HandsChange(pcs, t, pc, x);
  }

  lemma StepKeepsGets<T>(got: seq<T>, s: State<T>, step: Step<T>, x: T)
    requires Enabled(s, step) && GetsOk(s.popped, got, s.pcs, x) && (step.Pop? ==> s.data != [])
    requires step.SignalEmpty? ==> s.pcs[step.t].result.Some?
    ensures GetsOk(Apply(s, step).popped, if step.SignalEmpty? then got + [s.pcs[step.t].result.value] else got,
                   Apply(s, step).pcs, x)
  {
    match step
    case Pop(t) => PopKeepsGets(s.popped, got, s.pcs, t, s.data[0], x);
    case SignalEmpty(t, _) => ReturnKeepsGets(s.popped, got, s.pcs, t, s.pcs[t].result.value, x);
    case SpuriousWake(_) =>
    case _ => MoveKeepsGets(s.popped, got, s.pcs, step.t, Apply(s, step).pcs[step.t], x);
  }

  ghost predicate AllOk<T>(steps: seq<Step<T>>, s: State<T>, capacity: nat, x: T) {
    Inv(s, capacity) && HistoryOk(steps, s)
    && PutsOk(PutItems(steps), s.pushed, s.pcs, x) && GetsOk(s.popped, GotItems(steps), s.pcs, x)
  }

  lemma ReturnsWhatItTook<T>(steps: seq<Step<T>>, s: State<T>, t: Thread)
    requires HistoryOk(steps, s) && ItemsOk(s) && PcOf(s.pcs, t).GetSignal?
    ensures LastPop(steps, t) < |HandedIn(steps)| && s.pcs[t].result == Some(HandedIn(steps)[LastPop(steps, t)])
  {
    assert HandsOk(steps, s, t);
  }

  lemma StepKeepsAccount<T>(done: seq<Step<T>>, s: State<T>, step: Step<T>, x: T)
    requires Enabled(s, step) && HistoryOk(done, s) && ItemsOk(s) && (step.Pop? ==> s.data != [])
    requires PutsOk(PutItems(done), s.pushed, s.pcs, x) && GetsOk(s.popped, GotItems(done), s.pcs, x)
    ensures PutsOk(PutItems(done + [step]), Apply(s, step).pushed, Apply(s, step).pcs, x)
    ensures GetsOk(Apply(s, step).popped, GotItems(done + [step]), Apply(s, step).pcs, x)
  {
    if step.SignalEmpty? {
      ReturnsWhatItTook(done, s, step.t);
    }
    OneItemMore(done, step);
    StepKeepsPuts(PutItems(done), s, step, x);
    StepKeepsGets(GotItems(done), s, step, x);
  }

  lemma StepKeepsAll<T>(done: seq<Step<T>>, s: State<T>, step: Step<T>, capacity: nat, x: T)
    requires AllOk(done, s, capacity, x) && Enabled(s, step)
    ensures AllOk(done + [step], Apply(s, step), capacity, x)
  {
    if step.Pop? {
      AdmittedFindsItem(s, capacity, step.t);
    }
    StepKeepsInv(s, step, capacity);
    StepKeepsHistory(done, s, step);
    StepKeepsAccount(done, s, step, x);
  }

  lemma Around<T>(steps: seq<Step<T>>, k: nat)
    requires k < |steps|
    ensures steps[k..] != [] && steps[k..][0] == steps[k] && steps[k..][1..] == steps[k + 1..]
    ensures steps[..k] + [steps[k]] == steps[..k + 1]
  {
  }

  /** The first `k` steps have led to `s`, the others lead on. */
  lemma {:induction false} RunKeepsAll<T>(steps: seq<Step<T>>, k: nat, s: State<T>, s': State<T>, capacity: nat, x: T)
    requires k <= |steps| && AllOk(steps[..k], s, capacity, x) && Reaches(s, steps[k..], s')
    ensures AllOk(steps[..|steps|], s', capacity, x)
    decreases |steps| - k
  {
    if k < |steps| {
      Around(steps, k);
      var next := Apply(s, steps[k]);
      StepKeepsAll(steps[..k], s, steps[k], capacity, x);
      RunKeepsAll(steps, k + 1, next, s', capacity, x);
    }
  }

  lemma NothingYet<T>(bufferSize: nat, x: T)
    ensures AllOk([], Init<T>(bufferSize), Capacity(bufferSize), x)
  {
    InitInv<T>(bufferSize);
  }

  // ---------- What every run guarantees ----------

  lemma RunIsOk<T>(bufferSize: nat, steps: seq<Step<T>>, s: State<T>, x: T)
    requires Reaches(Init(bufferSize), steps, s)
    ensures AllOk(steps, s, Capacity(bufferSize), x)
  {
    NothingYet(bufferSize, x);
    assert steps[..0] == [] && steps[0..] == steps && steps[..|steps|] == steps;
    RunKeepsAll(steps, 0, Init(bufferSize), s, Capacity(bufferSize), x);
  }

  lemma InOrder<T>(steps: seq<Step<T>>, s: State<T>, t: Thread)
    requires HistoryOk(steps, s) && ItemsOk(s)
    ensures Pops(steps) <= |HandedIn(steps)| && s.data == HandedIn(steps)[Pops(steps)..]
    ensures PcOf(s.pcs, t).GetSignal? ==>
              LastPop(steps, t) < |HandedIn(steps)| && PcOf(s.pcs, t).result == Some(HandedIn(steps)[LastPop(steps, t)])
  {
    if PcOf(s.pcs, t).GetSignal? {
      ReturnsWhatItTook(steps, s, t);
    }
  }

  lemma AllThere<T>(puts: seq<T>, got: seq<T>, s: State<T>, x: T)
    requires PutsOk(puts, s.pushed, s.pcs, x) && GetsOk(s.popped, got, s.pcs, x) && s.pushed == s.popped + s.data
    ensures multiset(puts)[x] == multiset(s.pushed)[x] + Giving(s.pcs, x)
    ensures multiset(puts)[x] == Giving(s.pcs, x) + multiset(s.data)[x] + Taking(s.pcs, x) + multiset(got)[x]
  {
    TimesAppend(s.popped, s.data, x);
    TimesAreCopies(puts, x);
    TimesAreCopies(s.pushed, x);
    TimesAreCopies(s.data, x);
    TimesAreCopies(got, x);
  }

  /** In every run the items go in as the calls of `put` give them, and come out in the same order: what the
      buffer holds are the items handed in, but for as many as there were pops, and a thread that has popped returns
      the item with the number of its pop. Every copy of an item that was put is still to be handed in, or in the
      buffer, or about to be returned, or returned. */
  lemma ItemsAreHandedOver<T>(bufferSize: nat, steps: seq<Step<T>>, s: State<T>, t: Thread, x: T)
    requires Reaches(Init(bufferSize), steps, s)
    ensures Pops(steps) <= |HandedIn(steps)| && s.data == HandedIn(steps)[Pops(steps)..]
    ensures PcOf(s.pcs, t).GetSignal? ==>
              LastPop(steps, t) < |HandedIn(steps)| && PcOf(s.pcs, t).result == Some(HandedIn(steps)[LastPop(steps, t)])
    ensures multiset(PutItems(steps))[x] == multiset(s.pushed)[x] + Giving(s.pcs, x)
    ensures multiset(PutItems(steps))[x]
            == Giving(s.pcs, x) + multiset(s.data)[x] + Taking(s.pcs, x) + multiset(GotItems(steps))[x]
  {
    RunIsOk(bufferSize, steps, s, x);
    InOrder(steps, s, t);
    AllThere(PutItems(steps), GotItems(steps), s, x);
  }

  // ---------- How much fits ----------

  lemma ReachesThen<T>(s: State<T>, steps: seq<Step<T>>, s1: State<T>, step: Step<T>)
    requires Reaches(s, steps, s1) && Enabled(s1, step)
    ensures Reaches(s, steps + [step], Apply(s1, step))
    decreases |steps|
  {
    if steps == [] {
      ReachesFirst(s, step, [], Apply(s, step));
      assert steps + [step] == [step] + [];
    } else {
      ReachesThen(Apply(s, steps[0]), steps[1..], s1, step);
      ReachesFirst(s, steps[0], steps[1..] + [step], Apply(s1, step));
      assert [steps[0]] + (steps[1..] + [step]) == steps + [step];
    }
  }

  /** A thread puts an item while there is room. */
  lemma OnePut<T>(bufferSize: nat, steps: seq<Step<T>>, s: State<T>, item: T, room: nat) returns (steps': seq<Step<T>>, s': State<T>)
    requires Reaches(Init(bufferSize), steps, s) && PcOf(s.pcs, 0).Idle?
    requires s.empty == Sem(room, {}, {}) && s.fill.asleep == {} && room > 0
    ensures Reaches(Init(bufferSize), steps', s') && PcOf(s'.pcs, 0).Idle?
    ensures s'.empty == Sem(room - 1, {}, {}) && s'.fill.asleep == {} && s'.data == s.data + [item]
  {
    var s1 := Apply(s, CallPut(0, item));
    ReachesThen(Init(bufferSize), steps, s, CallPut(0, item));
    var s2 := Apply(s1, AcquireEmpty(0));
    ReachesThen(Init(bufferSize), steps + [CallPut(0, item)], s1, AcquireEmpty(0));
    var s3 := Apply(s2, Push(0));
    ReachesThen(Init(bufferSize), steps + [CallPut(0, item)] + [AcquireEmpty(0)], s2, Push(0));
    s' := Apply(s3, SignalFill(0, {}));
    steps' := steps + [CallPut(0, item)] + [AcquireEmpty(0)] + [Push(0)] + [SignalFill(0, {})];
    ReachesThen(Init(bufferSize), steps + [CallPut(0, item)] + [AcquireEmpty(0)] + [Push(0)], s3, SignalFill(0, {}));
  }

  lemma {:induction false} PutAll<T>(bufferSize: nat, items: seq<T>) returns (steps: seq<Step<T>>, s: State<T>)
    requires |items| <= Capacity(bufferSize)
    ensures Reaches(Init(bufferSize), steps, s) && PcOf(s.pcs, 0).Idle?
    ensures s.empty == Sem(Capacity(bufferSize) - |items|, {}, {}) && s.fill.asleep == {} && s.data == items
  {
    if items == [] {
      steps, s := [], Init(bufferSize);
    } else {
      var last := |items| - 1;
      steps, s := PutAll(bufferSize, items[..last]);
      steps, s := OnePut(bufferSize, steps, s, items[last], Capacity(bufferSize) - last);
      assert items == items[..last] + [items[last]];
    }
  }

  ghost predicate CanHold<T(!new)>(bufferSize: nat, items: seq<T>) {
    exists steps: seq<Step<T>>, s: State<T> :: Reaches(Init(bufferSize), steps, s) && s.data == items
  }

  /** The buffer can come to hold any items in any order, exactly if there are no more of them than the buffer size
      modulo `2^32`. */
  lemma HoldsUpToCapacity<T(!new)>(bufferSize: nat, items: seq<T>)
    ensures CanHold(bufferSize, items) <==> |items| <= bufferSize % 4294967296
  {
    if |items| <= bufferSize % 4294967296 {
      var steps, s := PutAll(bufferSize, items);
    }
    if CanHold(bufferSize, items) {
      var steps: seq<Step<T>>, s: State<T> :| Reaches(Init(bufferSize), steps, s) && s.data == items;
      QueueIsSafe(bufferSize, steps, s, 0);
    }
  }
}

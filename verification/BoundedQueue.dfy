/** The producer/consumer queue: a deque under a mutex, between two semaphores.

    Every thread is at one point of `put` or `get`; every critical section is one step, and the steps
    of all threads interleave freely.
 */
module BoundedQueue {
  import opened Machine
  import opened Semaphores
  import opened Sums

  datatype Option<T> = None | Some(value: T)

  /** The points of `put` and `get`: at the first semaphore (new, asleep or woken there), admitted by it,
      and before the signal to the other one. `None` is the null item. */
  datatype Pc<T> =
    | Idle
    | PutWait(item: T)
    | PutAdmitted(item: T)
    | PutSignal
    | GetWait
    | GetAdmitted
    | GetSignal(result: Option<T>)

  /** `pushed` and `popped` are history: all items in the order of their critical sections. */
  datatype State<T> = State(empty: Sem, fill: Sem, data: seq<T>, pcs: map<Thread, Pc<T>>, pushed: seq<T>, popped: seq<T>)

  datatype Step<T> =
    | CallPut(t: Thread, item: T)
    | CallGet(t: Thread)
    | AcquireEmpty(t: Thread)
    | Push(t: Thread)
    | SignalFill(t: Thread, wake: set<Thread>)
    | AcquireFill(t: Thread)
    | Pop(t: Thread)
    | SignalEmpty(t: Thread, wake: set<Thread>)
    | SpuriousWake(t: Thread)

  function PcOf<T>(pcs: map<Thread, Pc<T>>, t: Thread): Pc<T> {
    if t in pcs then pcs[t] else Idle
  }

  /** A queue of the given buffer size, which the semaphore cuts to 32 bits. */
  function Capacity(bufferSize: nat): nat {
    bufferSize % UINT
  }

  function Init<T>(bufferSize: nat): State<T> {
    State(Sem(Capacity(bufferSize), {}, {}), Sem(0, {}, {}), [], map[], [], [])
  }

  predicate Enabled<T>(s: State<T>, step: Step<T>) {
    match step
    case CallPut(t, _) => PcOf(s.pcs, t).Idle?
    case CallGet(t) => PcOf(s.pcs, t).Idle?
    case AcquireEmpty(t) => PcOf(s.pcs, t).PutWait? && t !in s.empty.asleep
    case Push(t) => PcOf(s.pcs, t).PutAdmitted?
    case SignalFill(t, wake) => PcOf(s.pcs, t).PutSignal? && MayWake(s.fill, wake)
    case AcquireFill(t) => PcOf(s.pcs, t).GetWait? && t !in s.fill.asleep
    case Pop(t) => PcOf(s.pcs, t).GetAdmitted?
    case SignalEmpty(t, wake) => PcOf(s.pcs, t).GetSignal? && MayWake(s.empty, wake)
    case SpuriousWake(t) => t in s.empty.asleep || t in s.fill.asleep
  }

  function Apply<T>(s: State<T>, step: Step<T>): State<T>
    requires Enabled(s, step)
  {
    match step
    case CallPut(t, item) => s.(pcs := s.pcs[t := PutWait(item)])
    case CallGet(t) => s.(pcs := s.pcs[t := GetWait])
    case AcquireEmpty(t) =>
      var pc := if s.empty.count == 0 then s.pcs[t] else PutAdmitted(s.pcs[t].item);
      s.(empty := Look(s.empty, t), pcs := s.pcs[t := pc])
    case Push(t) =>
      var item := s.pcs[t].item;
      s.(data := s.data + [item], pushed := s.pushed + [item], pcs := s.pcs[t := PutSignal])
    case SignalFill(t, wake) => s.(fill := Signal(s.fill, wake), pcs := s.pcs[t := Idle])
    case AcquireFill(t) =>
      var pc := if s.fill.count == 0 then GetWait else GetAdmitted;
      s.(fill := Look(s.fill, t), pcs := s.pcs[t := pc])
    case Pop(t) =>
      if s.data == [] then s.(pcs := s.pcs[t := GetSignal(None)])
      else s.(data := s.data[1..], popped := s.popped + [s.data[0]], pcs := s.pcs[t := GetSignal(Some(s.data[0]))])
    case SignalEmpty(t, wake) => s.(empty := Signal(s.empty, wake), pcs := s.pcs[t := Idle])
    case SpuriousWake(t) =>
      if t in s.empty.asleep then s.(empty := Spurious(s.empty, t)) else s.(fill := Spurious(s.fill, t))
  }

  predicate Reaches<T(==)>(s: State<T>, steps: seq<Step<T>>, s': State<T>)
    decreases |steps|
  {
    if steps == [] then s' == s
    else Enabled(s, steps[0]) && Reaches(Apply(s, steps[0]), steps[1..], s')
  }

  // ---------- The invariant ----------

  /** The points that the balance counts. */
  datatype Phase = Elsewhere | PAdmitted | PSignal | GAdmitted | GSignal

  function PhaseOf<T>(pc: Pc<T>): Phase {
    match pc
    case PutAdmitted(_) => PAdmitted
    case PutSignal => PSignal
    case GetAdmitted => GAdmitted
    case GetSignal(_) => GSignal
    case _ => Elsewhere
  }

  function One(b: bool): nat {
    if b then 1 else 0
  }

  /** The number of threads at a point. */
  ghost function Count<T>(pcs: map<Thread, Pc<T>>, p: Phase): nat {
    Sum(pcs.Keys, (t: Thread) => One(PhaseOf(PcOf(pcs, t)) == p))
  }

  /** Every place of the buffer is free, held by a producer that was admitted, filled, or held by a
      consumer that has popped; every item is announced, about to be, or taken by an admitted consumer. */
  ghost predicate Balanced<T>(s: State<T>, capacity: nat) {
    && s.empty.count + Count(s.pcs, PAdmitted) + |s.data| + Count(s.pcs, GSignal) == capacity
    && |s.data| == s.fill.count + Count(s.pcs, PSignal) + Count(s.pcs, GAdmitted)
  }

  /** Items leave in the order in which they came, and no consumer carries null. */
  predicate ItemsOk<T(==)>(s: State<T>) {
    && s.pushed == s.popped + s.data
    && forall t :: t in s.pcs && s.pcs[t].GetSignal? ==> s.pcs[t].result.Some?
  }

  /** No wakeup is lost, and threads waiting at a semaphore are at that point of the program. */
  predicate EmptyOk<T>(empty: Sem, pcs: map<Thread, Pc<T>>) {
    NoLostWakeup(empty) && forall t :: t in Waiters(empty) ==> t in pcs && pcs[t].PutWait?
  }

  predicate FillOk<T>(fill: Sem, pcs: map<Thread, Pc<T>>) {
    NoLostWakeup(fill) && forall t :: t in Waiters(fill) ==> t in pcs && pcs[t].GetWait?
  }

  predicate SemsOk<T>(s: State<T>) {
    EmptyOk(s.empty, s.pcs) && FillOk(s.fill, s.pcs)
  }

  ghost predicate Inv<T>(s: State<T>, capacity: nat) {
    capacity < UINT && Balanced(s, capacity) && ItemsOk(s) && SemsOk(s)
  }

  /** One thread moves from one point to another. */
  lemma CountChange<T>(pcs: map<Thread, Pc<T>>, t: Thread, pc: Pc<T>, p: Phase)
    requires p != Elsewhere
    ensures Count(pcs[t := pc], p) + One(PhaseOf(PcOf(pcs, t)) == p) == Count(pcs, p) + One(PhaseOf(pc) == p)
  {
    var pcs' := pcs[t := pc];
    assert pcs'.Keys == pcs.Keys + {t};
    SumChange(pcs.Keys, (u: Thread) => One(PhaseOf(PcOf(pcs, u)) == p),
              pcs'.Keys, (u: Thread) => One(PhaseOf(PcOf(pcs', u)) == p), t);
  }

  lemma Occupied<T>(pcs: map<Thread, Pc<T>>, t: Thread)
    requires t in pcs
    ensures Count(pcs, PhaseOf(pcs[t])) > 0
  {
    SumPositive(pcs.Keys, (u: Thread) => One(PhaseOf(PcOf(pcs, u)) == PhaseOf(pcs[t])));
  }

  lemma StepKeepsBalance<T>(s: State<T>, step: Step<T>, capacity: nat)
    requires Inv(s, capacity) && Enabled(s, step)
    ensures Balanced(Apply(s, step), capacity)
  {
    if !step.SpuriousWake? {
      if step.t in s.pcs {
        Occupied(s.pcs, step.t);
      }
      MoveKeepsBalance(s, step, Apply(s, step), capacity);
    }
  }

  lemma MoveKeepsBalance<T>(s: State<T>, step: Step<T>, s': State<T>, capacity: nat)
    requires capacity < UINT && Balanced(s, capacity) && Enabled(s, step) && s' == Apply(s, step) && !step.SpuriousWake?
    requires step.t in s.pcs ==> Count(s.pcs, PhaseOf(s.pcs[step.t])) > 0
    ensures Balanced(s', capacity)
  {
    CountChange(s.pcs, step.t, s'.pcs[step.t], PAdmitted);
    CountChange(s.pcs, step.t, s'.pcs[step.t], PSignal);
    CountChange(s.pcs, step.t, s'.pcs[step.t], GAdmitted);
    CountChange(s.pcs, step.t, s'.pcs[step.t], GSignal);
  }

  /** Within the invariant an admitted consumer finds an item. */
  lemma AdmittedFindsItem<T>(s: State<T>, capacity: nat, t: Thread)
    requires Inv(s, capacity) && PcOf(s.pcs, t).GetAdmitted?
    ensures s.data != []
  {
    Occupied(s.pcs, t);
  }

  lemma StepKeepsItems<T>(s: State<T>, step: Step<T>, capacity: nat)
    requires Inv(s, capacity) && Enabled(s, step)
    ensures ItemsOk(Apply(s, step))
  {
    if step.Pop? {
      AdmittedFindsItem(s, capacity, step.t);
      PopKeepsItems(s, step.t);
    }
  }

  lemma PopKeepsItems<T>(s: State<T>, t: Thread)
    requires ItemsOk(s) && Enabled(s, Pop(t)) && s.data != []
    ensures ItemsOk(Apply(s, Pop(t)))
  {
    assert s.data == [s.data[0]] + s.data[1..];
  }

  lemma LookKeepsEmpty<T>(s: State<T>, t: Thread)
    requires SemsOk(s) && Enabled(s, AcquireEmpty(t))
    ensures EmptyOk(Apply(s, AcquireEmpty(t)).empty, Apply(s, AcquireEmpty(t)).pcs)
  {
    LookKeeps(s.empty, t);
    LookWaiters(s.empty, t);
  }

  lemma LookKeepsFill<T>(s: State<T>, t: Thread)
    requires SemsOk(s) && Enabled(s, AcquireFill(t))
    ensures FillOk(Apply(s, AcquireFill(t)).fill, Apply(s, AcquireFill(t)).pcs)
  {
    LookKeeps(s.fill, t);
    LookWaiters(s.fill, t);
  }

  /** A thread that is not waiting changes its point. */
  lemma EmptyStays<T>(empty: Sem, pcs: map<Thread, Pc<T>>, t: Thread, pc: Pc<T>)
    requires EmptyOk(empty, pcs) && !PcOf(pcs, t).PutWait?
    ensures EmptyOk(empty, pcs[t := pc])
  {
    assert t !in Waiters(empty);
  }

  lemma FillStays<T>(fill: Sem, pcs: map<Thread, Pc<T>>, t: Thread, pc: Pc<T>)
    requires FillOk(fill, pcs) && !PcOf(pcs, t).GetWait?
    ensures FillOk(fill, pcs[t := pc])
  {
    assert t !in Waiters(fill);
  }

  lemma StepKeepsEmpty<T>(s: State<T>, step: Step<T>)
    requires SemsOk(s) && Enabled(s, step)
    ensures EmptyOk(Apply(s, step).empty, Apply(s, step).pcs)
  {
    match step
    case SignalEmpty(t, wake) =>
      SignalKeeps(s.empty, wake);
      EmptyStays(Signal(s.empty, wake), s.pcs, t, Idle);
    case AcquireEmpty(t) => LookKeepsEmpty(s, t);
    case SpuriousWake(t) =>
      if t in s.empty.asleep {
        SpuriousKeeps(s.empty, t);
      }
    case _ => EmptyStays(s.empty, s.pcs, step.t, Apply(s, step).pcs[step.t]);
  }

  lemma StepKeepsFill<T>(s: State<T>, step: Step<T>)
    requires SemsOk(s) && Enabled(s, step)
    ensures FillOk(Apply(s, step).fill, Apply(s, step).pcs)
  {
    match step
    case SignalFill(t, wake) =>
      SignalKeeps(s.fill, wake);
      FillStays(Signal(s.fill, wake), s.pcs, t, Idle);
    case AcquireFill(t) => LookKeepsFill(s, t);
    case SpuriousWake(t) =>
      if t !in s.empty.asleep {
        SpuriousKeeps(s.fill, t);
      }
    case _ => FillStays(s.fill, s.pcs, step.t, Apply(s, step).pcs[step.t]);
  }

  lemma StepKeepsInv<T>(s: State<T>, step: Step<T>, capacity: nat)
    requires Inv(s, capacity) && Enabled(s, step)
    ensures Inv(Apply(s, step), capacity)
  {
    StepKeepsBalance(s, step, capacity);
    StepKeepsItems(s, step, capacity);
    StepKeepsEmpty(s, step);
    StepKeepsFill(s, step);
  }

  lemma {:induction false} RunKeepsInv<T>(s: State<T>, steps: seq<Step<T>>, s': State<T>, capacity: nat)
    requires Inv(s, capacity) && Reaches(s, steps, s')
    ensures Inv(s', capacity)
    decreases |steps|
  {
    if steps != [] {
      StepKeepsInv(s, steps[0], capacity);
      RunKeepsInv(Apply(s, steps[0]), steps[1..], s', capacity);
    }
  }

  lemma InitInv<T>(bufferSize: nat)
    ensures Inv(Init<T>(bufferSize), Capacity(bufferSize))
  {
  }

  // ---------- What every run guarantees ----------

  /** In every reachable state: every place and every item is accounted for, so the buffer is within its
      capacity and both counts fit into their 32 bits; items leave in the order in which they came; no
      consumer returns null or finds the buffer empty; and no signal makes a count wrap around. */
  lemma QueueIsSafe<T>(bufferSize: nat, steps: seq<Step<T>>, s: State<T>, t: Thread)
    requires Reaches(Init(bufferSize), steps, s)
    ensures Balanced(s, Capacity(bufferSize))
    ensures |s.data| <= Capacity(bufferSize)
    ensures s.empty.count < UINT && s.fill.count < UINT
    ensures s.popped <= s.pushed && s.pushed[|s.popped|..] == s.data
    ensures PcOf(s.pcs, t).GetSignal? ==> PcOf(s.pcs, t).result.Some?
    ensures PcOf(s.pcs, t).GetAdmitted? ==> s.data != []
    ensures PcOf(s.pcs, t).PutSignal? ==> Incremented(s.fill.count) == s.fill.count + 1
    ensures PcOf(s.pcs, t).GetSignal? ==> Incremented(s.empty.count) == s.empty.count + 1
  {
    InitInv<T>(bufferSize);
    RunKeepsInv(Init(bufferSize), steps, s, Capacity(bufferSize));
    InvMeansSafe(s, Capacity(bufferSize), t);
  }

  lemma InvMeansSafe<T>(s: State<T>, capacity: nat, t: Thread)
    requires Inv(s, capacity)
    ensures |s.data| <= capacity && s.empty.count < UINT && s.fill.count < UINT
    ensures PcOf(s.pcs, t).GetAdmitted? ==> s.data != []
    ensures PcOf(s.pcs, t).PutSignal? ==> Incremented(s.fill.count) == s.fill.count + 1
    ensures PcOf(s.pcs, t).GetSignal? ==> Incremented(s.empty.count) == s.empty.count + 1
  {
    if t in s.pcs {
      Occupied(s.pcs, t);
    }
  }

  /** A thread that can go on by itself: neither idle nor asleep. */
  predicate Runnable<T>(s: State<T>, t: Thread) {
    t in s.pcs && !s.pcs[t].Idle? && t !in s.empty.asleep && t !in s.fill.asleep
  }

  predicate NobodyRuns<T>(s: State<T>) {
    forall t :: t in s.pcs ==> !Runnable(s, t)
  }

  /** A producer and a consumer sleep, and nobody is there to wake them. */
  predicate Deadlocked<T>(s: State<T>) {
    NobodyRuns(s) && s.empty.asleep != {} && s.fill.asleep != {}
  }

  lemma NobodyAt<T>(s: State<T>, p: Phase)
    requires NobodyRuns(s) && SemsOk(s) && p != Elsewhere
    ensures Count(s.pcs, p) == 0
  {
    SumPositive(s.pcs.Keys, (t: Thread) => One(PhaseOf(PcOf(s.pcs, t)) == p));
    forall t | t in s.pcs
      ensures PhaseOf(PcOf(s.pcs, t)) != p
    {
      assert !Runnable(s, t);
    }
  }

  lemma NobodyWoken<T>(s: State<T>)
    requires NobodyRuns(s) && SemsOk(s)
    ensures s.empty.woken == {} && s.fill.woken == {}
  {
    forall t | t in Waiters(s.empty)
      ensures t in s.empty.asleep
    {
      assert t !in Waiters(s.fill);
      assert !Runnable(s, t);
    }
    forall t | t in Waiters(s.fill)
      ensures t in s.fill.asleep
    {
      assert t !in Waiters(s.empty);
      assert !Runnable(s, t);
    }
  }

  /** When nobody runs, producers sleep only at a full buffer and consumers only at an empty one. */
  lemma SleepersHaveReason<T>(bufferSize: nat, steps: seq<Step<T>>, s: State<T>)
    requires Reaches(Init(bufferSize), steps, s) && NobodyRuns(s)
    ensures s.empty.asleep != {} ==> |s.data| == Capacity(bufferSize)
    ensures s.fill.asleep != {} ==> s.data == []
  {
    InitInv<T>(bufferSize);
    RunKeepsInv(Init(bufferSize), steps, s, Capacity(bufferSize));
    NobodyWoken(s);
    NobodyAt(s, PAdmitted);
    NobodyAt(s, PSignal);
    NobodyAt(s, GAdmitted);
    NobodyAt(s, GSignal);
  }

  ghost predicate CanDeadlock<T(!new)>(bufferSize: nat) {
    exists steps: seq<Step<T>>, s: State<T> :: Reaches(Init(bufferSize), steps, s) && Deadlocked(s)
  }

  /** A deadlock can be reached exactly when the capacity, after the cut to 32 bits, is zero. */
  lemma DeadlockIffNoCapacity<T(!new)>(bufferSize: nat, item: T)
    ensures CanDeadlock<T>(bufferSize) <==> Capacity(bufferSize) == 0
  {
    if Capacity(bufferSize) == 0 {
      var steps, s := ReachDeadlock(bufferSize, item);
    } else if CanDeadlock<T>(bufferSize) {
      var steps: seq<Step<T>>, s: State<T> :| Reaches(Init(bufferSize), steps, s) && Deadlocked(s);
      SleepersHaveReason(bufferSize, steps, s);
    }
  }

  lemma ReachesFirst<T>(s: State<T>, step: Step<T>, steps: seq<Step<T>>, s': State<T>)
    requires Enabled(s, step) && Reaches(Apply(s, step), steps, s')
    ensures Reaches(s, [step] + steps, s')
  {
    var all := [step] + steps;
    assert all[0] == step && all[1..] == steps;
  }

  lemma ReachDeadlock<T>(bufferSize: nat, item: T) returns (steps: seq<Step<T>>, s: State<T>)
    requires Capacity(bufferSize) == 0
    ensures Reaches(Init(bufferSize), steps, s) && Deadlocked(s)
  {
    var s0 := Init<T>(bufferSize);
    var s1 := Apply(s0, CallPut(0, item));
    var s2 := Apply(s1, AcquireEmpty(0));
    var s3 := Apply(s2, CallGet(1));
    s := Apply(s3, AcquireFill(1));
    var last := [AcquireFill(1)] + [];
    ReachesFirst(s3, AcquireFill(1), [], s);
    ReachesFirst(s2, CallGet(1), last, s);
    ReachesFirst(s1, AcquireEmpty(0), [CallGet(1)] + last, s);
    ReachesFirst(s0, CallPut(0, item), [AcquireEmpty(0)] + ([CallGet(1)] + last), s);
    steps := [CallPut(0, item)] + ([AcquireEmpty(0)] + ([CallGet(1)] + last));
  }

  // ---------- The class ----------

  /** The queue object. Each method is one critical section of a thread in `put` or `get`. */
  class ProducerConsumerQueue<T(!new)> {
    const capacity: nat
    const emptyCount: Semaphore
    const fillCount: Semaphore
    var data: seq<T>
    var pcs: map<Thread, Pc<T>>
    ghost var pushed: seq<T>
    ghost var popped: seq<T>

    ghost function View(): State<T>
      reads this, emptyCount, fillCount
    {
      State(emptyCount.Value(), fillCount.Value(), data, pcs, pushed, popped)
    }

    ghost predicate Valid()
      reads this, emptyCount, fillCount
    {
      emptyCount != fillCount && Inv(View(), capacity)
    }

    constructor (bufferSize: nat)
      ensures Valid() && capacity == Capacity(bufferSize)
      ensures View() == Init(bufferSize)
      ensures fresh(emptyCount) && fresh(fillCount)
    {
      capacity := Capacity(bufferSize);
      emptyCount := new Semaphore(bufferSize);
      fillCount := new Semaphore(0);
      data, pcs, pushed, popped := [], map[], [], [];
      new;
      InitInv<T>(bufferSize);
    }

    /** A thread calls `put`. */
    method CallPutStep(t: Thread, item: T)
      requires Valid() && Enabled(View(), CallPut(t, item))
      modifies this`pcs
      ensures Valid() && View() == Apply(old(View()), CallPut(t, item))
    {
      StepKeepsInv(View(), CallPut(t, item), capacity);
      pcs := pcs[t := PutWait(item)];
    }

    /** A thread calls `get`. */
    method CallGetStep(t: Thread)
      requires Valid() && Enabled(View(), CallGet(t))
      modifies this`pcs
      ensures Valid() && View() == Apply(old(View()), CallGet(t))
    {
      StepKeepsInv(View(), CallGet(t), capacity);
      pcs := pcs[t := GetWait];
    }

    /** `put`, first part: one look at the empty count. */
    method AcquireEmptyStep(t: Thread)
      requires Valid() && Enabled(View(), AcquireEmpty(t))
      modifies this`pcs, emptyCount
      ensures Valid() && View() == Apply(old(View()), AcquireEmpty(t))
    {
      StepKeepsInv(View(), AcquireEmpty(t), capacity);
      var passed := emptyCount.LookOnce(t);
      if passed {
        pcs := pcs[t := PutAdmitted(pcs[t].item)];
      } else {
        pcs := pcs[t := pcs[t]];
      }
    }

    /** `put`, second part: the item goes to the back. */
    method PushStep(t: Thread)
      requires Valid() && Enabled(View(), Push(t))
      modifies this
      ensures Valid() && View() == Apply(old(View()), Push(t))
    {
      StepKeepsInv(View(), Push(t), capacity);
      data := data + [pcs[t].item];
      pushed := pushed + [pcs[t].item];
      pcs := pcs[t := PutSignal];
    }

    /** `put`, third part: the fill count is signalled. */
    method SignalFillStep(t: Thread)
      requires Valid() && PcOf(pcs, t).PutSignal?
      modifies this`pcs, fillCount
      ensures Valid()
      ensures exists wake :: Enabled(old(View()), SignalFill(t, wake)) && View() == Apply(old(View()), SignalFill(t, wake))
    {
      ghost var before := View();
      fillCount.SignalOne();
      pcs := pcs[t := Idle];
      ghost var wake :| MayWake(before.fill, wake) && fillCount.Value() == Signal(before.fill, wake);
      assert View() == Apply(before, SignalFill(t, wake));
      StepKeepsInv(before, SignalFill(t, wake), capacity);
    }

    /** `get`, first part: one look at the fill count. */
    method AcquireFillStep(t: Thread)
      requires Valid() && Enabled(View(), AcquireFill(t))
      modifies this`pcs, fillCount
      ensures Valid() && View() == Apply(old(View()), AcquireFill(t))
    {
      StepKeepsInv(View(), AcquireFill(t), capacity);
      var passed := fillCount.LookOnce(t);
      if passed {
        pcs := pcs[t := GetAdmitted];
      } else {
        pcs := pcs[t := GetWait];
      }
    }

    /** `get`, second part: the item at the front leaves; there always is one. */
    method PopStep(t: Thread) returns (item: Option<T>)
      requires Valid() && Enabled(View(), Pop(t))
      modifies this
      ensures Valid() && View() == Apply(old(View()), Pop(t))
      ensures item.Some? && old(data) != [] && item.value == old(data)[0]
    {
      StepKeepsInv(View(), Pop(t), capacity);
      AdmittedFindsItem(View(), capacity, t);
      item := None;
      if data != [] {
        item := Some(data[0]);
        popped := popped + [data[0]];
        data := data[1..];
      }
      pcs := pcs[t := GetSignal(item)];
    }

    /** `get`, third part: the empty count is signalled. */
    method SignalEmptyStep(t: Thread)
      requires Valid() && PcOf(pcs, t).GetSignal?
      modifies this`pcs, emptyCount
      ensures Valid()
      ensures exists wake :: Enabled(old(View()), SignalEmpty(t, wake)) && View() == Apply(old(View()), SignalEmpty(t, wake))
    {
      ghost var before := View();
      emptyCount.SignalOne();
      pcs := pcs[t := Idle];
      ghost var wake :| MayWake(before.empty, wake) && emptyCount.Value() == Signal(before.empty, wake);
      assert View() == Apply(before, SignalEmpty(t, wake));
      StepKeepsInv(before, SignalEmpty(t, wake), capacity);
    }
  }
}

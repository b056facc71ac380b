/** The counting semaphore: a count under a mutex, and a condition variable.

    A critical section is one atomic step. A waiting thread that finds the count at zero sleeps; when it
    is woken it takes the mutex again and looks once more, so other threads may come first, and it may
    be woken for no reason.
 */
module Semaphores {
  import opened Machine

  type Thread = nat

  /** The count, the threads asleep on the condition variable, and those woken that have not looked again. */
  datatype Sem = Sem(count: nat, asleep: set<Thread>, woken: set<Thread>)

  /** A thread, new or woken, looks at the count: it passes or goes to sleep. */
  function Look(s: Sem, t: Thread): Sem {
    if s.count == 0 then Sem(0, s.asleep + {t}, s.woken - {t})
    else Sem(s.count - 1, s.asleep, s.woken - {t})
  }

  /** `unsigned int` wraps around. */
  function Incremented(count: nat): nat {
    (count + 1) % UINT
  }

  /** `notify_one` wakes some sleeping thread if there is one. */
  predicate MayWake(s: Sem, wake: set<Thread>) {
    if s.asleep == {} then wake == {} else exists t :: t in s.asleep && wake == {t}
  }

  function Signal(s: Sem, wake: set<Thread>): Sem {
    Sem(Incremented(s.count), s.asleep - wake, s.woken + wake)
  }

  /** A thread wakes up without a signal. */
  function Spurious(s: Sem, t: Thread): Sem {
    Sem(s.count, s.asleep - {t}, s.woken + {t})
  }

  /** The threads that have looked and not passed. */
  function Waiters(s: Sem): set<Thread> {
    s.asleep + s.woken
  }

  /** While a thread sleeps, every unit of the count has a woken thread on its way to it. */
  predicate NoLostWakeup(s: Sem) {
    && s.asleep !! s.woken
    && (s.asleep != {} ==> s.count <= |s.woken|)
  }

  lemma LookKeeps(s: Sem, t: Thread)
    requires NoLostWakeup(s) && t !in s.asleep
    ensures NoLostWakeup(Look(s, t))
  {
    if t in s.woken {
      assert s.woken == (s.woken - {t}) + {t};
    } else {
      assert s.woken - {t} == s.woken;
    }
  }

  lemma LookWaiters(s: Sem, t: Thread)
    requires t !in s.asleep
    ensures Waiters(Look(s, t)) == if s.count == 0 then Waiters(s) + {t} else Waiters(s) - {t}
  {
  }

  lemma SignalKeeps(s: Sem, wake: set<Thread>)
    requires NoLostWakeup(s) && MayWake(s, wake)
    ensures NoLostWakeup(Signal(s, wake))
    ensures Waiters(Signal(s, wake)) == Waiters(s)
  {
    if s.asleep != {} {
      var t :| t in s.asleep && wake == {t};
      assert t !in s.woken;
      assert |s.woken + {t}| == |s.woken| + 1;
    }
  }

  lemma SpuriousKeeps(s: Sem, t: Thread)
    requires NoLostWakeup(s) && t in s.asleep
    ensures NoLostWakeup(Spurious(s, t))
    ensures Waiters(Spurious(s, t)) == Waiters(s)
  {
    assert |s.woken + {t}| == |s.woken| + 1;
  }

  datatype Action = Looks(t: Thread) | Signals(wake: set<Thread>) | WakesUp(t: Thread)

  predicate CanDo(s: Sem, a: Action) {
    match a
    case Looks(t) => t !in s.asleep
    case Signals(wake) => MayWake(s, wake)
    case WakesUp(t) => t in s.asleep
  }

  function Do(s: Sem, a: Action): Sem {
    match a
    case Looks(t) => Look(s, t)
    case Signals(wake) => Signal(s, wake)
    case WakesUp(t) => Spurious(s, t)
  }

  predicate Run(s: Sem, actions: seq<Action>, s': Sem)
    decreases |actions|
  {
    if actions == [] then s' == s
    else CanDo(s, actions[0]) && Run(Do(s, actions[0]), actions[1..], s')
  }

  /** No wakeup is lost in any run, whatever threads barge in and whatever wakeups are spurious. */
  lemma {:induction false} NeverLost(s: Sem, actions: seq<Action>, s': Sem)
    requires NoLostWakeup(s) && Run(s, actions, s')
    ensures NoLostWakeup(s')
    decreases |actions|
  {
    if actions != [] {
      match actions[0] {
        case Looks(t) => LookKeeps(s, t);
        case Signals(wake) => SignalKeeps(s, wake);
        case WakesUp(t) => SpuriousKeeps(s, t);
      }
      NeverLost(Do(s, actions[0]), actions[1..], s');
    }
  }

  /** The class: each method is one critical section. */
  class Semaphore {
    var count: nat
    var asleep: set<Thread>
    var woken: set<Thread>

    function Value(): Sem
      reads this
    {
      Sem(count, asleep, woken)
    }

    constructor (initialCount: nat)
      ensures Value() == Sem(initialCount % UINT, {}, {}) && NoLostWakeup(Value())
    {
      count := initialCount % UINT;
      asleep := {};
      woken := {};
    }

    method SignalOne()
      requires NoLostWakeup(Value())
      modifies this
      ensures exists wake :: MayWake(old(Value()), wake) && Value() == Signal(old(Value()), wake)
      ensures count == (old(count) + 1) % 0x1_0000_0000
      ensures if old(asleep) == {} then asleep == {} && woken == old(woken)
              else exists t :: t in old(asleep) && asleep == old(asleep) - {t} && woken == old(woken) + {t}
      ensures NoLostWakeup(Value())
    {
      ghost var before := Value();
      ghost var wake := {};
      count := (count + 1) % UINT;
      if asleep != {} {
        var t :| t in asleep;
        wake := {t};
        asleep := asleep - {t};
        woken := woken + {t};
      }
      assert Value() == Signal(before, wake);
      SignalKeeps(before, wake);
    }

    /** One look of `wait` at the count; the caller goes on if it passed and sleeps otherwise. */
    method LookOnce(t: Thread) returns (passed: bool)
      requires NoLostWakeup(Value()) && t !in asleep
      modifies this
      ensures Value() == Look(old(Value()), t) && passed == (old(count) > 0)
      ensures count == (if passed then old(count) - 1 else 0) && (t in asleep <==> !passed) && t !in woken
      ensures NoLostWakeup(Value())
    {
      LookKeeps(Value(), t);
      woken := woken - {t};
      passed := count != 0;
      if count == 0 {
        asleep := asleep + {t};
      } else {
        count := count - 1;
      }
    }
  }
}

/** The mutex that renames a file, and the queue kept in the directory beside it, under any interleaving
    of any number of processes.

    Testing for a file, renaming it, reading, writing and removing one are atomic steps. A listing of the
    directory is taken without the lock and may be out of date when it is used.
 */
module DirectoryQueue {
  import opened QueueFiles
  import opened Sums

  type Process = nat

  datatype Operation = PushTo(name: string, entries: seq<Entry>) | PopFrom(name: string) | PeekAt(name: string)

  /** Where a process is: `lock` tests for the locked file and renames, the operation reads or writes its
      file, a pop then removes it, and `unlock` tests for the unlocked file and renames back. */
  datatype Pc =
    | Idle
    | TestLocked(op: Operation)
    | TakeLock(op: Operation)
    | UseFile(op: Operation)
    | RemoveFile(name: string)
    | TestUnlocked
    | GiveLock

  /** The two token files, the directory, and, as history, all entries ever pushed and popped. */
  datatype State = State(unlocked: bool, locked: bool, dir: map<string, string>, pcs: map<Process, Pc>,
                         pushed: multiset<Entry>, popped: multiset<Entry>)

  datatype Step =
    | Start(p: Process, op: Operation)
    | TestsLocked(p: Process)
    | RenamesToLocked(p: Process)
    | UsesFile(p: Process)
    | RemovesFile(p: Process)
    | TestsUnlocked(p: Process)
    | RenamesToUnlocked(p: Process)

  function PcOf(s: State, p: Process): Pc {
    if p in s.pcs then s.pcs[p] else Idle
  }

  function Init(): State {
    State(true, false, map[], map[], multiset{}, multiset{})
  }

  /** The process is going to write a file. */
  predicate Pushing(pc: Pc) {
    (pc.TestLocked? || pc.TakeLock? || pc.UseFile?) && pc.op.PushTo?
  }

  /** A push uses a name that no file and no other push has. */
  predicate FreshName(s: State, name: string) {
    name !in s.dir && forall q :: q in s.pcs && Pushing(s.pcs[q]) ==> s.pcs[q].op.name != name
  }

  /** Entries that a file can hold: keys of one word, and values without white space. */
  predicate Printable(entries: seq<Entry>) {
    AllLineValues(entries) && WordKeys(entries)
  }

  /** What a process can do; a push may take the name of a file that is there. */
  predicate Possible(s: State, step: Step) {
    match step
    case Start(p, op) =>
      PcOf(s, p).Idle?
      && (match op
          case PushTo(_, entries) => Printable(entries)
          case PopFrom(name) => name in s.dir
          case PeekAt(name) => name in s.dir)
    case TestsLocked(p) => PcOf(s, p).TestLocked?
    case RenamesToLocked(p) => PcOf(s, p).TakeLock?
    case UsesFile(p) => PcOf(s, p).UseFile?
    case RemovesFile(p) => PcOf(s, p).RemoveFile?
    case TestsUnlocked(p) => PcOf(s, p).TestUnlocked?
    case RenamesToUnlocked(p) => PcOf(s, p).GiveLock?
  }

  /** What processes do that give each file a name of its own. */
  predicate Enabled(s: State, step: Step) {
    Possible(s, step) && (step.Start? && step.op.PushTo? ==> FreshName(s, step.op.name))
  }

  /** `lock` has returned 1: a push tries again with its file, the others list the directory anew. */
  function Retry(op: Operation): Pc {
    if op.PushTo? then TestLocked(op) else Idle
  }

  function Apply(s: State, step: Step): State
    requires Possible(s, step)
  {
    match step
    case Start(p, op) => s.(pcs := s.pcs[p := TestLocked(op)])
    case TestsLocked(p) =>
      s.(pcs := s.pcs[p := if s.locked then Retry(s.pcs[p].op) else TakeLock(s.pcs[p].op)])
    case RenamesToLocked(p) =>
      if s.unlocked then s.(unlocked := false, locked := true, pcs := s.pcs[p := UseFile(s.pcs[p].op)])
      else s.(pcs := s.pcs[p := Retry(s.pcs[p].op)])
    case UsesFile(p) => UseFileStep(s, p)
    case RemovesFile(p) => s.(dir := s.dir - {s.pcs[p].name}, pcs := s.pcs[p := TestUnlocked])
    case TestsUnlocked(p) =>
      s.(pcs := s.pcs[p := if s.unlocked then TestUnlocked else GiveLock])
    case RenamesToUnlocked(p) =>
      if s.locked then s.(unlocked := true, locked := false, pcs := s.pcs[p := Idle])
      else s.(pcs := s.pcs[p := TestUnlocked])
  }

  /** What a file holds, if it is there. */
  function Content(s: State, name: string): seq<Entry> {
    if name in s.dir then Parsed(s.dir[name]) else []
  }

  /** The file operation under the lock. A file that is gone is reported and yields nothing. */
  function UseFileStep(s: State, p: Process): State
    requires PcOf(s, p).UseFile?
  {
    match s.pcs[p].op
    case PushTo(name, entries) =>
      s.(dir := s.dir[name := Printed(entries)], pushed := s.pushed + multiset(entries), pcs := s.pcs[p := TestUnlocked])
    case PopFrom(name) =>
      s.(popped := s.popped + multiset(Content(s, name)), pcs := s.pcs[p := RemoveFile(name)])
    case PeekAt(_) => s.(pcs := s.pcs[p := TestUnlocked])
  }

  predicate Reaches(s: State, steps: seq<Step>, s': State)
    decreases |steps|
  {
    if steps == [] then s' == s
    else Enabled(s, steps[0]) && Reaches(Apply(s, steps[0]), steps[1..], s')
  }

  /** Files may be written over. */
  predicate ReachesAny(s: State, steps: seq<Step>, s': State)
    decreases |steps|
  {
    if steps == [] then s' == s
    else Possible(s, steps[0]) && ReachesAny(Apply(s, steps[0]), steps[1..], s')
  }

  // ---------- The lock ----------

  predicate HasLock(pc: Pc) {
    pc.UseFile? || pc.RemoveFile? || pc.TestUnlocked? || pc.GiveLock?
  }

  predicate Holds(s: State, p: Process) {
    p in s.pcs && HasLock(s.pcs[p])
  }

  ghost predicate LockOk(s: State) {
    && s.unlocked != s.locked
    && (forall p, q :: Holds(s, p) && Holds(s, q) ==> p == q)
    && (s.locked <==> exists p :: Holds(s, p))
  }

  ghost predicate OthersHold(s: State, s': State, p: Process) {
    forall q :: q != p ==> (Holds(s', q) <==> Holds(s, q))
  }

  lemma LockIsTaken(s: State, s': State, p: Process)
    requires LockOk(s) && OthersHold(s, s', p) && s.unlocked && !s'.unlocked && s'.locked && Holds(s', p)
    ensures LockOk(s')
  {
  }

  lemma LockIsGiven(s: State, s': State, p: Process)
    requires LockOk(s) && OthersHold(s, s', p) && Holds(s, p) && s'.unlocked && !s'.locked && !Holds(s', p)
    ensures LockOk(s')
  {
  }

  lemma LockIsLeft(s: State, s': State, p: Process)
    requires LockOk(s) && OthersHold(s, s', p) && s'.unlocked == s.unlocked && s'.locked == s.locked
    requires Holds(s', p) <==> Holds(s, p)
    ensures LockOk(s')
  {
    assert forall q :: Holds(s', q) <==> Holds(s, q);
  }

  lemma StepIsOfOne(s: State, step: Step)
    requires Possible(s, step)
    ensures OthersHold(s, Apply(s, step), step.p)
  {
    match step
    case UsesFile(p) =>
      match s.pcs[p].op {
        case PopFrom(name) => OthersStay(s, Apply(s, step), p, RemoveFile(name));
        case _ => OthersStay(s, Apply(s, step), p, TestUnlocked);
      }
    case _ =>
      OthersStay(s, Apply(s, step), step.p, Apply(s, step).pcs[step.p]);
  }

  lemma OthersStay(s: State, s': State, p: Process, pc: Pc)
    requires s'.pcs == s.pcs[p := pc]
    ensures OthersHold(s, s', p)
  {
  }

  lemma StepKeepsLock(s: State, step: Step)
    requires LockOk(s) && Possible(s, step)
    ensures LockOk(Apply(s, step))
  {
    var p, s' := step.p, Apply(s, step);
    StepIsOfOne(s, step);
    if step.RenamesToLocked? && s.unlocked {
      LockIsTaken(s, s', p);
    } else if step.RenamesToUnlocked? {
      assert Holds(s, p);
      LockIsGiven(s, s', p);
    } else {
      LockIsLeft(s, s', p);
    }
  }

  // ---------- The files ----------

  /** A file that has been read by a pop and is about to be removed. */
  ghost predicate Claimed(s: State, name: string) {
    exists p :: p in s.pcs && s.pcs[p] == RemoveFile(name)
  }

  /** How often an entry is in the files that nobody is removing. */
  ghost function InFiles(s: State, e: Entry): nat {
    Sum(s.dir.Keys, (name: string) => FileCount(s, name, e))
  }

  ghost function FileCount(s: State, name: string, e: Entry): nat {
    if Claimed(s, name) then 0 else multiset(Content(s, name))[e]
  }

  /** Every entry pushed is in a file or has been popped, as often as it was pushed. */
  ghost predicate Conserved(s: State) {
    forall e :: s.pushed[e] == InFiles(s, e) + s.popped[e]
  }

  /** Pushes under way have valid entries and names of their own, which no file has. */
  ghost predicate PushesOk(s: State) {
    && (forall p :: p in s.pcs && Pushing(s.pcs[p]) ==> s.pcs[p].op.name !in s.dir && Printable(s.pcs[p].op.entries))
    && (forall p, q :: p in s.pcs && q in s.pcs && Pushing(s.pcs[p]) && Pushing(s.pcs[q]) && s.pcs[p].op.name == s.pcs[q].op.name
                       ==> p == q)
  }

  /** A process that goes on with its push, or stops pushing. */
  ghost predicate PushUnchanged(s: State, s': State, p: Process) {
    && p in s'.pcs
    && (forall q :: q != p ==> (q in s'.pcs <==> q in s.pcs))
    && (forall q :: q in s'.pcs && q != p ==> s'.pcs[q] == s.pcs[q])
    && (Pushing(s'.pcs[p]) ==> p in s.pcs && Pushing(s.pcs[p]) && s'.pcs[p].op == s.pcs[p].op)
  }

  lemma QuietKeepsPushes(s: State, s': State, p: Process)
    requires PushesOk(s) && PushUnchanged(s, s', p)
    requires s'.dir.Keys <= s.dir.Keys
    ensures PushesOk(s')
  {
    forall q | q in s'.pcs && Pushing(s'.pcs[q])
      ensures q in s.pcs && Pushing(s.pcs[q]) && s'.pcs[q].op == s.pcs[q].op
      ensures s'.pcs[q].op.name !in s'.dir.Keys
    {
    }
  }

  lemma WriteKeepsPushes(s: State, s': State, p: Process)
    requires PushesOk(s) && PushUnchanged(s, s', p)
    requires p in s.pcs && Pushing(s.pcs[p]) && !Pushing(s'.pcs[p])
    requires s'.dir.Keys <= s.dir.Keys + {s.pcs[p].op.name}
    ensures PushesOk(s')
  {
    forall q | q in s'.pcs && Pushing(s'.pcs[q])
      ensures q in s.pcs && Pushing(s.pcs[q]) && s'.pcs[q].op == s.pcs[q].op && q != p
      ensures s'.pcs[q].op.name !in s'.dir.Keys
    {
    }
  }

  lemma StartKeepsPushes(s: State, p: Process, op: Operation)
    requires PushesOk(s) && Enabled(s, Start(p, op))
    ensures PushesOk(Apply(s, Start(p, op)))
  {
    var s' := Apply(s, Start(p, op));
    if op.PushTo? {
      forall q | q in s'.pcs && Pushing(s'.pcs[q]) && q != p
        ensures q in s.pcs && s'.pcs[q] == s.pcs[q] && s'.pcs[q].op.name != op.name
      {
      }
    } else {
      QuietKeepsPushes(s, s', p);
    }
  }

  lemma UseKeepsPushes(s: State, p: Process)
    requires PushesOk(s) && PcOf(s, p).UseFile?
    ensures PushesOk(UseFileStep(s, p))
  {
    var s' := UseFileStep(s, p);
    if s.pcs[p].op.PushTo? {
      assert Pushing(s.pcs[p]);
      WriteKeepsPushes(s, s', p);
    } else {
      QuietKeepsPushes(s, s', p);
    }
  }

  lemma LockStepLeavesPushes(s: State, step: Step)
    requires Enabled(s, step) && (step.TestsLocked? || step.RenamesToLocked?)
    ensures PushUnchanged(s, Apply(s, step), step.p) && Apply(s, step).dir == s.dir
  {
  }

  lemma ReleaseStepLeavesPushes(s: State, step: Step)
    requires Enabled(s, step) && (step.RemovesFile? || step.TestsUnlocked? || step.RenamesToUnlocked?)
    ensures PushUnchanged(s, Apply(s, step), step.p) && Apply(s, step).dir.Keys <= s.dir.Keys
  {
  }

  lemma StepKeepsPushes(s: State, step: Step)
    requires PushesOk(s) && Enabled(s, step)
    ensures PushesOk(Apply(s, step))
  {
    if step.Start? {
      StartKeepsPushes(s, step.p, step.op);
    } else if step.UsesFile? {
      UseKeepsPushes(s, step.p);
    } else {
      if step.TestsLocked? || step.RenamesToLocked? {
        LockStepLeavesPushes(s, step);
      } else {
        ReleaseStepLeavesPushes(s, step);
      }
      QuietKeepsPushes(s, Apply(s, step), step.p);
    }
  }

  /** If files and claims do not change, nor does the count. */
  lemma SameFiles(s: State, s': State, e: Entry)
    requires s'.dir == s.dir
    requires forall name :: name in s.dir ==> (Claimed(s', name) <==> Claimed(s, name))
    ensures InFiles(s', e) == InFiles(s, e)
  {
    SumSame(s.dir.Keys, (name: string) => FileCount(s, name, e), (name: string) => FileCount(s', name, e));
  }

  /** Steps that touch neither files nor claims. */
  lemma QuietStep(s: State, step: Step)
    requires Possible(s, step) && !step.UsesFile? && !step.RemovesFile?
    ensures Conserved(Apply(s, step)) <==> Conserved(s)
  {
    var s' := Apply(s, step);
    forall name
      ensures Claimed(s', name) <==> Claimed(s, name)
    {
      if q :| q in s.pcs && s.pcs[q] == RemoveFile(name) {
        assert s'.pcs[q] == RemoveFile(name);
      }
      if q :| q in s'.pcs && s'.pcs[q] == RemoveFile(name) {
        assert s.pcs[q] == RemoveFile(name);
      }
    }
    forall e
      ensures InFiles(s', e) == InFiles(s, e)
    {
      SameFiles(s, s', e);
    }
  }

  predicate SoleHolder(s: State, p: Process) {
    p in s.pcs && forall q :: q in s.pcs && HasLock(s.pcs[q]) ==> q == p
  }

  lemma HolderIsSole(s: State, p: Process)
    requires LockOk(s) && Holds(s, p)
    ensures SoleHolder(s, p)
  {
    forall q | q in s.pcs && HasLock(s.pcs[q])
      ensures q == p
    {
      assert Holds(s, q);
    }
  }

  /** Nobody but the holder of the lock has a claim. */
  lemma HolderClaims(s: State, p: Process, name: string)
    requires SoleHolder(s, p)
    ensures Claimed(s, name) <==> s.pcs[p] == RemoveFile(name)
  {
    if q :| q in s.pcs && s.pcs[q] == RemoveFile(name) {
      assert HasLock(s.pcs[q]);
    }
  }

  /** A step of the lock's holder changes the count by what happens to its one file. */
  lemma HolderChange(s: State, s': State, p: Process, name: string, e: Entry)
    requires SoleHolder(s, p) && SoleHolder(s', p)
    requires s.dir.Keys - {name} == s'.dir.Keys - {name}
    requires forall n :: n in s.dir.Keys - {name} ==> s'.dir[n] == s.dir[n]
    requires s.pcs[p].RemoveFile? ==> s.pcs[p].name == name
    requires s'.pcs[p].RemoveFile? ==> s'.pcs[p].name == name
    ensures InFiles(s', e) + FileCount(s, name, e) == InFiles(s, e) + FileCount(s', name, e)
  {
    forall n | n in s.dir && n != name
      ensures FileCount(s, n, e) == FileCount(s', n, e)
    {
      HolderClaims(s, p, n);
      HolderClaims(s', p, n);
      assert n in s'.dir.Keys - {name};
    }
    SumChange(s.dir.Keys, (n: string) => FileCount(s, n, e), s'.dir.Keys, (n: string) => FileCount(s', n, e), name);
  }

  lemma WriteChange(s: State, p: Process, e: Entry)
    requires PcOf(s, p).UseFile? && s.pcs[p].op.PushTo? && SoleHolder(s, p)
    requires Printable(s.pcs[p].op.entries)
    ensures InFiles(UseFileStep(s, p), e) + multiset(Content(s, s.pcs[p].op.name))[e]
            == InFiles(s, e) + multiset(s.pcs[p].op.entries)[e]
  {
    var name, entries := s.pcs[p].op.name, s.pcs[p].op.entries;
    var s' := UseFileStep(s, p);
    ReadBackEntries(entries);
    HolderChange(s, s', p, name, e);
    HolderClaims(s, p, name);
    HolderClaims(s', p, name);
  }

  lemma PushStep(s: State, p: Process)
    requires LockOk(s) && PushesOk(s) && Conserved(s)
    requires PcOf(s, p).UseFile? && s.pcs[p].op.PushTo?
    ensures Conserved(UseFileStep(s, p))
  {
    assert Pushing(s.pcs[p]) && Holds(s, p);
    HolderIsSole(s, p);
    forall e
      ensures UseFileStep(s, p).pushed[e] == InFiles(UseFileStep(s, p), e) + s.popped[e]
    {
      WriteChange(s, p, e);
    }
  }

  lemma PopStep(s: State, p: Process)
    requires LockOk(s) && Conserved(s)
    requires PcOf(s, p).UseFile? && s.pcs[p].op.PopFrom?
    ensures Conserved(UseFileStep(s, p))
  {
    var name := s.pcs[p].op.name;
    var s' := UseFileStep(s, p);
    assert Holds(s, p);
    HolderIsSole(s, p);
    HolderClaims(s, p, name);
    HolderClaims(s', p, name);
    forall e
      ensures s'.pushed[e] == InFiles(s', e) + s'.popped[e]
    {
      HolderChange(s, s', p, name, e);
    }
  }

  lemma PeekStep(s: State, p: Process)
    requires LockOk(s) && Conserved(s)
    requires PcOf(s, p).UseFile? && s.pcs[p].op.PeekAt?
    ensures Conserved(UseFileStep(s, p))
  {
    var name := s.pcs[p].op.name;
    var s' := UseFileStep(s, p);
    assert Holds(s, p);
    HolderIsSole(s, p);
    HolderClaims(s, p, name);
    HolderClaims(s', p, name);
    forall e
      ensures s'.pushed[e] == InFiles(s', e) + s'.popped[e]
    {
      HolderChange(s, s', p, name, e);
    }
  }

  lemma RemoveStep(s: State, p: Process)
    requires LockOk(s) && Conserved(s) && Enabled(s, RemovesFile(p))
    ensures Conserved(Apply(s, RemovesFile(p)))
  {
    var name := s.pcs[p].name;
    var s' := Apply(s, RemovesFile(p));
    assert Holds(s, p);
    HolderIsSole(s, p);
    HolderClaims(s, p, name);
    forall e
      ensures s'.pushed[e] == InFiles(s', e) + s'.popped[e]
    {
      HolderChange(s, s', p, name, e);
    }
  }

  ghost predicate Inv(s: State) {
    LockOk(s) && PushesOk(s) && Conserved(s)
  }

  lemma StepKeepsInv(s: State, step: Step)
    requires Inv(s) && Enabled(s, step)
    ensures Inv(Apply(s, step))
  {
    StepKeepsLock(s, step);
    StepKeepsPushes(s, step);
    match step
    case UsesFile(p) =>
      match s.pcs[p].op {
        case PushTo(_, _) => PushStep(s, p);
        case PopFrom(_) => PopStep(s, p);
        case PeekAt(_) => PeekStep(s, p);
      }
    case RemovesFile(p) => RemoveStep(s, p);
    case _ => QuietStep(s, step);
  }

  lemma {:induction false} RunKeepsInv(s: State, steps: seq<Step>, s': State)
    requires Inv(s) && Reaches(s, steps, s')
    ensures Inv(s')
    decreases |steps|
  {
    if steps != [] {
      StepKeepsInv(s, steps[0]);
      RunKeepsInv(Apply(s, steps[0]), steps[1..], s');
    }
  }

  // ---------- What every run guarantees ----------

  /** Exactly one of the token files exists, at most one process holds the lock, even if several have
      passed the test, and it is held exactly while the locked file exists. */
  lemma MutualExclusion(steps: seq<Step>, s: State, p: Process, q: Process)
    requires Reaches(Init(), steps, s)
    ensures s.unlocked != s.locked
    ensures Holds(s, p) && Holds(s, q) ==> p == q
    ensures s.locked <==> exists r :: Holds(s, r)
  {
    RunKeepsInv(Init(), steps, s);
  }

  /** A holder's unlock succeeds at once: its test never finds the unlocked file, and its rename always
      finds the locked one. */
  lemma UnlockSucceeds(steps: seq<Step>, s: State, p: Process)
    requires Reaches(Init(), steps, s)
    ensures PcOf(s, p).TestUnlocked? ==> PcOf(Apply(s, TestsUnlocked(p)), p).GiveLock?
    ensures PcOf(s, p).GiveLock? ==>
              var s' := Apply(s, RenamesToUnlocked(p));
              PcOf(s', p).Idle? && s'.unlocked && !s'.locked
  {
    RunKeepsInv(Init(), steps, s);
    if PcOf(s, p).TestUnlocked? || PcOf(s, p).GiveLock? {
      assert Holds(s, p);
    }
  }

  /** No entry is lost and none is popped twice, whatever listings were stale: as often as it was pushed, an
      entry has been popped or is in a file that no pop has read. */
  lemma EntriesConserved(steps: seq<Step>, s: State, e: Entry)
    requires Reaches(Init(), steps, s)
    ensures s.pushed[e] == s.popped[e] + InFiles(s, e)
  {
    RunKeepsInv(Init(), steps, s);
  }

  /** The fresh name is needed: writing over a file keeps every entry exactly when that file was empty. */
  lemma OverwriteIff(s: State, p: Process)
    requires LockOk(s) && Conserved(s)
    requires PcOf(s, p).UseFile? && s.pcs[p].op.PushTo?
    requires Printable(s.pcs[p].op.entries)
    ensures Conserved(UseFileStep(s, p)) <==> Content(s, s.pcs[p].op.name) == []
  {
    var s', was := UseFileStep(s, p), Content(s, s.pcs[p].op.name);
    assert Holds(s, p);
    HolderIsSole(s, p);
    forall e
      ensures InFiles(s', e) + multiset(was)[e] == InFiles(s, e) + multiset(s.pcs[p].op.entries)[e]
    {
      WriteChange(s, p, e);
    }
    if was != [] {
      assert was[0] in multiset(was);
      assert s'.pushed[was[0]] != InFiles(s', was[0]) + s'.popped[was[0]];
    } else {
      assert multiset(was) == multiset{};
    }
  }

  lemma ReachesAnyFirst(s: State, step: Step, steps: seq<Step>, s': State)
    requires Possible(s, step) && ReachesAny(Apply(s, step), steps, s')
    ensures ReachesAny(s, [step] + steps, s')
  {
    assert ([step] + steps)[1..] == steps;
  }

  lemma {:induction false} RunsJoin(s: State, steps1: seq<Step>, s1: State, steps2: seq<Step>, s2: State)
    requires ReachesAny(s, steps1, s1) && ReachesAny(s1, steps2, s2)
    ensures ReachesAny(s, steps1 + steps2, s2)
    decreases |steps1|
  {
    if steps1 == [] {
      assert steps1 + steps2 == steps2;
    } else {
      assert (steps1 + steps2)[1..] == steps1[1..] + steps2;
      RunsJoin(Apply(s, steps1[0]), steps1[1..], s1, steps2, s2);
    }
  }

  function LockSteps(p: Process, op: Operation): seq<Step> {
    [Start(p, op)] + ([TestsLocked(p)] + ([RenamesToLocked(p)] + []))
  }

  function UnlockSteps(p: Process): seq<Step> {
    [TestsUnlocked(p)] + ([RenamesToUnlocked(p)] + [])
  }

  predicate Quiet(step: Step) {
    !step.UsesFile? && !step.RemovesFile?
  }

  lemma ThreeSteps(s: State, a: Step, b: Step, c: Step, s': State)
    requires LockOk(s) && Quiet(a) && Quiet(b) && Quiet(c)
    requires Possible(s, a) && Possible(Apply(s, a), b) && Possible(Apply(Apply(s, a), b), c)
    requires s' == Apply(Apply(Apply(s, a), b), c)
    ensures ReachesAny(s, [a] + ([b] + ([c] + [])), s')
    ensures LockOk(s') && (Conserved(s') <==> Conserved(s))
  {
    var s1 := Apply(s, a);
    StepIsQuiet(s, a);
    StepIsQuiet(s1, b);
    StepIsQuiet(Apply(s1, b), c);
    ReachesAnyFirst(Apply(s1, b), c, [], s');
    ReachesAnyFirst(s1, b, [c] + [], s');
    ReachesAnyFirst(s, a, [b] + ([c] + []), s');
  }

  /** A process gets the lock that is free. */
  lemma Locks(s: State, p: Process, op: Operation) returns (s': State)
    requires LockOk(s) && s.unlocked && Possible(s, Start(p, op))
    ensures ReachesAny(s, LockSteps(p, op), s')
    ensures LockOk(s') && (Conserved(s') <==> Conserved(s))
    ensures s' == s.(unlocked := false, locked := true, pcs := s.pcs[p := UseFile(op)])
  {
    var s1 := Apply(s, Start(p, op));
    var s2 := Apply(s1, TestsLocked(p));
    s' := Apply(s2, RenamesToLocked(p));
    ThreeSteps(s, Start(p, op), TestsLocked(p), RenamesToLocked(p), s');
    assert s'.pcs == s.pcs[p := UseFile(op)];
  }

  lemma StepIsQuiet(s: State, step: Step)
    requires LockOk(s) && Possible(s, step) && Quiet(step)
    ensures LockOk(Apply(s, step)) && (Conserved(Apply(s, step)) <==> Conserved(s))
  {
    StepKeepsLock(s, step);
    QuietStep(s, step);
  }

  lemma Unlocks(s: State, p: Process) returns (s': State)
    requires LockOk(s) && s.locked && PcOf(s, p).TestUnlocked?
    ensures ReachesAny(s, UnlockSteps(p), s')
    ensures LockOk(s') && (Conserved(s') <==> Conserved(s))
    ensures s' == s.(unlocked := true, locked := false, pcs := s.pcs[p := Idle])
  {
    var s1 := Apply(s, TestsUnlocked(p));
    s' := Apply(s1, RenamesToUnlocked(p));
    StepIsQuiet(s, TestsUnlocked(p));
    StepIsQuiet(s1, RenamesToUnlocked(p));
    ReachesAnyFirst(s1, RenamesToUnlocked(p), [], s');
    ReachesAnyFirst(s, TestsUnlocked(p), [RenamesToUnlocked(p)] + [], s');
    assert s'.pcs == s.pcs[p := Idle];
  }

  /** The holder writes its file and gives the lock back. */
  lemma WritesAndUnlocks(s: State, p: Process) returns (s': State)
    requires LockOk(s) && Conserved(s) && s.locked && PcOf(s, p).UseFile? && s.pcs[p].op.PushTo?
    requires Printable(s.pcs[p].op.entries)
    ensures ReachesAny(s, [UsesFile(p)] + UnlockSteps(p), s')
    ensures LockOk(s') && (Conserved(s') <==> Content(s, s.pcs[p].op.name) == [])
    ensures s'.unlocked && s'.dir == s.dir[s.pcs[p].op.name := Printed(s.pcs[p].op.entries)] && s'.pcs == s.pcs[p := Idle]
  {
    var s1 := Apply(s, UsesFile(p));
    OverwriteIff(s, p);
    StepKeepsLock(s, UsesFile(p));
    s' := Unlocks(s1, p);
    ReachesAnyFirst(s, UsesFile(p), UnlockSteps(p), s');
    assert s'.pcs == s.pcs[p := Idle];
  }

  /** A process that pushes while nobody else does anything. */
  function PushSteps(p: Process, op: Operation): seq<Step> {
    LockSteps(p, op) + ([UsesFile(p)] + UnlockSteps(p))
  }

  /** Wherever the lock is free, a push under the name of a file loses what the file holds. */
  lemma PushOver(s: State, p: Process, name: string, entries: seq<Entry>) returns (s': State)
    requires LockOk(s) && Conserved(s) && s.unlocked && PcOf(s, p).Idle? && Printable(entries)
    ensures ReachesAny(s, PushSteps(p, PushTo(name, entries)), s')
    ensures LockOk(s') && s'.unlocked && s'.dir == s.dir[name := Printed(entries)] && s'.pcs == s.pcs[p := Idle]
    ensures Conserved(s') <==> Content(s, name) == []
  {
    var op := PushTo(name, entries);
    var s1 := Locks(s, p, op);
    s' := WritesAndUnlocks(s1, p);
    RunsJoin(s, LockSteps(p, op), s1, [UsesFile(p)] + UnlockSteps(p), s');
    assert s'.pcs == s.pcs[p := Idle];
  }

  /** Two processes, or one that was started anew, push under the same name: the entries of the first push are
      lost, if it had any. */
  lemma ReusedNameLoses(p: Process, q: Process, name: string, first: seq<Entry>, second: seq<Entry>) returns (s: State)
    requires Printable(first) && Printable(second)
    ensures ReachesAny(Init(), PushSteps(p, PushTo(name, first)) + PushSteps(q, PushTo(name, second)), s)
    ensures Conserved(s) <==> first == []
  {
    var s1 := PushOver(Init(), p, name, first);
    ReadBackEntries(first);
    s := PushOver(s1, q, name, second);
    RunsJoin(Init(), PushSteps(p, PushTo(name, first)), s1, PushSteps(q, PushTo(name, second)), s);
  }

  // ---------- Trying again ----------

  /** The process has begun this push and not yet written its file. */
  predicate Trying(s: State, p: Process, op: Operation) {
    var pc := PcOf(s, p);
    (pc.TestLocked? || pc.TakeLock? || pc.UseFile?) && pc.op == op
  }

  lemma StepKeepsTrying(s: State, step: Step, p: Process, op: Operation)
    requires Possible(s, step) && step != UsesFile(p) && op.PushTo? && Trying(s, p, op)
    ensures Trying(Apply(s, step), p, op)
  {
  }

  /** A push gives up in no run: until it writes its file it goes on trying, with the same entries and the same
      name. */
  lemma {:induction false} PushKeepsTrying(s: State, steps: seq<Step>, s': State, p: Process, op: Operation)
    requires ReachesAny(s, steps, s') && op.PushTo? && Trying(s, p, op)
    requires forall j :: 0 <= j < |steps| ==> steps[j] != UsesFile(p)
    ensures Trying(s', p, op)
    decreases |steps|
  {
    if steps != [] {
      StepKeepsTrying(s, steps[0], p, op);
      assert forall j :: 0 <= j < |steps[1..]| ==> steps[1..][j] == steps[j + 1];
      PushKeepsTrying(Apply(s, steps[0]), steps[1..], s', p, op);
    }
  }

  /** With the lock held by somebody else a push tests again, and a pop or a peek returns; neither changes anything. */
  lemma HeldLockIsLeft(s: State, p: Process)
    requires PcOf(s, p).TestLocked? && s.locked
    ensures var s', op := Apply(s, TestsLocked(p)), s.pcs[p].op;
            && s'.pcs[p] == (if op.PushTo? then TestLocked(op) else Idle)
            && s' == s.(pcs := s'.pcs) && forall q :: q != p ==> PcOf(s', q) == PcOf(s, q)
  {
  }

  /** A process that gives the lock back and finds the unlocked file there tests again. */
  lemma FreeLockIsLeft(s: State, p: Process)
    requires PcOf(s, p).TestUnlocked? && s.unlocked
    ensures Apply(s, TestsUnlocked(p)) == s
  {
    assert s.pcs[p := TestUnlocked] == s.pcs;
  }

  // ---------- The mutex object ----------

  /** The token files as one process sees them when no other interferes. */
  class DistributedMutex {
    var unlocked: bool
    var locked: bool

    constructor ()
      ensures unlocked && !locked
    {
      unlocked, locked := true, false;
    }

    /** `boost::filesystem::rename` from the unlocked to the locked name; it throws if there is no source. */
    method RenameToLocked() returns (thrown: bool)
      modifies this
      ensures thrown == !old(unlocked)
      ensures if thrown then unlocked == old(unlocked) && locked == old(locked) else !unlocked && locked
    {
      thrown := !unlocked;
      if !thrown {
        unlocked, locked := false, true;
      }
    }

    method RenameToUnlocked() returns (thrown: bool)
      modifies this
      ensures thrown == !old(locked)
      ensures if thrown then unlocked == old(unlocked) && locked == old(locked) else unlocked && !locked
    {
      thrown := !locked;
      if !thrown {
        unlocked, locked := true, false;
      }
    }

    method Lock() returns (status: nat)
      modifies this
      ensures status == 0 <==> !old(locked) && old(unlocked)
      ensures if status == 0 then !unlocked && locked else status == 1 && unlocked == old(unlocked) && locked == old(locked)
    {
      if locked {
        return 1;
      }
      var thrown := RenameToLocked();
      if thrown {
        return 1;
      }
      return 0;
    }

    /** One round of `Unlock`; a holder needs no second one. */
    method TryUnlock() returns (status: nat)
      modifies this
      ensures status == 0 <==> !old(unlocked) && old(locked)
      ensures if status == 0 then unlocked && !locked else status == 1 && unlocked == old(unlocked) && locked == old(locked)
    {
      if unlocked {
        return 1;
      }
      var thrown := RenameToUnlocked();
      if thrown {
        return 1;
      }
      return 0;
    }
  }

  /** The directory as one process sees it when no other interferes. */
  class QueueFile {
    var dir: map<string, string>
    const mutex: DistributedMutex

    ghost predicate Valid()
      reads this, mutex
    {
      mutex.unlocked != mutex.locked
    }

    constructor ()
      ensures Valid() && fresh(mutex) && !mutex.locked && dir == map[]
    {
      dir := map[];
      mutex := new DistributedMutex();
    }

    method Push(name: string, input: seq<Entry>) returns (status: nat)
      requires Valid()
      modifies this, mutex
      ensures Valid() && mutex.locked == old(mutex.locked)
      ensures status == if mutex.locked then 1 else 0
      ensures dir == if status == 0 then old(dir)[name := Printed(input)] else old(dir)
    {
      status := mutex.Lock();
      if status == 1 {
        return;
      }
      var text := WriteEntries(input);
      dir := dir[name := text];
      status := mutex.TryUnlock();
    }

    /** A file that is not there is reported, and the pop succeeds with nothing. */
    method Pop(name: string, output: seq<Entry>) returns (status: nat, output': seq<Entry>)
      requires Valid()
      modifies this, mutex
      ensures Valid() && mutex.locked == old(mutex.locked)
      ensures status == if mutex.locked then 1 else 0
      ensures dir == if status == 0 then old(dir) - {name} else old(dir)
      ensures output' == output + if status == 0 && name in old(dir) then Parsed(old(dir)[name]) else []
    {
      output' := output;
      status := mutex.Lock();
      if status == 1 {
        return;
      }
      if name in dir {
        output' := ReadEntries(dir[name], output);
      }
      dir := dir - {name};
      status := mutex.TryUnlock();
    }

    method Peek(name: string, output: seq<Entry>) returns (status: nat, output': seq<Entry>)
      requires Valid()
      modifies mutex
      ensures Valid() && mutex.locked == old(mutex.locked)
      ensures status == if mutex.locked then 1 else 0
      ensures output' == output + if status == 0 && name in dir then Parsed(dir[name]) else []
    {
      output' := output;
      status := mutex.Lock();
      if status == 1 {
        return;
      }
      if name in dir {
        output' := ReadEntries(dir[name], output);
      }
      status := mutex.TryUnlock();
    }
  }
}

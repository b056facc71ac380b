/** What runs of a cluster guarantee: keys end up with their owners only and forwarding comes to an end, whatever
    clients send; and as long as no empty key is on its way between nodes, no key is lost or invented, and none
    is duplicated without bound.
 */
module Delivery {
  import opened Machine
  import opened Keys
  import opened Ring
  import opened Text
  import opened Messages
  import opened Batching
  import opened Nodes
  import opened Sums
  import opened Cluster
  import opened Weights

  // ---------- Where a key is held ----------

  predicate Sent(c: State, kind: Kind, x: Key) {
    exists j :: 0 <= j < |c.injected| && c.injected[j].1 == kind && c.injected[j].2 == x
  }

  predicate MessageHolds(text: string, kind: Kind, x: Key) {
    Carried(text).0 == kind && x in Carried(text).1
  }

  predicate NodeHolds(node: Node, kind: Kind, x: Key) {
    || (exists text :: text in node.inbox && MessageHolds(text, kind, x))
    || (exists s :: s in node.cells && s.kind == kind && x in node.cells[s])
  }

  /** A copy of the key is somewhere: in a message, on a node, or still to be sent by a redirection thread. */
  predicate Held(c: State, kind: Kind, x: Key) {
    || (exists i :: 0 <= i < c.Size() && NodeHolds(c.nodes[i], kind, x))
    || (exists t :: t in c.senders && c.senders[t].kind == kind && x in c.senders[t].rest)
  }

  /** Weight 1 for every copy of one key of one kind. */
  function Counting(kind: Kind, x: Key): Scheme {
    Scheme(0, 0, (i, stage, k, y) => if k == kind && y == x then 1 else 0)
  }

  /** The number of copies of a key in the cluster. */
  ghost function Copies(c: State, kind: Kind, x: Key): nat {
    Total(Counting(kind, x), c)
  }

  lemma {:induction false} WeighCounting(kind: Kind, x: Key, i: nat, stage: Stage, k: Kind, keys: seq<Key>)
    ensures Weigh(Counting(kind, x), i, stage, k, keys) > 0 <==> k == kind && x in keys
  {
    if keys != [] {
      WeighCounting(kind, x, i, stage, k, keys[1..]);
      assert x in keys <==> x == keys[0] || x in keys[1..];
    }
  }

  lemma {:induction false} InboxCounting(kind: Kind, x: Key, i: nat, inbox: seq<string>)
    ensures InboxWeight(Counting(kind, x), i, inbox) > 0 <==> exists text :: text in inbox && MessageHolds(text, kind, x)
  {
    if inbox != [] {
      InboxCounting(kind, x, i, inbox[1..]);
      WeighCounting(kind, x, i, InInbox, Carried(inbox[0]).0, Carried(inbox[0]).1);
      assert MessageWeight(Counting(kind, x), i, inbox[0]) > 0 <==> MessageHolds(inbox[0], kind, x);
      assert forall text :: text in inbox <==> text == inbox[0] || text in inbox[1..];
    }
  }

  lemma NodeCounting(kind: Kind, x: Key, i: nat, node: Node)
    ensures NodeWeight(Counting(kind, x), i, node) > 0 <==> NodeHolds(node, kind, x)
  {
    var w := Counting(kind, x);
    InboxCounting(kind, x, i, node.inbox);
    SumPositive(node.cells.Keys, (s: Slot) => SlotWeight(w, i, node, s));
    forall s | s in node.cells
      ensures SlotWeight(w, i, node, s) > 0 <==> s.kind == kind && x in node.cells[s]
    {
      WeighCounting(kind, x, i, StageOf(s), s.kind, node.At(s));
    }
  }

  lemma SenderCounting(kind: Kind, x: Key, s: Sender)
    ensures SenderWeight(Counting(kind, x), s) > 0 <==> s.kind == kind && x in s.rest
  {
    if s.rest != [] {
      WeighCounting(kind, x, s.source, Unsent, s.kind, s.rest[1..]);
      assert x in s.rest <==> x == s.rest[0] || x in s.rest[1..];
    }
  }

  lemma CopiesMeanHeld(c: State, kind: Kind, x: Key)
    ensures Copies(c, kind, x) > 0 <==> Held(c, kind, x)
  {
    var w := Counting(kind, x);
    SumSeqPositive(NodeWeights(w, c.nodes));
    forall i: nat | i < c.Size()
      ensures NodeWeights(w, c.nodes)[i] > 0 <==> NodeHolds(c.nodes[i], kind, x)
    {
      NodeCounting(kind, x, i, c.nodes[i]);
    }
    SumPositive(c.senders.Keys, (t: nat) => if t in c.senders then SenderWeight(w, c.senders[t]) else 0);
    forall t | t in c.senders
      ensures SenderWeight(w, c.senders[t]) > 0 <==> c.senders[t].kind == kind && x in c.senders[t].rest
    {
      SenderCounting(kind, x, c.senders[t]);
    }
  }

  // ---------- What a message weighs ----------

  lemma TokensWeight(w: Scheme, i: nat, kind: Kind, keys: seq<Key>)
    requires AllTokens(keys) && |keys| < WORD
    ensures MessageWeight(w, i, EncodeAll(Tag(kind), keys)) == w.perMessage + Weigh(w, i, InInbox, kind, keys)
  {
    CarriedRoundTrip(kind, keys);
  }

  lemma {:induction false} WeighTokens(w: Scheme, i: nat, kind: Kind, keys: seq<Key>)
    ensures Weigh(w, i, InInbox, kind, keys)
         == Weigh(w, i, InInbox, kind, Tokens(keys)) + Weigh(w, i, InInbox, kind, Empties(|keys| - |Tokens(keys)|))
  {
    if keys != [] {
      WeighTokens(w, i, kind, keys[1..]);
      if keys[0] == "" {
        EmptiesFirst(w, i, kind, |keys| - |Tokens(keys)|);
      } else {
        assert Tokens(keys)[1..] == Tokens(keys[1..]);
      }
    }
  }

  lemma EmptiesFirst(w: Scheme, i: nat, kind: Kind, num: nat)
    requires num > 0
    ensures Weigh(w, i, InInbox, kind, Empties(num)) == w.weight(i, InInbox, kind, "") + Weigh(w, i, InInbox, kind, Empties(num - 1))
  {
    assert Empties(num)[1..] == Empties(num - 1);
  }

  /** No key that comes in weighs more than an empty one. */
  ghost predicate EmptyHeaviest(w: Scheme, n: nat) {
    forall i: nat, kind, x :: i < n ==> w.weight(i, InInbox, kind, x) <= w.weight(i, InInbox, kind, "")
  }

  /** A key in the place of an empty one. */
  lemma ReplacedWeight(w: Scheme, i: nat, kind: Kind, keys: seq<Key>, x: Key)
    requires |Tokens(keys)| < |keys|
    requires w.weight(i, InInbox, kind, x) <= w.weight(i, InInbox, kind, "")
    ensures Weigh(w, i, InInbox, kind, Tokens(keys) + ([x] + Empties(|keys| - |Tokens(keys)| - 1))) <= Weigh(w, i, InInbox, kind, keys)
  {
    var empties := |keys| - |Tokens(keys)|;
    WeighAppend(w, i, InInbox, kind, Tokens(keys), [x] + Empties(empties - 1));
    WeighAppend(w, i, InInbox, kind, [x], Empties(empties - 1));
    WeighSingle(w, i, InInbox, kind, x);
    WeighTokens(w, i, kind, keys);
    EmptiesFirst(w, i, kind, empties);
  }

  /** If an empty key outweighs the check sum that is read in its place, no message outweighs its keys. */
  lemma EmptiesWeight(w: Scheme, i: nat, n: nat, kind: Kind, keys: seq<Key>)
    requires AllValues(keys) && !AllTokens(keys) && |keys| < WORD
    requires i < n && EmptyHeaviest(w, n)
    ensures MessageWeight(w, i, EncodeAll(Tag(kind), keys)) <= w.perMessage + Weigh(w, i, InInbox, kind, keys)
  {
    CarriedWithEmpties(kind, keys);
    ReplacedWeight(w, i, kind, keys, Digits(CheckSum(Body(Tag(kind), |keys|, keys))));
  }

  lemma EncodedWeight(w: Scheme, i: nat, n: nat, kind: Kind, keys: seq<Key>)
    requires AllValues(keys) && |keys| < WORD && i < n
    requires AllTokens(keys) || EmptyHeaviest(w, n)
    ensures MessageWeight(w, i, EncodeAll(Tag(kind), keys)) <= w.perMessage + Weigh(w, i, InInbox, kind, keys)
  {
    if AllTokens(keys) {
      TokensWeight(w, i, kind, keys);
    } else {
      EmptiesWeight(w, i, n, kind, keys);
    }
  }

  // ---------- Nothing is lost ----------

  lemma {:induction false} WeighSameCounting(kind: Kind, x: Key, i: nat, a: Stage, j: nat, b: Stage, k: Kind, keys: seq<Key>)
    ensures Weigh(Counting(kind, x), i, a, k, keys) == Weigh(Counting(kind, x), j, b, k, keys)
  {
    if keys != [] {
      WeighSameCounting(kind, x, i, a, j, b, k, keys[1..]);
    }
  }

  /** The weights of a full batch and of what stays behind: the last key of the batch is counted in both. */
  lemma SplitBatch(w: Scheme, i: nat, stage: Stage, kind: Kind, rest: seq<Key>)
    requires |rest| >= BATCH_COUNT
    ensures Weigh(w, i, stage, kind, rest[1..])
         == Weigh(w, i, stage, kind, rest[1..BATCH_COUNT - 1])
          + w.weight(i, stage, kind, rest[BATCH_COUNT - 1])
          + Weigh(w, i, stage, kind, rest[BATCH_COUNT..])
    ensures Weigh(w, i, stage, kind, rest[..BATCH_COUNT])
         == w.weight(i, stage, kind, rest[0])
          + Weigh(w, i, stage, kind, rest[1..BATCH_COUNT - 1])
          + w.weight(i, stage, kind, rest[BATCH_COUNT - 1])
  {
    var mid, last, tail := rest[1..BATCH_COUNT - 1], rest[BATCH_COUNT - 1], rest[BATCH_COUNT..];
    assert rest[1..] == mid + ([last] + tail);
    WeighAppend(w, i, stage, kind, mid, [last] + tail);
    WeighAppend(w, i, stage, kind, [last], tail);
    WeighSingle(w, i, stage, kind, last);
    assert rest[..BATCH_COUNT] == [rest[0]] + (mid + [last]);
    WeighAppend(w, i, stage, kind, [rest[0]], mid + [last]);
    WeighSingle(w, i, stage, kind, rest[0]);
    WeighAppend(w, i, stage, kind, mid, [last]);
  }

  /** What a redirection thread has left and what it sends hold the copies that it had. */
  lemma SendingKeepsCopies(s: Sender, kind: Kind, x: Key)
    requires s.rest != []
    ensures |s.rest| >= BATCH_COUNT ==>
              SenderWeight(Counting(kind, x), s)
              <= Weigh(Counting(kind, x), s.target, InInbox, s.kind, s.rest[..BATCH_COUNT])
                 + SenderWeight(Counting(kind, x), s.(rest := s.rest[BATCH_COUNT - 1..], resumed := true))
    ensures |s.rest| < BATCH_COUNT ==>
              SenderWeight(Counting(kind, x), s) <= Weigh(Counting(kind, x), s.target, InInbox, s.kind, s.rest)
  {
    var w := Counting(kind, x);
    if |s.rest| >= BATCH_COUNT {
      SplitBatch(w, s.source, Unsent, s.kind, s.rest);
      WeighSameCounting(kind, x, s.source, Unsent, s.target, InInbox, s.kind, s.rest[..BATCH_COUNT]);
      assert s.rest[BATCH_COUNT - 1..][1..] == s.rest[BATCH_COUNT..];
    } else {
      WeighSameCounting(kind, x, s.source, Unsent, s.target, InInbox, s.kind, s.rest);
      assert SenderWeight(w, s) == Weigh(w, s.source, Unsent, s.kind, s.rest);
    }
  }

  lemma SendKeepsCopies(c: State, thread: nat, kind: Kind, x: Key)
    requires Tidy(c) && Enabled(c, Send(thread)) && c.senders[thread].rest != []
    ensures Before(Counting(kind, x), c, Send(thread)) <= After(Counting(kind, x), c, Send(thread))
  {
    var s := c.senders[thread];
    var batch := if |s.rest| >= BATCH_COUNT then s.rest[..BATCH_COUNT] else s.rest;
    TokensSplit(s.rest, batch);
    TokensWeight(Counting(kind, x), s.target, s.kind, batch);
    SendingKeepsCopies(s, kind, x);
  }

  /** No step reduces the number of copies of any key. */
  lemma StepKeepsCopies(c: State, step: Step, kind: Kind, x: Key)
    requires Inv(c) && Tidy(c) && Enabled(c, step)
    ensures Copies(Apply(c, step), kind, x) >= Copies(c, kind, x)
  {
    var w := Counting(kind, x);
    StepWeight(w, c, step);
    match step
    case ReceiveMessage(i) =>
      WeighSameCounting(kind, x, i, InInbox, i, InPending, Carried(c.nodes[i].inbox[0]).0, Carried(c.nodes[i].inbox[0]).1);
    case Spawn(i, k, link, _) =>
      WeighSameCounting(kind, x, i, InForwarding, i, Unsent, k, c.nodes[i].At(Forwarding(k, link)));
    case Send(thread) =>
      assert SenderOk(c.senders[thread], c.Size());
      SendKeepsCopies(c, thread, kind, x);
    case Write(i, k) =>
      WeighSameCounting(kind, x, i, InWriting, i, InWritten, k, c.nodes[i].At(Writing(k)));
    case _ =>
  }

  // ---------- Weights that do not grow ----------

  /** One bits of the distance that a key has still to go from node `i`. */
  function Bits(i: nat, x: Key, n: nat): nat
    requires n > 0
  {
    Popcount(Distance(i, Owner(x, n), n))
  }

  lemma BitsOnTheWay(i: nat, x: Key, n: nat)
    requires i < n
    ensures Owner(x, n) == i ==> Bits(i, x, n) == 0
    ensures Owner(x, n) != i ==> Bits(i, x, n) == Bits(NextNode(i, Owner(x, n), n), x, n) + 1
  {
    if Owner(x, n) != i {
      HopLosesOneBit(i, Owner(x, n), n);
    } else {
      assert Distance(i, i, n) == 0;
    }
  }

  /** From stage to stage a copy loses at least `slack` of its weight, and what a redirection thread sends
      weighs no more than what it has left to send for it. */
  predicate Dissipates(w: Scheme, slack: nat, i: nat, n: nat, kind: Kind, x: Key)
    requires i < n
  {
    var v := (stage: Stage) => w.weight(i, stage, kind, x);
    && v(InInbox) >= v(InPending)
    && (Owner(x, n) == i ==> v(InPending) >= v(InOutput) + slack)
    && v(InOutput) >= v(InWriting) + w.perTry + slack
    && v(InWriting) >= v(InWritten) + slack
    && (Owner(x, n) != i ==>
          && v(InPending) >= v(InSorting) + slack
          && v(InSorting) >= v(InForwarding) + slack
          && v(InForwarding) >= v(Unsent) + slack
          && v(Unsent) >= v(SentOnce) + w.weight(NextNode(i, Owner(x, n), n), InInbox, kind, x)
          && v(SentOnce) >= w.weight(NextNode(i, Owner(x, n), n), InInbox, kind, x) + w.perMessage + slack)
  }

  ghost predicate Dissipative(w: Scheme, slack: nat, n: nat) {
    && w.perMessage >= slack && w.perTry >= slack
    && forall i: nat, kind, x :: i < n ==> Dissipates(w, slack, i, n, kind, x)
  }

  /** Lighter keys make a lighter sequence. */
  lemma {:induction false} WeighLess(w: Scheme, i: nat, a: Stage, j: nat, b: Stage, kind: Kind, keys: seq<Key>, slack: nat)
    requires forall x :: x in keys ==> w.weight(i, a, kind, x) >= w.weight(j, b, kind, x) + slack
    ensures Weigh(w, i, a, kind, keys) >= Weigh(w, j, b, kind, keys) + (if keys == [] then 0 else slack)
  {
    if keys != [] {
      WeighLess(w, i, a, j, b, kind, keys[1..], slack);
    }
  }

  /** The keys of a redirection thread, by what is left to send and what comes in at the other end. */
  lemma SenderKeys(c: State, thread: nat, w: Scheme, slack: nat)
    requires Inv(c) && Enabled(c, Send(thread)) && Dissipative(w, slack, c.Size())
    ensures var s := c.senders[thread];
            forall x :: x in s.rest ==>
              && w.weight(s.source, Unsent, s.kind, x) >= w.weight(s.source, SentOnce, s.kind, x) + w.weight(s.target, InInbox, s.kind, x)
              && w.weight(s.source, SentOnce, s.kind, x) >= w.weight(s.target, InInbox, s.kind, x) + w.perMessage + slack
  {
    var s := c.senders[thread];
    assert SenderOk(s, c.Size());
    forall x | x in s.rest
      ensures w.weight(s.source, Unsent, s.kind, x) >= w.weight(s.source, SentOnce, s.kind, x) + w.weight(s.target, InInbox, s.kind, x)
      ensures w.weight(s.source, SentOnce, s.kind, x) >= w.weight(s.target, InInbox, s.kind, x) + w.perMessage + slack
    {
      assert Dissipates(w, slack, s.source, c.Size(), s.kind, x);
    }
  }

  /** Sending weighs no more than what is left of the vector before, less what is left after. */
  lemma SendLightens(s: Sender, w: Scheme, slack: nat)
    requires s.rest != []
    requires forall x :: x in s.rest ==>
               && w.weight(s.source, Unsent, s.kind, x) >= w.weight(s.source, SentOnce, s.kind, x) + w.weight(s.target, InInbox, s.kind, x)
               && w.weight(s.source, SentOnce, s.kind, x) >= w.weight(s.target, InInbox, s.kind, x) + w.perMessage + slack
    ensures |s.rest| >= BATCH_COUNT ==>
              w.perMessage + Weigh(w, s.target, InInbox, s.kind, s.rest[..BATCH_COUNT])
              + SenderWeight(w, s.(rest := s.rest[BATCH_COUNT - 1..], resumed := true)) + slack <= SenderWeight(w, s)
    ensures |s.rest| < BATCH_COUNT ==>
              w.perMessage + Weigh(w, s.target, InInbox, s.kind, s.rest) + slack <= SenderWeight(w, s)
  {
    assert s.rest[0] in s.rest;
    if |s.rest| >= BATCH_COUNT {
      SplitBatch(w, s.source, Unsent, s.kind, s.rest);
      SplitBatch(w, s.target, InInbox, s.kind, s.rest);
      WeighLess(w, s.source, Unsent, s.target, InInbox, s.kind, s.rest[1..BATCH_COUNT - 1], 0);
      assert s.rest[BATCH_COUNT - 1] in s.rest;
      assert s.rest[BATCH_COUNT - 1..][1..] == s.rest[BATCH_COUNT..];
    } else {
      WeighLess(w, s.source, Unsent, s.target, InInbox, s.kind, s.rest[1..], 0);
    }
  }

  lemma SendDissipates(c: State, thread: nat, w: Scheme, slack: nat)
    requires Inv(c) && Enabled(c, Send(thread)) && Dissipative(w, slack, c.Size())
    requires Tidy(c) || EmptyHeaviest(w, c.Size())
    ensures After(w, c, Send(thread)) + slack <= Before(w, c, Send(thread))
  {
    var s := c.senders[thread];
    var batch := if |s.rest| >= BATCH_COUNT then s.rest[..BATCH_COUNT] else s.rest;
    assert SenderOk(s, c.Size());
    ValuesSplit(s.rest, batch);
    if Tidy(c) {
      TokensSplit(s.rest, batch);
    }
    EncodedWeight(w, s.target, c.Size(), s.kind, batch);
    SenderKeys(c, thread, w, slack);
    SendLightens(s, w, slack);
  }

  lemma HeadStepDissipates(c: State, step: Step, w: Scheme, slack: nat)
    requires Inv(c) && Enabled(c, step) && Dissipative(w, slack, c.Size())
    requires step.RouteKey? || step.Collect? || step.CollectForOutput? || step.MissLock?
    ensures After(w, c, step) + slack <= Before(w, c, step)
  {
    var i, n := step.i, c.Size();
    var node := c.nodes[i];
    match step
    case RouteKey(_, kind) =>
      assert Dissipates(w, slack, i, n, kind, node.At(Pending(kind))[0]);
    case Collect(_, kind, link) =>
      RoutedHead(node, Sorting(kind, link), i, n);
      assert Dissipates(w, slack, i, n, kind, node.At(Sorting(kind, link))[0]);
    case CollectForOutput(_, kind) =>
      assert Dissipates(w, slack, i, n, kind, node.At(Output(kind))[0]);
    case MissLock(_) =>
  }

  lemma ReceiveDissipates(c: State, i: nat, w: Scheme, slack: nat)
    requires Inv(c) && Enabled(c, ReceiveMessage(i)) && Dissipative(w, slack, c.Size())
    ensures After(w, c, ReceiveMessage(i)) + slack <= Before(w, c, ReceiveMessage(i))
  {
    var (kind, keys) := Carried(c.nodes[i].inbox[0]);
    forall x | x in keys
      ensures w.weight(i, InInbox, kind, x) >= w.weight(i, InPending, kind, x)
    {
      assert Dissipates(w, slack, i, c.Size(), kind, x);
    }
    WeighLess(w, i, InInbox, i, InPending, kind, keys, 0);
  }

  lemma SpawnDissipates(c: State, i: nat, kind: Kind, link: nat, thread: nat, w: Scheme, slack: nat)
    requires Inv(c) && Enabled(c, Spawn(i, kind, link, thread)) && Dissipative(w, slack, c.Size())
    ensures var step := Spawn(i, kind, link, thread);
            After(w, c, step) + slack <= Before(w, c, step)
  {
    var q := c.nodes[i].At(Forwarding(kind, link));
    AtOk(c.nodes[i], Forwarding(kind, link), i, c.Size());
    forall x | x in q
      ensures w.weight(i, InForwarding, kind, x) >= w.weight(i, Unsent, kind, x) + slack
    {
      assert RoutesTo(x, i, c.Size(), link);
      assert Dissipates(w, slack, i, c.Size(), kind, x);
    }
    WeighLess(w, i, InForwarding, i, Unsent, kind, q, slack);
  }

  lemma WriteDissipates(c: State, i: nat, kind: Kind, w: Scheme, slack: nat)
    requires Inv(c) && Enabled(c, Write(i, kind)) && Dissipative(w, slack, c.Size())
    ensures After(w, c, Write(i, kind)) + slack <= Before(w, c, Write(i, kind))
  {
    var keys := c.nodes[i].At(Writing(kind));
    assert WriterOk(c.nodes[i]);
    forall x | x in keys
      ensures w.weight(i, InWriting, kind, x) >= w.weight(i, InWritten, kind, x) + slack
    {
      assert Dissipates(w, slack, i, c.Size(), kind, x);
    }
    WeighLess(w, i, InWriting, i, InWritten, kind, keys, slack);
  }

  /** No step but an injection adds weight, and each takes away at least the slack, provided that no empty key
      is on its way, or that empty keys are heavy. */
  lemma StepDissipates(c: State, step: Step, w: Scheme, slack: nat)
    requires Inv(c) && Enabled(c, step) && Dissipative(w, slack, c.Size())
    requires Tidy(c) || EmptyHeaviest(w, c.Size())
    requires !step.Inject?
    ensures Total(w, Apply(c, step)) + slack <= Total(w, c)
  {
    StepWeight(w, c, step);
    match step
    case Send(thread) => SendDissipates(c, thread, w, slack);
    case ReceiveMessage(i) => ReceiveDissipates(c, i, w, slack);
    case Spawn(i, kind, link, thread) => SpawnDissipates(c, i, kind, link, thread, w, slack);
    case Write(i, kind) => WriteDissipates(c, i, kind, w, slack);
    case _ => HeadStepDissipates(c, step, w, slack);
  }

  /** What the injections of a run weigh, and how many other steps it has. */
  function Injections(w: Scheme, steps: seq<Step>): nat {
    if steps == [] then 0
    else
      (match steps[0]
       case Inject(i, text) => MessageWeight(w, i, text)
       case _ => 0) + Injections(w, steps[1..])
  }

  function Work(steps: seq<Step>): nat {
    if steps == [] then 0 else (if steps[0].Inject? then 0 else 1) + Work(steps[1..])
  }

  /** A step adds at most what it injects, and one that injects nothing takes `slack` away. */
  lemma StepAccounts(c: State, step: Step, w: Scheme, slack: nat)
    requires Inv(c) && Enabled(c, step) && Dissipative(w, slack, c.Size()) && EmptyHeaviest(w, c.Size())
    ensures Total(w, Apply(c, step)) + (if step.Inject? then 0 else slack)
         <= Total(w, c) + (if step.Inject? then MessageWeight(w, step.i, step.text) else 0)
    ensures Apply(c, step).Size() == c.Size()
  {
    if step.Inject? {
      StepWeight(w, c, step);
    } else {
      StepDissipates(c, step, w, slack);
    }
  }

  lemma {:induction false} RunDissipates(c: State, steps: seq<Step>, c': State, w: Scheme)
    requires Inv(c) && Reaches(c, steps, c') && Dissipative(w, 1, c.Size()) && EmptyHeaviest(w, c.Size())
    ensures Total(w, c') + Work(steps) <= Total(w, c) + Injections(w, steps)
    decreases |steps|
  {
    if steps != [] {
      StepKeepsInv(c, steps[0]);
      StepAccounts(c, steps[0], w, 1);
      RunDissipates(Apply(c, steps[0]), steps[1..], c', w);
    }
  }

  // ---------- Weights by the one bits left ----------

  type Profile = (Stage, nat, Kind, Key) -> nat

  /** The weights that depend on a node through the one bits left only. */
  function ByBits(perMessage: nat, perTry: nat, profile: Profile, n: nat): Scheme
    requires n > 0
  {
    Scheme(perMessage, perTry, (i: nat, stage: Stage, kind: Kind, x: Key) => profile(stage, Bits(i, x, n), kind, x))
  }

  /** The same with one bit less per hop: what `Dissipates` asks, said of the profile. */
  predicate ProfileDissipates(perMessage: nat, perTry: nat, profile: Profile, slack: nat, b: nat, kind: Kind, x: Key) {
    var v := (stage: Stage) => profile(stage, b, kind, x);
    && v(InInbox) >= v(InPending)
    && (b == 0 ==> v(InPending) >= v(InOutput) + slack)
    && v(InOutput) >= v(InWriting) + perTry + slack
    && v(InWriting) >= v(InWritten) + slack
    && (b > 0 ==>
          && v(InPending) >= v(InSorting) + slack
          && v(InSorting) >= v(InForwarding) + slack
          && v(InForwarding) >= v(Unsent) + slack
          && v(Unsent) >= v(SentOnce) + profile(InInbox, b - 1, kind, x)
          && v(SentOnce) >= profile(InInbox, b - 1, kind, x) + perMessage + slack)
  }

  lemma ByBitsDissipatesAt(perMessage: nat, perTry: nat, profile: Profile, slack: nat, i: nat, n: nat, kind: Kind, x: Key)
    requires i < n
    requires ProfileDissipates(perMessage, perTry, profile, slack, Bits(i, x, n), kind, x)
    ensures Dissipates(ByBits(perMessage, perTry, profile, n), slack, i, n, kind, x)
  {
    BitsOnTheWay(i, x, n);
  }

  lemma ByBitsDissipates(perMessage: nat, perTry: nat, profile: Profile, slack: nat, n: nat)
    requires n > 0 && perMessage >= slack && perTry >= slack
    requires forall b: nat, kind, x :: ProfileDissipates(perMessage, perTry, profile, slack, b, kind, x)
    ensures Dissipative(ByBits(perMessage, perTry, profile, n), slack, n)
  {
    forall i: nat, kind, x | i < n
      ensures Dissipates(ByBits(perMessage, perTry, profile, n), slack, i, n, kind, x)
    {
      ByBitsDissipatesAt(perMessage, perTry, profile, slack, i, n, kind, x);
    }
  }

  /** `9 * 2^bits - 5` for a copy that arrives, a little less at each later stage. An empty key, which may turn
      into any other, counts as many. */
  function Measure(n: nat): Scheme
    requires n > 0
  {
    ByBits(1, 1, MeasureProfile(n), n)
  }

  function MeasureProfile(n: nat): Profile {
    (stage: Stage, b: nat, kind: Kind, x: Key) => StageMeasure(stage, b) * Factor(x, n)
  }

  function Factor(x: Key, n: nat): (f: nat)
    ensures f >= 1
  {
    if x == "" then 9 * Pow2(n) else 1
  }

  function StageMeasure(stage: Stage, b: nat): nat {
    match stage
    case InInbox => 9 * Pow2(b) - 5
    case InPending => 9 * Pow2(b) - 5
    case InSorting => 9 * Pow2(b) - 6
    case InForwarding => 9 * Pow2(b) - 7
    case Unsent => 9 * Pow2(b) - 8
    case SentOnce => if b == 0 then 0 else 9 * Pow2(b - 1) - 3
    case InOutput => 3
    case InWriting => 1
    case InWritten => 0
  }

  lemma Scaled(a: nat, b: nat, extra: nat, f: nat)
    requires a >= b + extra && f >= 1
    ensures a * f >= b * f + extra
  {
    assert (a - b) * f >= (a - b);
    assert a * f == b * f + (a - b) * f;
  }

  lemma MeasureDissipatesAt(n: nat, b: nat, kind: Kind, x: Key)
    ensures ProfileDissipates(1, 1, MeasureProfile(n), 1, b, kind, x)
  {
    var f := Factor(x, n);
    assert b == 0 ==> Pow2(b) == 1;
    Scaled(StageMeasure(InOutput, b), StageMeasure(InWriting, b), 2, f);
    Scaled(StageMeasure(InWriting, b), StageMeasure(InWritten, b), 1, f);
    if b == 0 {
      Scaled(StageMeasure(InPending, b), StageMeasure(InOutput, b), 1, f);
    } else {
      Scaled(StageMeasure(InPending, b), StageMeasure(InSorting, b), 1, f);
      Scaled(StageMeasure(InSorting, b), StageMeasure(InForwarding, b), 1, f);
      Scaled(StageMeasure(InForwarding, b), StageMeasure(Unsent, b), 1, f);
      Scaled(StageMeasure(SentOnce, b), StageMeasure(InInbox, b - 1), 2, f);
      assert StageMeasure(Unsent, b) == StageMeasure(SentOnce, b) + StageMeasure(InInbox, b - 1);
      assert StageMeasure(Unsent, b) * f == StageMeasure(SentOnce, b) * f + StageMeasure(InInbox, b - 1) * f;
    }
  }

  lemma MeasureDissipates(n: nat)
    requires n > 0
    ensures Dissipative(Measure(n), 1, n)
  {
    forall b: nat, kind, x
      ensures ProfileDissipates(1, 1, MeasureProfile(n), 1, b, kind, x)
    {
      MeasureDissipatesAt(n, b, kind, x);
    }
    ByBitsDissipates(1, 1, MeasureProfile(n), 1, n);
  }

  lemma {:induction false} Pow2Above(n: nat)
    ensures n < Pow2(n)
  {
    if n > 0 {
      Pow2Above(n - 1);
    }
  }

  lemma MeasureAt(n: nat, i: nat, stage: Stage, kind: Kind, x: Key)
    requires n > 0
    ensures Measure(n).weight(i, stage, kind, x) == StageMeasure(stage, Bits(i, x, n)) * Factor(x, n)
  {
    var profile := MeasureProfile(n);
    assert Measure(n).weight(i, stage, kind, x) == profile(stage, Bits(i, x, n), kind, x);
  }

  lemma EmptyOutweighs(n: nat, i: nat, kind: Kind, x: Key)
    requires i < n
    ensures Measure(n).weight(i, InInbox, kind, x) <= Measure(n).weight(i, InInbox, kind, "")
  {
    MeasureAt(n, i, InInbox, kind, x);
    MeasureAt(n, i, InInbox, kind, "");
    if x != "" {
      Pow2Above(n);
      PopcountBound(Distance(i, Owner(x, n), n), n);
      Pow2Monotone(Bits(i, x, n), n);
      Scaled(StageMeasure(InInbox, Bits(i, "", n)), 1, 0, Factor("", n));
    }
  }

  lemma MeasureOfEmpty(n: nat)
    requires n > 0
    ensures EmptyHeaviest(Measure(n), n)
  {
    forall i: nat, kind, x | i < n
      ensures Measure(n).weight(i, InInbox, kind, x) <= Measure(n).weight(i, InInbox, kind, "")
    {
      EmptyOutweighs(n, i, kind, x);
    }
  }

  /** A copy that has `b` one bits to go can become `2^b` copies. */
  function Spread(kind: Kind, x: Key, n: nat): Scheme
    requires n > 0
  {
    ByBits(0, 0, SpreadProfile(kind, x), n)
  }

  function SpreadProfile(kind: Kind, x: Key): Profile {
    (stage: Stage, b: nat, k: Kind, y: Key) => KeySpread(kind, x, stage, b, k, y)
  }

  function KeySpread(kind: Kind, x: Key, stage: Stage, b: nat, k: Kind, y: Key): nat {
    if k == kind && y == x then StageSpread(stage, b) else 0
  }

  function StageSpread(stage: Stage, b: nat): (s: nat)
    ensures s >= 1
  {
    match stage
    case InOutput => 1
    case InWriting => 1
    case InWritten => 1
    case SentOnce => if b == 0 then 1 else Pow2(b - 1)
    case _ => Pow2(b)
  }

  lemma SpreadWeightAt(kind: Kind, x: Key, n: nat, i: nat, stage: Stage, k: Kind, y: Key)
    requires n > 0
    ensures Spread(kind, x, n).weight(i, stage, k, y) == KeySpread(kind, x, stage, Bits(i, y, n), k, y)
  {
    var profile := SpreadProfile(kind, x);
    assert Spread(kind, x, n).weight(i, stage, k, y) == profile(stage, Bits(i, y, n), k, y);
  }

  lemma SpreadDissipates(kind: Kind, x: Key, n: nat)
    requires n > 0
    ensures Dissipative(Spread(kind, x, n), 0, n)
  {
    forall b: nat, k, y
      ensures ProfileDissipates(0, 0, SpreadProfile(kind, x), 0, b, k, y)
    {
    }
    ByBitsDissipates(0, 0, SpreadProfile(kind, x), 0, n);
  }

  lemma {:induction false} WeighAtMost(v: Scheme, w: Scheme, i: nat, stage: Stage, kind: Kind, keys: seq<Key>)
    requires forall x :: v.weight(i, stage, kind, x) <= w.weight(i, stage, kind, x)
    ensures Weigh(v, i, stage, kind, keys) <= Weigh(w, i, stage, kind, keys)
  {
    if keys != [] {
      WeighAtMost(v, w, i, stage, kind, keys[1..]);
    }
  }

  ghost predicate Lighter(v: Scheme, w: Scheme) {
    && v.perMessage <= w.perMessage && v.perTry <= w.perTry
    && forall i: nat, stage, kind, x :: v.weight(i, stage, kind, x) <= w.weight(i, stage, kind, x)
  }

  lemma {:induction false} InboxAtMost(v: Scheme, w: Scheme, i: nat, inbox: seq<string>)
    requires Lighter(v, w)
    ensures InboxWeight(v, i, inbox) <= InboxWeight(w, i, inbox)
  {
    if inbox != [] {
      WeighAtMost(v, w, i, InInbox, Carried(inbox[0]).0, Carried(inbox[0]).1);
      InboxAtMost(v, w, i, inbox[1..]);
    }
  }

  lemma NodeAtMost(v: Scheme, w: Scheme, i: nat, node: Node)
    requires Lighter(v, w)
    ensures NodeWeight(v, i, node) <= NodeWeight(w, i, node)
  {
    InboxAtMost(v, w, i, node.inbox);
    forall s | s in node.cells
      ensures SlotWeight(v, i, node, s) <= SlotWeight(w, i, node, s)
    {
      WeighAtMost(v, w, i, StageOf(s), s.kind, node.At(s));
    }
    SumAtMost(node.cells.Keys, (s: Slot) => SlotWeight(v, i, node, s), (s: Slot) => SlotWeight(w, i, node, s));
  }

  lemma TotalAtMost(v: Scheme, w: Scheme, c: State)
    requires Lighter(v, w)
    ensures Total(v, c) <= Total(w, c)
  {
    forall i: nat | i < c.Size()
      ensures NodeWeights(v, c.nodes)[i] <= NodeWeights(w, c.nodes)[i]
    {
      NodeAtMost(v, w, i, c.nodes[i]);
    }
    SumSeqAtMost(NodeWeights(v, c.nodes), NodeWeights(w, c.nodes));
    SendersAtMost(v, w, c.senders);
  }

  lemma SenderAtMost(v: Scheme, w: Scheme, s: Sender)
    requires Lighter(v, w)
    ensures SenderWeight(v, s) <= SenderWeight(w, s)
  {
    if s.rest != [] {
      WeighAtMost(v, w, s.source, Unsent, s.kind, s.rest[1..]);
    }
  }

  lemma SendersAtMost(v: Scheme, w: Scheme, senders: map<nat, Sender>)
    requires Lighter(v, w)
    ensures SendersWeight(v, senders) <= SendersWeight(w, senders)
  {
    forall t | t in senders
      ensures SenderWeight(v, senders[t]) <= SenderWeight(w, senders[t])
    {
      SenderAtMost(v, w, senders[t]);
    }
    SumAtMost(senders.Keys, (t: nat) => if t in senders then SenderWeight(v, senders[t]) else 0,
              (t: nat) => if t in senders then SenderWeight(w, senders[t]) else 0);
  }

  /** `2^bits` for every time that the run injects the key. */
  function SpreadBound(kind: Kind, x: Key, n: nat, injected: seq<(nat, Kind, Key)>): nat
    requires n > 0
  {
    if injected == [] then 0
    else
      (if injected[0].1 == kind && injected[0].2 == x then Pow2(Bits(injected[0].0, x, n)) else 0)
      + SpreadBound(kind, x, n, injected[1..])
  }

  // ---------- Runs from the start ----------

  lemma InitIsEmpty(n: nat, w: Scheme)
    ensures Inv(Init(n)) && Tidy(Init(n))
    ensures Total(w, Init(n)) == 0
  {
    var c := Init(n);
    SumSeqZero(NodeWeights(w, c.nodes));
  }

  lemma {:induction false} SumSeqZero(s: seq<nat>)
    requires forall i :: 0 <= i < |s| ==> s[i] == 0
    ensures SumSeq(s) == 0
  {
    if s != [] {
      SumSeqZero(s[1..]);
    }
  }

  lemma {:induction false} SpreadBoundAppend(kind: Kind, x: Key, n: nat, a: seq<(nat, Kind, Key)>, b: seq<(nat, Kind, Key)>)
    requires n > 0
    ensures SpreadBound(kind, x, n, a + b) == SpreadBound(kind, x, n, a) + SpreadBound(kind, x, n, b)
  {
    if a == [] {
      assert a + b == b;
    } else {
      assert (a + b)[1..] == a[1..] + b;
      SpreadBoundAppend(kind, x, n, a[1..], b);
    }
  }

  lemma {:induction false} SpreadBoundHistory(kind: Kind, x: Key, n: nat, i: nat, k: Kind, keys: seq<Key>)
    requires n > 0
    ensures SpreadBound(kind, x, n, History(i, k, keys)) == Weigh(Spread(kind, x, n), i, InInbox, k, keys)
  {
    if keys != [] {
      assert History(i, k, keys)[1..] == History(i, k, keys[1..]);
      SpreadWeightAt(kind, x, n, i, InInbox, k, keys[0]);
      SpreadBoundHistory(kind, x, n, i, k, keys[1..]);
    }
  }

  /** The total spread of a key is within its bound. */
  ghost predicate SpreadInBound(c: State, kind: Kind, x: Key, n: nat)
    requires n > 0
  {
    Total(Spread(kind, x, n), c) <= SpreadBound(kind, x, n, c.injected)
  }

  lemma StepSpreads(c: State, step: Step, kind: Kind, x: Key, n: nat)
    requires Inv(c) && Tidy(c) && Enabled(c, step) && c.Size() == n > 0
    requires SpreadInBound(c, kind, x, n)
    ensures Apply(c, step).Size() == n && SpreadInBound(Apply(c, step), kind, x, n)
  {
    if step.Inject? {
      InjectSpreads(c, step.i, step.text, kind, x, n);
    } else {
      SpreadDissipates(kind, x, n);
      StepDissipates(c, step, Spread(kind, x, n), 0);
      MoveKeepsHistory(c, step);
    }
  }

  lemma MoveKeepsHistory(c: State, step: Step)
    requires Enabled(c, step) && !step.Inject?
    ensures Apply(c, step).injected == c.injected && Apply(c, step).Size() == c.Size()
  {
  }

  /** What an injection adds, to the history and to the weight. */
  lemma InjectAdds(w: Scheme, c: State, i: nat, text: string, k: Kind, keys: seq<Key>)
    requires Enabled(c, Inject(i, text)) && (k, keys) == Carried(text)
    ensures var next := Apply(c, Inject(i, text));
            && next.injected == c.injected + History(i, k, keys) && next.Size() == c.Size()
            && Total(w, next) == Total(w, c) + w.perMessage + Weigh(w, i, InInbox, k, keys)
  {
    StepWeight(w, c, Inject(i, text));
  }

  lemma InjectSpreads(c: State, i: nat, text: string, kind: Kind, x: Key, n: nat)
    requires Enabled(c, Inject(i, text)) && c.Size() == n > 0
    requires SpreadInBound(c, kind, x, n)
    ensures Apply(c, Inject(i, text)).Size() == n && SpreadInBound(Apply(c, Inject(i, text)), kind, x, n)
  {
    var (k, keys) := Carried(text);
    InjectAdds(Spread(kind, x, n), c, i, text, k, keys);
    SpreadBoundAppend(kind, x, n, c.injected, History(i, k, keys));
    SpreadBoundHistory(kind, x, n, i, k, keys);
  }

  lemma {:induction false} RunSpreads(c: State, steps: seq<Step>, c': State, kind: Kind, x: Key, n: nat)
    requires Inv(c) && Tidy(c) && Reaches(c, steps, c') && CleanRun(steps) && c.Size() == n > 0
    requires SpreadInBound(c, kind, x, n)
    ensures SpreadInBound(c', kind, x, n)
    decreases |steps|
  {
    if steps != [] {
      StepKeepsInv(c, steps[0]);
      StepKeepsTidy(c, steps[0]);
      StepSpreads(c, steps[0], kind, x, n);
      CleanRest(steps);
      RunSpreads(Apply(c, steps[0]), steps[1..], c', kind, x, n);
    }
  }

  lemma CleanRest(steps: seq<Step>)
    requires steps != [] && CleanRun(steps)
    ensures CleanRun(steps[1..])
  {
    assert forall j :: 0 <= j < |steps[1..]| ==> steps[1..][j] == steps[j + 1];
  }

  /** How often the messages of clients have carried the key. */
  function Times(kind: Kind, x: Key, injected: seq<(nat, Kind, Key)>): nat {
    if injected == [] then 0
    else (if injected[0].1 == kind && injected[0].2 == x then 1 else 0) + Times(kind, x, injected[1..])
  }

  lemma {:induction false} TimesAppend(kind: Kind, x: Key, a: seq<(nat, Kind, Key)>, b: seq<(nat, Kind, Key)>)
    ensures Times(kind, x, a + b) == Times(kind, x, a) + Times(kind, x, b)
  {
    if a == [] {
      assert a + b == b;
    } else {
      assert (a + b)[1..] == a[1..] + b;
      TimesAppend(kind, x, a[1..], b);
    }
  }

  lemma {:induction false} TimesHistory(kind: Kind, x: Key, i: nat, k: Kind, keys: seq<Key>)
    ensures Times(kind, x, History(i, k, keys)) == Weigh(Counting(kind, x), i, InInbox, k, keys)
  {
    if keys != [] {
      assert History(i, k, keys)[1..] == History(i, k, keys[1..]);
      TimesHistory(kind, x, i, k, keys[1..]);
    }
  }

  lemma {:induction false} SentIffTimes(kind: Kind, x: Key, injected: seq<(nat, Kind, Key)>)
    ensures Times(kind, x, injected) > 0 <==> exists j :: 0 <= j < |injected| && injected[j].1 == kind && injected[j].2 == x
  {
    if injected != [] {
      SentIffTimes(kind, x, injected[1..]);
      assert injected == [injected[0]] + injected[1..];
      assert forall j :: 0 < j < |injected| ==> injected[j] == injected[1..][j - 1];
    }
  }

  /** There are as many copies of the key as it was sent. */
  ghost predicate EnoughCopies(c: State, kind: Kind, x: Key) {
    Copies(c, kind, x) >= Times(kind, x, c.injected)
  }

  lemma StepKeepsEnough(c: State, step: Step, kind: Kind, x: Key)
    requires Inv(c) && Tidy(c) && Enabled(c, step) && EnoughCopies(c, kind, x)
    ensures EnoughCopies(Apply(c, step), kind, x)
  {
    if step.Inject? {
      var (k, keys) := Carried(step.text);
      InjectAdds(Counting(kind, x), c, step.i, step.text, k, keys);
      TimesAppend(kind, x, c.injected, History(step.i, k, keys));
      TimesHistory(kind, x, step.i, k, keys);
    } else {
      StepKeepsCopies(c, step, kind, x);
      MoveKeepsHistory(c, step);
    }
  }

  lemma {:induction false} RunKeepsEnough(c: State, steps: seq<Step>, c': State, kind: Kind, x: Key)
    requires Inv(c) && Tidy(c) && Reaches(c, steps, c') && CleanRun(steps) && EnoughCopies(c, kind, x)
    ensures EnoughCopies(c', kind, x)
    decreases |steps|
  {
    if steps != [] {
      StepKeepsInv(c, steps[0]);
      StepKeepsTidy(c, steps[0]);
      StepKeepsEnough(c, steps[0], kind, x);
      CleanRest(steps);
      RunKeepsEnough(Apply(c, steps[0]), steps[1..], c', kind, x);
    }
  }

  lemma {:induction false} NotSentNoSpread(kind: Kind, x: Key, n: nat, injected: seq<(nat, Kind, Key)>)
    requires n > 0
    requires forall j :: 0 <= j < |injected| ==> injected[j].1 != kind || injected[j].2 != x
    ensures SpreadBound(kind, x, n, injected) == 0
  {
    if injected != [] {
      NotSentNoSpread(kind, x, n, injected[1..]);
    }
  }

  lemma {:induction false} SizeIsFixed(c: State, steps: seq<Step>, c': State)
    requires Reaches(c, steps, c')
    ensures c'.Size() == c.Size()
    decreases |steps|
  {
    if steps != [] {
      SizeIsFixed(Apply(c, steps[0]), steps[1..], c');
    }
  }

  lemma SpreadIsHeavier(kind: Kind, x: Key, n: nat)
    requires n > 0
    ensures Lighter(Counting(kind, x), Spread(kind, x, n))
  {
    forall i: nat, stage, k, y
      ensures Counting(kind, x).weight(i, stage, k, y) <= Spread(kind, x, n).weight(i, stage, k, y)
    {
      SpreadWeightAt(kind, x, n, i, stage, k, y);
    }
  }

  /** Each time that a key was sent gives at least one copy and at most `2^bits`, `bits` counting the one bits
      of the distance to its owner, if no message brings an empty key to a node that does not own it. */
  lemma CopiesBounded(n: nat, steps: seq<Step>, c: State, kind: Kind, x: Key)
    requires n > 0 && Reaches(Init(n), steps, c) && CleanRun(steps)
    ensures Times(kind, x, c.injected) <= Copies(c, kind, x) <= SpreadBound(kind, x, n, c.injected)
  {
    InitIsEmpty(n, Spread(kind, x, n));
    RunSpreads(Init(n), steps, c, kind, x, n);
    SizeIsFixed(Init(n), steps, c);
    RunKeepsEnough(Init(n), steps, c, kind, x);
    SpreadIsHeavier(kind, x, n);
    TotalAtMost(Counting(kind, x), Spread(kind, x, n), c);
  }

  /** In every reachable state of such a run the keys held anywhere are exactly those that clients have sent. */
  lemma KeysConserved(n: nat, steps: seq<Step>, c: State, kind: Kind, x: Key)
    requires n > 0 && Reaches(Init(n), steps, c) && CleanRun(steps)
    ensures Held(c, kind, x) <==> Sent(c, kind, x)
  {
    CopiesBounded(n, steps, c, kind, x);
    CopiesMeanHeld(c, kind, x);
    SentIffTimes(kind, x, c.injected);
    if !Sent(c, kind, x) {
      NotSentNoSpread(kind, x, n, c.injected);
    }
  }

  /** In every reachable state a node has only keys of its own in its output queue, its writing thread and
      what it has written, and never a key of its own on the way to another node. */
  lemma OwnersOnly(n: nat, steps: seq<Step>, c: State, i: nat, s: Slot)
    requires Reaches(Init(n), steps, c) && i < n
    ensures c.Size() == n
    ensures s.Output? || s.Writing? || s.Written? ==> OwnedBy(c.nodes[i].At(s), i, n)
    ensures s.Sorting? || s.Forwarding? ==> forall x :: x in c.nodes[i].At(s) ==> Owner(x, n) != i
  {
    InitIsEmpty(n, Measure(n));
    RunKeepsInv(Init(n), steps, c);
    SizeIsFixed(Init(n), steps, c);
    AtOk(c.nodes[i], s, i, n);
    if s.Sorting? || s.Forwarding? {
      assert RoutedBy(c.nodes[i].At(s), i, n, s.link);
      assert forall x :: x in c.nodes[i].At(s) ==> RoutesTo(x, i, n, s.link);
    }
  }

  /** Every run is bounded by its injections, whatever they are: it has at most one other step for each message
      that a client sent, and for each key in it `9 * 2^bits - 5`, times `9 * 2^n` if the key is empty. */
  lemma RunsEnd(n: nat, steps: seq<Step>, c: State)
    requires n > 0 && Reaches(Init(n), steps, c)
    ensures Work(steps) <= Injections(Measure(n), steps)
  {
    InitIsEmpty(n, Measure(n));
    MeasureDissipates(n);
    MeasureOfEmpty(n);
    RunDissipates(Init(n), steps, c, Measure(n));
  }
}

/** How the threads' loops appear among the steps of a cluster, and where the keys are when nothing can move.
 */
module Rounds {
  import opened Keys
  import opened Messages
  import opened Batching
  import opened Nodes
  import opened Cluster
  import opened Delivery
  import opened Weights
  import opened Sums
  import opened Ring
  import Packets

  lemma ReachesFirst(c: State, step: Step, steps: seq<Step>, c': State)
    requires Enabled(c, step) && Reaches(Apply(c, step), steps, c')
    ensures Reaches(c, [step] + steps, c')
  {
    var all := [step] + steps;
    assert all[0] == step && all[1..] == steps;
  }

  /** The state after a redirection thread has sent everything and ended. */
  function AfterRedirection(c: State, thread: nat): State
    requires thread in c.senders && c.senders[thread].target < c.Size()
  {
    var s := c.senders[thread];
    var node := c.nodes[s.target];
    c.WithNode(s.target, node.(inbox := node.inbox + Texts(Tag(s.kind), Batches(s.rest)))).(senders := c.senders - {thread})
  }

  /** A redirection thread that runs to its end makes one step for each of its batches, and these deliver
      the messages that `Redirect` sends, in order. */
  lemma {:induction false} RedirectionIsSends(c: State, thread: nat)
    requires thread in c.senders && c.senders[thread].target < c.Size()
    ensures var sends := seq(|Batches(c.senders[thread].rest)|, _ => Send(thread));
            Reaches(c, sends, AfterRedirection(c, thread))
    decreases |c.senders[thread].rest|
  {
    var s := c.senders[thread];
    var next := SendNext(c, thread);
    var sends := seq(|Batches(s.rest)|, _ => Send(thread));
    if |s.rest| >= BATCH_COUNT {
      RedirectionIsSends(next, thread);
      AfterFullBatch(c, thread);
      assert sends == [Send(thread)] + seq(|Batches(next.senders[thread].rest)|, _ => Send(thread));
      ReachesFirst(c, Send(thread), sends[1..], AfterRedirection(c, thread));
    } else {
      AfterLastBatch(c, thread);
      assert sends == [Send(thread)] + [];
      ReachesFirst(c, Send(thread), [], next);
    }
  }

  /** The same over the session that the thread really opens: what its collector puts into the inbound queue. */
  function AfterSession(c: State, thread: nat): State
    requires thread in c.senders && c.senders[thread].target < c.Size()
  {
    var s := c.senders[thread];
    var node := c.nodes[s.target];
    c.WithNode(s.target, node.(inbox := node.inbox + Packets.Received(Texts(Tag(s.kind), Batches(s.rest)))))
     .(senders := c.senders - {thread})
  }

  /** Delivery over the session is the reliable delivery of the steps exactly when no message of the thread has
      a length divisible by the buffer size or holds a NUL. */
  lemma SessionDeliversIff(c: State, thread: nat)
    requires thread in c.senders && c.senders[thread].target < c.Size()
    ensures AfterSession(c, thread) == AfterRedirection(c, thread)
            <==> forall text :: text in Texts(Tag(c.senders[thread].kind), Batches(c.senders[thread].rest)) ==> Packets.Intact(text)
  {
    var s := c.senders[thread];
    var inbox := c.nodes[s.target].inbox;
    var texts := Texts(Tag(s.kind), Batches(s.rest));
    Packets.MessagesComeBackIff(texts);
    if AfterSession(c, thread) == AfterRedirection(c, thread) {
      assert AfterSession(c, thread).nodes[s.target].inbox == AfterRedirection(c, thread).nodes[s.target].inbox;
      SameEnd(inbox, Packets.Received(texts), texts);
    }
  }

  lemma SameEnd(a: seq<string>, b: seq<string>, c: seq<string>)
    requires a + b == a + c
    ensures b == c
  {
    assert b == (a + b)[|a|..] && c == (a + c)[|a|..];
  }

  lemma AfterLastBatch(c: State, thread: nat)
    requires thread in c.senders && c.senders[thread].target < c.Size()
    requires |c.senders[thread].rest| < BATCH_COUNT
    ensures SendNext(c, thread) == AfterRedirection(c, thread)
  {
    var s := c.senders[thread];
    var text := EncodeAll(Tag(s.kind), s.rest);
    assert [s.rest] + [] == Batches(s.rest);
    TextsCons(Tag(s.kind), s.rest, []);
    assert [text] + Texts(Tag(s.kind), []) == [text];
  }

  lemma AfterFullBatch(c: State, thread: nat)
    requires thread in c.senders && c.senders[thread].target < c.Size()
    requires |c.senders[thread].rest| >= BATCH_COUNT
    ensures AfterRedirection(SendNext(c, thread), thread) == AfterRedirection(c, thread)
  {
    var s := c.senders[thread];
    var next := SendNext(c, thread);
    var rest := s.rest[BATCH_COUNT - 1..];
    TextsCons(Tag(s.kind), s.rest[..BATCH_COUNT], Batches(rest));
    AppendBoth(c.nodes[s.target].inbox, [EncodeAll(Tag(s.kind), s.rest[..BATCH_COUNT])], Texts(Tag(s.kind), Batches(rest)));
    assert next.senders - {thread} == c.senders - {thread};
    assert next.nodes[s.target := next.nodes[s.target]] == next.nodes;
  }

  lemma AppendBoth<T>(a: seq<T>, b: seq<T>, c: seq<T>)
    ensures a + (b + c) == (a + b) + c
  {
  }

  lemma TextsCons(tag: nat, batch: seq<Key>, rest: seq<seq<Key>>)
    ensures Texts(tag, [batch] + rest) == [EncodeAll(tag, batch)] + Texts(tag, rest)
  {
    assert ([batch] + rest)[1..] == rest;
  }

  lemma WithNodeTwice(c: State, i: nat, a: Node, b: Node)
    requires i < c.Size()
    ensures c.WithNode(i, a).WithNode(i, b) == c.WithNode(i, b)
  {
  }

  lemma {:induction false} RoutingIsSteps(c: State, i: nat, kind: Kind)
    requires i < c.Size()
    ensures var n := |c.nodes[i].At(Pending(kind))|;
            Reaches(c, seq(n, _ => RouteKey(i, kind)), c.WithNode(i, RouteAll(c.nodes[i], i, c.Size(), kind)))
    decreases |c.nodes[i].At(Pending(kind))|
  {
    var node := c.nodes[i];
    var keys := node.At(Pending(kind));
    if keys == [] {
      assert c.WithNode(i, node) == c;
    } else {
      var next := Apply(c, RouteKey(i, kind));
      assert next.nodes[i].At(Pending(kind)) == keys[1..];
      RoutingIsSteps(next, i, kind);
      var steps := seq(|keys|, _ => RouteKey(i, kind));
      assert steps == [RouteKey(i, kind)] + seq(|keys| - 1, _ => RouteKey(i, kind));
      var end := c.WithNode(i, RouteAll(node, i, c.Size(), kind));
      WithNodeTwice(c, i, next.nodes[i], end.nodes[i]);
      ReachesFirst(c, RouteKey(i, kind), steps[1..], end);
    }
  }

  /** One round of the consumer thread is a receive step followed by one routing step for each key. */
  lemma ConsumeIsSteps(c: State, i: nat)
    requires Enabled(c, ReceiveMessage(i))
    ensures var (kind, keys) := Carried(c.nodes[i].inbox[0]);
            Reaches(c, [ReceiveMessage(i)] + seq(|keys|, _ => RouteKey(i, kind)),
                    c.WithNode(i, RouteAll(Receive(c.nodes[i]), i, c.Size(), kind)))
  {
    var (kind, keys) := Carried(c.nodes[i].inbox[0]);
    var next := Apply(c, ReceiveMessage(i));
    assert next.nodes[i].At(Pending(kind)) == keys;
    RoutingIsSteps(next, i, kind);
    var end := RouteAll(Receive(c.nodes[i]), i, c.Size(), kind);
    WithNodeTwice(c, i, Receive(c.nodes[i]), end);
    ReachesFirst(c, ReceiveMessage(i), seq(|keys|, _ => RouteKey(i, kind)), c.WithNode(i, end));
  }

  // ---------- When nothing can move ----------

  ghost predicate Quiescent(c: State) {
    forall step :: Enabled(c, step) ==> step.Inject?
  }

  lemma FreshThread(senders: map<nat, Sender>) returns (t: nat)
    ensures t !in senders
  {
    t := 0;
    var seen := {};
    while t in senders
      invariant seen <= senders.Keys
      invariant forall k :: k in seen <==> 0 <= k < t
      decreases senders.Keys - seen
    {
      seen := seen + {t};
      t := t + 1;
    }
  }

  /** All queues are empty, no redirection thread is left, and no vector exceeds its threshold, except that of a
      thread for find keys whose last attempt to write it was held up by the lock. */
  lemma QuiescentShape(c: State, i: nat, s: Slot)
    requires Inv(c) && Quiescent(c) && i < c.Size()
    ensures c.nodes[i].inbox == [] && c.senders == map[]
    ensures s.Pending? || s.Sorting? || s.Output? ==> c.nodes[i].At(s) == []
    ensures s.Forwarding? || s == Writing(Store) ==> |c.nodes[i].At(s)| <= 1000
    ensures s == Writing(Find) ==> c.nodes[i].writer.Getting? && (|c.nodes[i].At(s)| <= 1000 <==> !c.nodes[i].writer.missed)
  {
    if t :| t in c.senders {
      assert SenderOk(c.senders[t], c.Size());
      assert c.senders[t].rest[0] in c.senders[t].rest;
      assert Enabled(c, Send(t));
    }
    assert c.senders.Keys == {};
    assert !Enabled(c, RouteKey(i, Store)) && !Enabled(c, RouteKey(i, Find));
    assert !Enabled(c, ReceiveMessage(i)) && !Enabled(c, MissLock(i));
    assert WriterOk(c.nodes[i]);
    var t := FreshThread(c.senders);
    match s
    case Pending(kind) =>
      assert !Enabled(c, RouteKey(i, kind));
    case Sorting(kind, link) =>
      assert !Enabled(c, Collect(i, kind, link)) && !Enabled(c, Spawn(i, kind, link, t));
    case Forwarding(kind, link) =>
      assert !Enabled(c, Spawn(i, kind, link, t));
    case Output(kind) =>
      assert !Enabled(c, CollectForOutput(i, kind)) && !Enabled(c, Write(i, kind));
    case Writing(kind) =>
      assert !Enabled(c, Write(i, kind));
    case _ =>
  }

  /** Where a key is that has stopped moving: with its owner, or in a vector that is not yet full. */
  predicate AtRest(c: State, kind: Kind, x: Key, i: nat, s: Slot)
    requires i < c.Size()
  {
    && s.kind == kind && x in c.nodes[i].At(s)
    && ((i == Owner(x, c.Size()) && (s.Writing? || s.Written?)) || (s.Forwarding? && |c.nodes[i].At(s)| <= THRESHOLD))
  }

  /** When nothing can move any more, every key that was sent is with its owner, or in the vector of a
      forwarding thread that has at most 1000 keys. */
  lemma QuiescentKeys(n: nat, steps: seq<Step>, c: State, kind: Kind, x: Key)
    requires n > 0 && Reaches(Init(n), steps, c) && CleanRun(steps)
    requires Quiescent(c) && Sent(c, kind, x)
    ensures exists i: nat, s :: i < c.Size() && AtRest(c, kind, x, i, s)
  {
    KeysConserved(n, steps, c, kind, x);
    InitIsEmpty(n, Measure(n));
    RunKeepsInv(Init(n), steps, c);
    SizeIsFixed(Init(n), steps, c);
    QuiescentShape(c, 0, Pending(kind));
    var i: nat :| i < c.Size() && NodeHolds(c.nodes[i], kind, x);
    QuiescentShape(c, i, Pending(kind));
    var s :| s in c.nodes[i].cells && s.kind == kind && x in c.nodes[i].cells[s];
    QuiescentShape(c, i, s);
    AtOk(c.nodes[i], s, i, n);
    assert AtRest(c, kind, x, i, s);
  }

  // ---------- How many copies have arrived ----------

  lemma {:induction false} CountingIsMultiplicity(kind: Kind, x: Key, i: nat, stage: Stage, keys: seq<Key>)
    ensures Weigh(Counting(kind, x), i, stage, kind, keys) == multiset(keys)[x] <= |keys|
  {
    if keys != [] {
      CountingIsMultiplicity(kind, x, i, stage, keys[1..]);
      assert keys == [keys[0]] + keys[1..];
    }
  }

  /** How many copies of a key its owner has written or is about to write. */
  function Delivered(c: State, kind: Kind, x: Key): nat
    requires c.Size() > 0
  {
    var owner := c.nodes[Owner(x, c.Size())];
    multiset(owner.At(Writing(kind)))[x] + multiset(owner.At(Written(kind)))[x]
  }

  /** Where a node at rest can have copies of a key that it owns, or that another node owns. */
  lemma RestingSlot(c: State, i: nat, kind: Kind, x: Key, s: Slot)
    requires Inv(c) && Quiescent(c) && i < c.Size() && s.kind == kind && x in c.nodes[i].At(s)
    ensures Owner(x, c.Size()) == i ==> s == Writing(kind) || s == Written(kind)
    ensures Owner(x, c.Size()) != i ==> s.Forwarding? && RoutesTo(x, i, c.Size(), s.link)
  {
    QuiescentShape(c, i, s);
    AtOk(c.nodes[i], s, i, c.Size());
  }

  lemma EmptyRest(c: State, i: nat, kind: Kind, x: Key, s: Slot)
    requires i < c.Size() && (s.kind != kind || x !in c.nodes[i].At(s))
    ensures SlotWeight(Counting(kind, x), i, c.nodes[i], s) == 0
  {
    WeighCounting(kind, x, i, StageOf(s), s.kind, c.nodes[i].At(s));
  }

  /** Two slots hold all copies of the key on a node at rest. */
  lemma TwoSlots(c: State, i: nat, kind: Kind, x: Key, a: Slot, b: Slot)
    requires Inv(c) && Quiescent(c) && i < c.Size() && a != b && a.kind == b.kind == kind
    requires forall s: Slot :: s.kind == kind && x in c.nodes[i].At(s) ==> s == a || s == b
    ensures NodeWeight(Counting(kind, x), i, c.nodes[i]) == multiset(c.nodes[i].At(a))[x] + multiset(c.nodes[i].At(b))[x]
  {
    var w, node := Counting(kind, x), c.nodes[i];
    QuiescentShape(c, i, a);
    forall s: Slot | s != a && s != b
      ensures SlotWeight(w, i, node, s) == 0
    {
      EmptyRest(c, i, kind, x, s);
    }
    SumOfTwo(node.cells.Keys, (s: Slot) => SlotWeight(w, i, node, s), a, b);
    CountingIsMultiplicity(kind, x, i, StageOf(a), node.At(a));
    CountingIsMultiplicity(kind, x, i, StageOf(b), node.At(b));
  }

  lemma OwnerAtRest(c: State, kind: Kind, x: Key)
    requires Inv(c) && Quiescent(c) && c.Size() > 0
    ensures NodeWeight(Counting(kind, x), Owner(x, c.Size()), c.nodes[Owner(x, c.Size())]) == Delivered(c, kind, x)
  {
    var i := Owner(x, c.Size());
    forall s: Slot | s.kind == kind && x in c.nodes[i].At(s)
      ensures s == Writing(kind) || s == Written(kind)
    {
      RestingSlot(c, i, kind, x, s);
    }
    TwoSlots(c, i, kind, x, Writing(kind), Written(kind));
  }

  lemma OtherAtRest(c: State, i: nat, kind: Kind, x: Key)
    requires Inv(c) && Quiescent(c) && i < c.Size() && i != Owner(x, c.Size())
    ensures NodeWeight(Counting(kind, x), i, c.nodes[i]) <= THRESHOLD
  {
    OtherNodeDistance(i, Owner(x, c.Size()), c.Size());
    var vector := Forwarding(kind, TopBit(Distance(i, Owner(x, c.Size()), c.Size())));
    forall s: Slot | s.kind == kind && x in c.nodes[i].At(s)
      ensures s == vector
    {
      RestingSlot(c, i, kind, x, s);
    }
    TwoSlots(c, i, kind, x, vector, Writing(kind));
    QuiescentShape(c, i, vector);
    CountingIsMultiplicity(kind, x, i, InForwarding, c.nodes[i].At(vector));
  }

  lemma CopiesAtRest(c: State, kind: Kind, x: Key)
    requires Inv(c) && Quiescent(c) && c.Size() > 0
    ensures Delivered(c, kind, x) <= Copies(c, kind, x) <= Delivered(c, kind, x) + THRESHOLD * (c.Size() - 1)
  {
    var weights := NodeWeights(Counting(kind, x), c.nodes);
    QuiescentShape(c, 0, Pending(kind));
    OwnerAtRest(c, kind, x);
    forall i | 0 <= i < |weights| && i != Owner(x, c.Size())
      ensures weights[i] <= THRESHOLD
    {
      OtherAtRest(c, i, kind, x);
    }
    SumSeqOneLarge(weights, Owner(x, c.Size()), THRESHOLD);
  }

  /** When nothing can move any more, the owner of a key has a copy for every time that it was sent, but for at
      most 1000 on each other node, and it has no more than the hops can have made. */
  lemma QuiescentDelivered(n: nat, steps: seq<Step>, c: State, kind: Kind, x: Key)
    requires n > 0 && Reaches(Init(n), steps, c) && CleanRun(steps) && Quiescent(c)
    ensures c.Size() == n
    ensures Times(kind, x, c.injected) <= Delivered(c, kind, x) + THRESHOLD * (n - 1)
    ensures Delivered(c, kind, x) <= SpreadBound(kind, x, n, c.injected)
  {
    InitIsEmpty(n, Measure(n));
    RunKeepsInv(Init(n), steps, c);
    SizeIsFixed(Init(n), steps, c);
    CopiesBounded(n, steps, c, kind, x);
    CopiesAtRest(c, kind, x);
  }
}

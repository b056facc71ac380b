/** Messages are consumed in the order in which they come in, and the keys of a queue leave it in theirs.
 */
module Arrivals {
  import opened Keys
  import opened Messages
  import opened Batching
  import opened Ring
  import opened Nodes
  import opened Cluster
  import opened Rounds
  import opened Runs

  /** The message that a step puts into the inbound queue of node `i`, if any. */
  function Arrival(c: State, step: Step, i: nat): seq<string>
    requires Enabled(c, step)
  {
    match step
    case Inject(j, text) => if j == i then [text] else []
    case Send(thread) => if c.senders[thread].target == i then [SentText(c.senders[thread])] else []
    case _ => []
  }

  /** All messages that come in at node `i` in a run. */
  function Incoming(c: State, steps: seq<Step>, i: nat): seq<string>
    decreases |steps|
  {
    if steps == [] || !Enabled(c, steps[0]) then []
    else Arrival(c, steps[0], i) + Incoming(Apply(c, steps[0]), steps[1..], i)
  }

  /** How many messages node `i` consumes. */
  function Consumed(steps: seq<Step>, i: nat): nat {
    if steps == [] then 0 else (if steps[0] == ReceiveMessage(i) then 1 else 0) + Consumed(steps[1..], i)
  }

  lemma StepMovesInbox(c: State, step: Step, i: nat)
    requires Enabled(c, step) && i < c.Size()
    ensures Apply(c, step).Size() == c.Size()
    ensures step == ReceiveMessage(i) ==> c.nodes[i].inbox != []
    ensures Apply(c, step).nodes[i].inbox
            == (if step == ReceiveMessage(i) then c.nodes[i].inbox[1..] else c.nodes[i].inbox) + Arrival(c, step, i)
  {
    match step
    case RouteKey(j, k) =>
      MoveAt(c.nodes[j], Pending(k), RouteSlot(j, c.Size(), k, c.nodes[j].At(Pending(k))[0]), Pending(k));
    case Collect(j, k, link) => MoveAt(c.nodes[j], Sorting(k, link), Forwarding(k, link), Pending(k));
    case CollectForOutput(j, k) => MoveAt(c.nodes[j], Output(k), Writing(k), Pending(k));
    case _ =>
  }

  /** In every run a node consumes the messages in the order in which they have come in. */
  lemma {:induction false} InboxIsFifo(c: State, steps: seq<Step>, c': State, i: nat)
    requires Reaches(c, steps, c') && i < c.Size()
    ensures c'.Size() == c.Size()
    ensures Consumed(steps, i) <= |c.nodes[i].inbox + Incoming(c, steps, i)|
    ensures c'.nodes[i].inbox == (c.nodes[i].inbox + Incoming(c, steps, i))[Consumed(steps, i)..]
    decreases |steps|
  {
    if steps == [] {
      assert c.nodes[i].inbox + [] == c.nodes[i].inbox;
    } else {
      var next := Apply(c, steps[0]);
      StepMovesInbox(c, steps[0], i);
      InboxIsFifo(next, steps[1..], c', i);
      FifoStep(c.nodes[i].inbox, next.nodes[i].inbox, Arrival(c, steps[0], i), Incoming(next, steps[1..], i),
               steps[0] == ReceiveMessage(i), Consumed(steps[1..], i), c'.nodes[i].inbox);
    }
  }

  /** One step of a queue from which elements are taken in front while others are put behind. */
  lemma FifoStep<T>(queue: seq<T>, next: seq<T>, one: seq<T>, later: seq<T>, taken: bool, k: nat, end: seq<T>)
    requires (taken ==> queue != []) && next == (if taken then queue[1..] else queue) + one
    requires k <= |next + later| && end == (next + later)[k..]
    ensures var k' := if taken then 1 + k else 0 + k;
            k' <= |queue + (one + later)| && end == (queue + (one + later))[k'..]
  {
    assert queue + (one + later) == (queue + one) + later;
    if taken {
      assert queue + (one + later) == [queue[0]] + (next + later);
    }
  }

  /** What the consumer is going to route are the keys of the message that it took. */
  lemma ConsumesFirst(c: State, i: nat)
    requires Enabled(c, ReceiveMessage(i))
    ensures var (kind, keys) := Carried(c.nodes[i].inbox[0]); Apply(c, ReceiveMessage(i)).nodes[i].At(Pending(kind)) == keys
  {
  }

  // ---------- Queues of keys ----------

  /** The keys that a run routes to a queue of node `i`. */
  function RoutedIn(c: State, steps: seq<Step>, i: nat, s: Slot): seq<Key>
    decreases |steps|
  {
    if steps == [] || !Enabled(c, steps[0]) then []
    else OneRoutedIn(c, steps[0], i, s) + RoutedIn(Apply(c, steps[0]), steps[1..], i, s)
  }

  function OneRoutedIn(c: State, step: Step, i: nat, s: Slot): seq<Key>
    requires Enabled(c, step)
  {
    if step.RouteKey? && step.i == i && RouteSlot(i, c.Size(), step.kind, c.nodes[i].At(Pending(step.kind))[0]) == s
    then [c.nodes[i].At(Pending(step.kind))[0]] else []
  }

  /** The step by which a forwarding or writing thread takes a key from the queue. */
  function Taking(i: nat, s: Slot): Step
    requires s.Sorting? || s.Output?
  {
    if s.Sorting? then Collect(i, s.kind, s.link) else CollectForOutput(i, s.kind)
  }

  /** The vector that the thread fills. */
  function VectorOf(s: Slot): Slot
    requires s.Sorting? || s.Output?
  {
    if s.Sorting? then Forwarding(s.kind, s.link) else Writing(s.kind)
  }

  function TakenOut(steps: seq<Step>, i: nat, s: Slot): nat
    requires s.Sorting? || s.Output?
  {
    if steps == [] then 0 else (if steps[0] == Taking(i, s) then 1 else 0) + TakenOut(steps[1..], i, s)
  }

  lemma StepMovesQueue(c: State, step: Step, i: nat, s: Slot)
    requires Enabled(c, step) && i < c.Size() && (s.Sorting? || s.Output?)
    ensures Apply(c, step).Size() == c.Size()
    ensures step == Taking(i, s) ==> c.nodes[i].At(s) != []
    ensures Apply(c, step).nodes[i].At(s)
            == (if step == Taking(i, s) then c.nodes[i].At(s)[1..] else c.nodes[i].At(s)) + OneRoutedIn(c, step, i, s)
  {
    match step
    case RouteKey(j, k) => RouteMovesQueue(c, j, k, i, s);
    case Collect(j, k, link) => CollectMovesQueue(c, j, k, link, i, s);
    case CollectForOutput(j, k) => OutputMovesQueue(c, j, k, i, s);
    case _ => OtherLeavesQueue(c, step, i, s);
  }

  lemma OtherLeavesQueue(c: State, step: Step, i: nat, s: Slot)
    requires Enabled(c, step) && i < c.Size() && (s.Sorting? || s.Output?)
    requires !step.RouteKey? && !step.Collect? && !step.CollectForOutput?
    ensures Apply(c, step).Size() == c.Size() && Apply(c, step).nodes[i].At(s) == c.nodes[i].At(s)
    ensures OneRoutedIn(c, step, i, s) == []
  {
    match step
    case Write(j, k) => WriteLeavesQueue(c.nodes[j], k, s);
    case Send(thread) => SendLeavesQueue(c, thread, i, s);
    case _ =>
  }

  lemma WriteLeavesQueue(node: Node, kind: Kind, s: Slot)
    requires s.Sorting? || s.Output?
    ensures WriteBatch(node, kind).At(s) == node.At(s)
  {
  }

  lemma SendLeavesQueue(c: State, thread: nat, i: nat, s: Slot)
    requires Enabled(c, Send(thread)) && i < c.Size()
    ensures Apply(c, Send(thread)).Size() == c.Size() && Apply(c, Send(thread)).nodes[i].At(s) == c.nodes[i].At(s)
  {
    SendLeavesCells(c, thread, i);
  }

  lemma RouteMovesQueue(c: State, j: nat, k: Kind, i: nat, s: Slot)
    requires Enabled(c, RouteKey(j, k)) && i < c.Size() && (s.Sorting? || s.Output?)
    ensures Apply(c, RouteKey(j, k)).nodes[i].At(s) == c.nodes[i].At(s) + OneRoutedIn(c, RouteKey(j, k), i, s)
  {
    MoveAt(c.nodes[j], Pending(k), RouteSlot(j, c.Size(), k, c.nodes[j].At(Pending(k))[0]), s);
  }

  lemma CollectMovesQueue(c: State, j: nat, k: Kind, link: nat, i: nat, s: Slot)
    requires Enabled(c, Collect(j, k, link)) && i < c.Size() && (s.Sorting? || s.Output?)
    ensures Collect(j, k, link) == Taking(i, s) ==> c.nodes[i].At(s) != []
    ensures Apply(c, Collect(j, k, link)).nodes[i].At(s)
            == if Collect(j, k, link) == Taking(i, s) then c.nodes[i].At(s)[1..] else c.nodes[i].At(s)
  {
    MoveAt(c.nodes[j], Sorting(k, link), Forwarding(k, link), s);
  }

  lemma OutputMovesQueue(c: State, j: nat, k: Kind, i: nat, s: Slot)
    requires Enabled(c, CollectForOutput(j, k)) && i < c.Size() && (s.Sorting? || s.Output?)
    ensures CollectForOutput(j, k) == Taking(i, s) ==> c.nodes[i].At(s) != []
    ensures Apply(c, CollectForOutput(j, k)).nodes[i].At(s)
            == if CollectForOutput(j, k) == Taking(i, s) then c.nodes[i].At(s)[1..] else c.nodes[i].At(s)
  {
    MoveAt(c.nodes[j], Output(k), Writing(k), s);
  }

  /** In every run the threads take the keys of a queue in the order in which the consumer has put them there. */
  lemma {:induction false} QueueIsFifo(c: State, steps: seq<Step>, c': State, i: nat, s: Slot)
    requires Reaches(c, steps, c') && i < c.Size() && (s.Sorting? || s.Output?)
    ensures c'.Size() == c.Size()
    ensures TakenOut(steps, i, s) <= |c.nodes[i].At(s) + RoutedIn(c, steps, i, s)|
    ensures c'.nodes[i].At(s) == (c.nodes[i].At(s) + RoutedIn(c, steps, i, s))[TakenOut(steps, i, s)..]
    decreases |steps|
  {
    if steps == [] {
      assert c.nodes[i].At(s) + [] == c.nodes[i].At(s);
    } else {
      var next := Apply(c, steps[0]);
      StepMovesQueue(c, steps[0], i, s);
      QueueIsFifo(next, steps[1..], c', i, s);
      FifoStep(c.nodes[i].At(s), next.nodes[i].At(s), OneRoutedIn(c, steps[0], i, s), RoutedIn(next, steps[1..], i, s),
               steps[0] == Taking(i, s), TakenOut(steps[1..], i, s), c'.nodes[i].At(s));
    }
  }

  /** The key taken goes to the end of the thread's vector. */
  lemma TakenGoesLast(c: State, i: nat, s: Slot)
    requires (s.Sorting? || s.Output?) && Enabled(c, Taking(i, s))
    ensures Apply(c, Taking(i, s)).nodes[i].At(VectorOf(s)) == c.nodes[i].At(VectorOf(s)) + [c.nodes[i].At(s)[0]]
  {
    if s.Sorting? {
      MoveAt(c.nodes[i], s, VectorOf(s), s);
    } else {
      MoveAt(c.nodes[i], s, VectorOf(s), s);
    }
  }

  /** A full vector that is handed over, and whose redirection thread then runs to its end, arrives in its batches, in
      order and behind what waits there, at the node that is `2^link` places on, and leaves an empty vector. */
  lemma VectorArrives(c: State, i: nat, kind: Kind, link: nat, thread: nat) returns (c': State)
    requires Enabled(c, Spawn(i, kind, link, thread)) && (i + Pow2(link)) % c.Size() != i
    ensures var keys, target := c.nodes[i].At(Forwarding(kind, link)), (i + Pow2(link)) % c.Size();
            && Reaches(c, [Spawn(i, kind, link, thread)] + seq(|Batches(keys)|, _ => Send(thread)), c')
            && c'.Size() == c.Size() && c'.senders == c.senders && c'.nodes[i].At(Forwarding(kind, link)) == []
            && c'.nodes[target].inbox == c.nodes[target].inbox + Texts(Tag(kind), Batches(keys))
  {
    var keys := c.nodes[i].At(Forwarding(kind, link));
    var c1 := Apply(c, Spawn(i, kind, link, thread));
    SpawnHandsOver(c, i, kind, link, thread, c1);
    RedirectionIsSends(c1, thread);
    c' := AfterRedirection(c1, thread);
    ReachesFirst(c, Spawn(i, kind, link, thread), seq(|Batches(keys)|, _ => Send(thread)), c');
  }

  lemma SpawnHandsOver(c: State, i: nat, kind: Kind, link: nat, thread: nat, c1: State)
    requires Enabled(c, Spawn(i, kind, link, thread)) && c1 == Apply(c, Spawn(i, kind, link, thread))
    ensures var target := (i + Pow2(link)) % c.Size();
            && thread in c1.senders && c1.senders[thread].kind == kind && c1.senders[thread].target == target < c1.Size()
            && c1.senders[thread].rest == c.nodes[i].At(Forwarding(kind, link)) && c1.senders - {thread} == c.senders
            && c1.Size() == c.Size() && c1.nodes[i].At(Forwarding(kind, link)) == []
            && (target != i ==> c1.nodes[target] == c.nodes[target])
  {
  }
}

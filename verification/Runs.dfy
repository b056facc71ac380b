/** Building runs of a cluster: messages that are routed at once, vectors that fill up, and what the state is then. */
module Runs {
  import opened Keys
  import opened Batching
  import opened Messages
  import opened Nodes
  import opened Cluster
  import opened Rounds
  import Packets

  /** Every injection but those of one message to one node is clean. */
  predicate AllowedRun(steps: seq<Step>, i: nat, text: string) {
    forall j :: 0 <= j < |steps| ==> CleanStep(steps[j]) || steps[j] == Inject(i, text)
  }

  ghost predicate CanReach(i: nat, text: string, c: State, c': State) {
    exists steps :: Reaches(c, steps, c') && AllowedRun(steps, i, text)
  }

  /** The next message of a redirection thread. */
  function SentText(s: Sender): string {
    EncodeAll(Tag(s.kind), if |s.rest| >= BATCH_COUNT then s.rest[..BATCH_COUNT] else s.rest)
  }

  /** A clean message that comes out of a session as it went in, or the message in question. */
  predicate Sendable(j: nat, message: string, i: nat, text: string) {
    (Clean(j, message) && Packets.Intact(message)) || (j == i && message == text)
  }

  /** A step that puts no message on its way, or a sendable one. */
  predicate Arrives(c: State, step: Step, i: nat, text: string) {
    match step
    case Inject(j, message) => Sendable(j, message, i, text)
    case Send(thread) => thread in c.senders && Packets.Intact(SentText(c.senders[thread]))
    case _ => true
  }

  /** A run all of whose messages, but the one in question, come out of their sessions as they went in. */
  predicate RealRun(c: State, steps: seq<Step>, c': State, i: nat, text: string)
    decreases |steps|
  {
    if steps == [] then c' == c
    else Enabled(c, steps[0]) && Arrives(c, steps[0], i, text) && RealRun(Apply(c, steps[0]), steps[1..], c', i, text)
  }

  ghost predicate CanSend(i: nat, text: string, c: State, c': State) {
    exists steps :: RealRun(c, steps, c', i, text)
  }

  lemma {:induction false} RealIsRun(c: State, steps: seq<Step>, c': State, i: nat, text: string)
    requires RealRun(c, steps, c', i, text)
    ensures Reaches(c, steps, c') && AllowedRun(steps, i, text)
    decreases |steps|
  {
    if steps != [] {
      RealIsRun(Apply(c, steps[0]), steps[1..], c', i, text);
      assert forall j :: 0 < j < |steps| ==> steps[j] == steps[1..][j - 1];
    }
  }

  lemma SendIsReach(i: nat, text: string, c: State, c': State)
    requires CanSend(i, text, c, c')
    ensures CanReach(i, text, c, c')
  {
    var steps :| RealRun(c, steps, c', i, text);
    RealIsRun(c, steps, c', i, text);
  }

  /** The steps of one node's consumer put no message on its way. */
  lemma {:induction false} QuietRun(i: nat, text: string, c: State, steps: seq<Step>, c': State)
    requires Reaches(c, steps, c') && forall j :: 0 <= j < |steps| ==> !steps[j].Inject? && !steps[j].Send?
    ensures RealRun(c, steps, c', i, text)
    decreases |steps|
  {
    if steps != [] {
      assert forall j :: 0 <= j < |steps[1..]| ==> steps[1..][j] == steps[j + 1];
      QuietRun(i, text, Apply(c, steps[0]), steps[1..], c');
    }
  }

  lemma Stay(i: nat, text: string, c: State)
    ensures CanSend(i, text, c, c)
  {
    assert RealRun(c, [], c, i, text);
  }

  lemma One(i: nat, text: string, c: State, step: Step)
    requires Enabled(c, step) && Arrives(c, step, i, text)
    ensures CanSend(i, text, c, Apply(c, step))
  {
    var steps := [step];
    assert steps[1..] == [];
    assert RealRun(c, steps, Apply(c, step), i, text);
  }

  lemma SplitFirst(steps1: seq<Step>, steps2: seq<Step>)
    requires steps1 != []
    ensures (steps1 + steps2)[0] == steps1[0] && (steps1 + steps2)[1..] == steps1[1..] + steps2
  {
  }

  lemma {:induction false} RunsJoin(c: State, steps1: seq<Step>, c1: State, steps2: seq<Step>, c2: State, i: nat, text: string)
    requires RealRun(c, steps1, c1, i, text) && RealRun(c1, steps2, c2, i, text)
    ensures RealRun(c, steps1 + steps2, c2, i, text)
    decreases |steps1|
  {
    if steps1 == [] {
      assert steps1 + steps2 == steps2;
    } else {
      SplitFirst(steps1, steps2);
      RunsJoin(Apply(c, steps1[0]), steps1[1..], c1, steps2, c2, i, text);
    }
  }

  lemma Then(i: nat, text: string, c: State, c1: State, c2: State)
    requires CanSend(i, text, c, c1) && CanSend(i, text, c1, c2)
    ensures CanSend(i, text, c, c2)
  {
    var steps1 :| RealRun(c, steps1, c1, i, text);
    var steps2 :| RealRun(c1, steps2, c2, i, text);
    RunsJoin(c, steps1, c1, steps2, c2, i, text);
  }

  // ---------- A message that is routed at once ----------

  /** The keys that node `i` puts into the slot, in order. */
  function RoutedTo(keys: seq<Key>, i: nat, n: nat, kind: Kind, s: Slot): seq<Key>
    requires i < n
  {
    if keys == [] then []
    else (if RouteSlot(i, n, kind, keys[0]) == s then [keys[0]] else []) + RoutedTo(keys[1..], i, n, kind, s)
  }

  /** Routing a message puts its keys behind those that the queues have. */
  lemma {:induction false} RouteAllAt(node: Node, i: nat, n: nat, kind: Kind, s: Slot)
    requires i < n
    ensures var next := RouteAll(node, i, n, kind);
            && next.inbox == node.inbox && next.writer == node.writer
            && next.At(Pending(kind)) == []
            && (s != Pending(kind) ==> next.At(s) == node.At(s) + RoutedTo(node.At(Pending(kind)), i, n, kind, s))
    decreases |node.At(Pending(kind))|
  {
    if node.At(Pending(kind)) != [] {
      RouteOneAt(node, i, n, kind, s);
      RouteAllAt(RouteOne(node, i, n, kind), i, n, kind, s);
    }
  }

  lemma RouteOneAt(node: Node, i: nat, n: nat, kind: Kind, s: Slot)
    requires i < n && node.At(Pending(kind)) != []
    ensures var keys, one := node.At(Pending(kind)), RouteOne(node, i, n, kind);
            && one.inbox == node.inbox && one.writer == node.writer && one.At(Pending(kind)) == keys[1..]
            && (s != Pending(kind) ==>
                  one.At(s) + RoutedTo(keys[1..], i, n, kind, s) == node.At(s) + RoutedTo(keys, i, n, kind, s))
  {
    var keys := node.At(Pending(kind));
    var target := RouteSlot(i, n, kind, keys[0]);
    MoveAt(node, Pending(kind), target, s);
    MoveAt(node, Pending(kind), target, Pending(kind));
    if s != Pending(kind) {
      var rest := RoutedTo(keys[1..], i, n, kind, s);
      assert node.At(s) + ([keys[0]] + rest) == (node.At(s) + [keys[0]]) + rest;
    }
  }

  lemma MoveAt(node: Node, source: Slot, target: Slot, s: Slot)
    requires source != target && node.At(source) != []
    ensures var next := Move(node, source, target);
            && next.inbox == node.inbox && next.writer == node.writer
            && next.At(source) == node.At(source)[1..]
            && next.At(target) == node.At(target) + [node.At(source)[0]]
            && (s != source && s != target ==> next.At(s) == node.At(s))
  {
  }

  /** A message comes in: the keys on the nodes stay where they are. */
  lemma SendLeavesCells(c: State, thread: nat, i: nat)
    requires Enabled(c, Send(thread)) && i < c.Size()
    ensures Apply(c, Send(thread)).Size() == c.Size() && Apply(c, Send(thread)).nodes[i].cells == c.nodes[i].cells
  {
    var s := c.senders[thread];
    var keys := if |s.rest| >= BATCH_COUNT then s.rest[..BATCH_COUNT] else s.rest;
    DeliverLeavesCells(c, s.target, s.kind, keys, i);
  }

  lemma DeliverLeavesCells(c: State, j: nat, kind: Kind, keys: seq<Key>, i: nat)
    requires i < c.Size() && j < c.Size()
    ensures c.WithNode(j, Deliver(c.nodes[j], kind, keys)).nodes[i].cells == c.nodes[i].cells
  {
  }

  lemma {:induction false} RoutedLast(keys: seq<Key>, i: nat, n: nat, kind: Kind, s: Slot)
    requires i < n && keys != [] && RouteSlot(i, n, kind, keys[|keys| - 1]) == s
    ensures var r := RoutedTo(keys, i, n, kind, s);
            r != [] && r[|r| - 1] == keys[|keys| - 1]
  {
    if |keys| > 1 {
      RoutedLast(keys[1..], i, n, kind, s);
    }
  }

  lemma {:induction false} RoutedAll(keys: seq<Key>, i: nat, n: nat, kind: Kind, s: Slot)
    requires i < n && forall x :: x in keys ==> RouteSlot(i, n, kind, x) == s
    ensures RoutedTo(keys, i, n, kind, s) == keys
  {
    if keys != [] {
      RoutedAll(keys[1..], i, n, kind, s);
      assert keys == [keys[0]] + keys[1..];
    }
  }

  lemma {:induction false} RoutedNone(keys: seq<Key>, i: nat, n: nat, kind: Kind, s: Slot)
    requires i < n && forall x :: x in keys ==> RouteSlot(i, n, kind, x) != s
    ensures RoutedTo(keys, i, n, kind, s) == []
  {
    if keys != [] {
      RoutedNone(keys[1..], i, n, kind, s);
    }
  }

  /** Nothing waits for the consumer of the node. */
  predicate Settled(node: Node) {
    node.inbox == [] && node.At(Pending(Store)) == [] && node.At(Pending(Find)) == []
  }

  /** The state after a client's message has been consumed. */
  function AfterMessage(c: State, j: nat, message: string): State
    requires j < c.Size()
  {
    var (kind, keys) := Carried(message);
    c.WithNode(j, RouteAll(Receive(Accept(c.nodes[j], message)), j, c.Size(), kind))
     .(injected := c.injected + History(j, kind, keys))
  }

  lemma MessageRouted(i: nat, text: string, c: State, j: nat, message: string)
    requires j < c.Size() && Settled(c.nodes[j]) && Sendable(j, message, i, text)
    ensures CanSend(i, text, c, AfterMessage(c, j, message))
  {
    var c1 := Apply(c, Inject(j, message));
    One(i, text, c, Inject(j, message));
    AcceptedIsRouted(i, text, c, c1, j, message, Carried(message).0, Carried(message).1);
    Then(i, text, c, c1, AfterMessage(c, j, message));
  }

  lemma AcceptedIsRouted(i: nat, text: string, c: State, c1: State, j: nat, message: string, kind: Kind, keys: seq<Key>)
    requires j < c.Size() && Settled(c.nodes[j]) && Carried(message) == (kind, keys)
    requires c1 == c.WithNode(j, Accept(c.nodes[j], message)).(injected := c.injected + History(j, kind, keys))
    ensures CanSend(i, text, c1, AfterMessage(c, j, message))
  {
    assert c1.nodes[j].inbox == [message];
    assert c1.nodes[j].At(Pending(Store)) == [] && c1.nodes[j].At(Pending(Find)) == [];
    ConsumeIsSteps(c1, j);
    var steps := [ReceiveMessage(j)] + seq(|keys|, _ => RouteKey(j, kind));
    WithNodeTwice(c, j, c1.nodes[j], AfterMessage(c, j, message).nodes[j]);
    QuietRun(i, text, c1, steps, AfterMessage(c, j, message));
  }

  lemma AfterMessageAt(c: State, j: nat, message: string, s: Slot)
    requires j < c.Size() && Settled(c.nodes[j])
    ensures var next := AfterMessage(c, j, message).nodes[j];
            && Settled(next) && next.writer == c.nodes[j].writer
            && (!s.Pending? ==>
                  next.At(s) == c.nodes[j].At(s) + RoutedTo(Carried(message).1, j, c.Size(), Carried(message).0, s))
  {
    var (kind, keys) := Carried(message);
    var node := Receive(Accept(c.nodes[j], message));
    assert node.inbox == [] && node.At(Pending(kind)) == keys;
    RouteAllAt(node, j, c.Size(), kind, s);
    RouteAllAt(node, j, c.Size(), kind, Pending(if kind == Store then Find else Store));
    NeverPending(keys, j, c.Size(), kind, if kind == Store then Find else Store);
  }

  lemma NeverPending(keys: seq<Key>, i: nat, n: nat, kind: Kind, other: Kind)
    requires i < n
    ensures RoutedTo(keys, i, n, kind, Pending(other)) == []
  {
    RoutedNone(keys, i, n, kind, Pending(other));
  }

  // ---------- Vectors that fill up ----------

  /** The first `m` keys of one slot of a node have gone to the end of another, and nothing else has happened. */
  predicate Moved(c: State, c': State, j: nat, a: Slot, b: Slot, m: nat) {
    && j < c.Size() == c'.Size() && c'.nodes == c.nodes[j := c'.nodes[j]]
    && c'.senders == c.senders && c'.injected == c.injected
    && c'.nodes[j].inbox == c.nodes[j].inbox && c'.nodes[j].writer == c.nodes[j].writer
    && m <= |c.nodes[j].At(a)|
    && c'.nodes[j].At(a) == c.nodes[j].At(a)[m..]
    && c'.nodes[j].At(b) == c.nodes[j].At(b) + c.nodes[j].At(a)[..m]
  }

  ghost predicate OthersSame(node: Node, node': Node, a: Slot, b: Slot) {
    forall s :: s != a && s != b ==> node'.At(s) == node.At(s)
  }

  lemma NothingMoved(c: State, j: nat, a: Slot, b: Slot)
    requires j < c.Size()
    ensures Moved(c, c, j, a, b, 0) && OthersSame(c.nodes[j], c.nodes[j], a, b)
  {
  }

  lemma OneMoved(c: State, j: nat, a: Slot, b: Slot)
    requires j < c.Size() && a != b && c.nodes[j].At(a) != []
    ensures var c' := c.WithNode(j, Move(c.nodes[j], a, b));
            Moved(c, c', j, a, b, 1) && OthersSame(c.nodes[j], c'.nodes[j], a, b)
  {
    var keys := c.nodes[j].At(a);
    assert keys[..1] == [keys[0]];
    MoveAt(c.nodes[j], a, b, a);
  }

  lemma MovedOneMore(c: State, c1: State, c2: State, j: nat, a: Slot, b: Slot, m: nat)
    requires Moved(c, c1, j, a, b, m) && Moved(c1, c2, j, a, b, 1)
    requires OthersSame(c.nodes[j], c1.nodes[j], a, b) && OthersSame(c1.nodes[j], c2.nodes[j], a, b)
    ensures Moved(c, c2, j, a, b, m + 1) && OthersSame(c.nodes[j], c2.nodes[j], a, b)
  {
    var keys := c.nodes[j].At(a);
    assert keys[m..][1..] == keys[m + 1..];
    assert keys[..m] + keys[m..][..1] == keys[..m + 1];
  }

  lemma {:induction false} CollectMany(i: nat, text: string, c: State, j: nat, kind: Kind, link: nat, m: nat) returns (c': State)
    requires j < c.Size() && |c.nodes[j].At(Sorting(kind, link))| >= m
    requires |c.nodes[j].At(Forwarding(kind, link))| + m <= THRESHOLD + 1
    ensures CanSend(i, text, c, c')
    ensures Moved(c, c', j, Sorting(kind, link), Forwarding(kind, link), m)
    ensures OthersSame(c.nodes[j], c'.nodes[j], Sorting(kind, link), Forwarding(kind, link))
  {
    var a, b := Sorting(kind, link), Forwarding(kind, link);
    if m == 0 {
      c' := c;
      Stay(i, text, c);
      NothingMoved(c, j, a, b);
    } else {
      var c1 := CollectMany(i, text, c, j, kind, link, m - 1);
      var step := Collect(j, kind, link);
      c' := Apply(c1, step);
      One(i, text, c1, step);
      Then(i, text, c, c1, c');
      OneMoved(c1, j, a, b);
      MovedOneMore(c, c1, c', j, a, b, m - 1);
    }
  }

  lemma {:induction false} CollectOutputs(i: nat, text: string, c: State, j: nat, m: nat) returns (c': State)
    requires j < c.Size() && |c.nodes[j].At(Output(Find))| >= m && c.nodes[j].writer.Getting?
    requires |c.nodes[j].At(Writing(Find))| + m <= THRESHOLD
    ensures CanSend(i, text, c, c')
    ensures Moved(c, c', j, Output(Find), Writing(Find), m)
    ensures OthersSame(c.nodes[j], c'.nodes[j], Output(Find), Writing(Find))
  {
    var a, b := Output(Find), Writing(Find);
    if m == 0 {
      c' := c;
      Stay(i, text, c);
      NothingMoved(c, j, a, b);
    } else {
      var c1 := CollectOutputs(i, text, c, j, m - 1);
      var step := CollectForOutput(j, Find);
      c' := Apply(c1, step);
      One(i, text, c1, step);
      Then(i, text, c, c1, c');
      OneMoved(c1, j, a, b);
      MovedOneMore(c, c1, c', j, a, b, m - 1);
    }
  }

  /** A node where a link's forwarding thread is about to collect these keys. */
  predicate Queued(c: State, n: nat, j: nat, kind: Kind, link: nat, keys: seq<Key>) {
    && c.Size() == n && j < n && Settled(c.nodes[j])
    && c.nodes[j].At(Sorting(kind, link)) == keys && c.nodes[j].At(Forwarding(kind, link)) == []
  }

  /** The forwarding thread fills its vector and hands it to a redirection thread, which has not sent it yet. */
  lemma DrainVector(i: nat, text: string, c: State, n: nat, j: nat, kind: Kind, link: nat, keys: seq<Key>)
    returns (c': State, thread: nat)
    requires Queued(c, n, j, kind, link, keys) && |keys| > THRESHOLD
    ensures CanSend(i, text, c, c') && Queued(c', n, j, kind, link, keys[THRESHOLD + 1..])
    ensures c'.injected == c.injected && thread in c'.senders
    ensures c'.senders[thread] == Sender(j, LinkTarget(j, link, n), kind, keys[..THRESHOLD + 1], false)
  {
    var c1 := CollectMany(i, text, c, j, kind, link, THRESHOLD + 1);
    thread := FreshThread(c1.senders);
    var step := Spawn(j, kind, link, thread);
    c' := Apply(c1, step);
    assert c1.nodes[j].At(Forwarding(kind, link)) == keys[..THRESHOLD + 1];
    One(i, text, c1, step);
    Then(i, text, c, c1, c');
  }

  lemma {:induction false} DrainMany(i: nat, text: string, c: State, n: nat, j: nat, kind: Kind, link: nat, keys: seq<Key>, r: nat)
    returns (c': State)
    requires Queued(c, n, j, kind, link, keys) && |keys| >= (THRESHOLD + 1) * r
    ensures CanSend(i, text, c, c') && Queued(c', n, j, kind, link, keys[(THRESHOLD + 1) * r..])
    ensures c'.injected == c.injected
    decreases r
  {
    if r == 0 {
      c' := c;
      Stay(i, text, c);
      assert keys[0..] == keys;
    } else {
      var c1, thread := DrainVector(i, text, c, n, j, kind, link, keys);
      var rest := keys[THRESHOLD + 1..];
      c' := DrainMany(i, text, c1, n, j, kind, link, rest, r - 1);
      Then(i, text, c, c1, c');
      assert rest[(THRESHOLD + 1) * (r - 1)..] == keys[(THRESHOLD + 1) * r..];
    }
  }
}

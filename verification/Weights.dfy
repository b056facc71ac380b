/** Weights on the copies of keys in a cluster, and what every step does to their total. */
module Weights {
  import opened Keys
  import opened Messages
  import opened Batching
  import opened Nodes
  import opened Sums
  import opened Cluster

  /** How far a copy has come on a node. `Unsent` and `SentOnce` are in a redirection thread. */
  datatype Stage =
    InInbox | InPending | InSorting | InForwarding | Unsent | SentOnce | InOutput | InWriting | InWritten

  /** A weight for every message, one for every attempt at the lock that is due, and one for every copy by
      node, stage, kind and key. */
  datatype Scheme = Scheme(perMessage: nat, perTry: nat, weight: (nat, Stage, Kind, Key) -> nat)

  function StageOf(s: Slot): Stage {
    match s
    case Pending(_) => InPending
    case Sorting(_, _) => InSorting
    case Forwarding(_, _) => InForwarding
    case Output(_) => InOutput
    case Writing(_) => InWriting
    case Written(_) => InWritten
  }

  function Weigh(w: Scheme, i: nat, stage: Stage, kind: Kind, keys: seq<Key>): nat {
    if keys == [] then 0 else w.weight(i, stage, kind, keys[0]) + Weigh(w, i, stage, kind, keys[1..])
  }

  function MessageWeight(w: Scheme, i: nat, text: string): nat {
    w.perMessage + Weigh(w, i, InInbox, Carried(text).0, Carried(text).1)
  }

  function InboxWeight(w: Scheme, i: nat, inbox: seq<string>): nat {
    if inbox == [] then 0 else MessageWeight(w, i, inbox[0]) + InboxWeight(w, i, inbox[1..])
  }

  function SlotWeight(w: Scheme, i: nat, node: Node, s: Slot): nat {
    Weigh(w, i, StageOf(s), s.kind, node.At(s))
  }

  function TryWeight(w: Scheme, writer: Writer): nat {
    if writer.Trying? then w.perTry else 0
  }

  ghost function NodeWeight(w: Scheme, i: nat, node: Node): nat {
    InboxWeight(w, i, node.inbox) + Sum(node.cells.Keys, s => SlotWeight(w, i, node, s)) + TryWeight(w, node.writer)
  }

  /** The keys of a redirection thread are still to be sent, the head perhaps for the second time. */
  function SenderWeight(w: Scheme, s: Sender): nat {
    if s.rest == [] then 0
    else w.weight(s.source, if s.resumed then SentOnce else Unsent, s.kind, s.rest[0])
         + Weigh(w, s.source, Unsent, s.kind, s.rest[1..])
  }

  ghost function NodeWeights(w: Scheme, nodes: seq<Node>): seq<nat> {
    seq(|nodes|, i requires 0 <= i < |nodes| => NodeWeight(w, i, nodes[i]))
  }

  ghost function NodesWeight(w: Scheme, nodes: seq<Node>): nat {
    SumSeq(NodeWeights(w, nodes))
  }

  ghost function SendersWeight(w: Scheme, senders: map<nat, Sender>): nat {
    Sum(senders.Keys, (t: nat) => if t in senders then SenderWeight(w, senders[t]) else 0)
  }

  ghost function Total(w: Scheme, c: State): nat {
    NodesWeight(w, c.nodes) + SendersWeight(w, c.senders)
  }

  // ---------- Sums over sequences ----------

  lemma {:induction false} WeighAppend(w: Scheme, i: nat, stage: Stage, kind: Kind, a: seq<Key>, b: seq<Key>)
    ensures Weigh(w, i, stage, kind, a + b) == Weigh(w, i, stage, kind, a) + Weigh(w, i, stage, kind, b)
  {
    if a == [] {
      assert a + b == b;
    } else {
      assert (a + b)[1..] == a[1..] + b;
      WeighAppend(w, i, stage, kind, a[1..], b);
    }
  }

  lemma WeighSingle(w: Scheme, i: nat, stage: Stage, kind: Kind, x: Key)
    ensures Weigh(w, i, stage, kind, [x]) == w.weight(i, stage, kind, x)
  {
    assert Weigh(w, i, stage, kind, [x][1..]) == 0;
  }

  lemma {:induction false} WeighInsert(w: Scheme, i: nat, stage: Stage, kind: Kind, x: Key, keys: seq<Key>)
    ensures Weigh(w, i, stage, kind, Insert(x, keys)) == w.weight(i, stage, kind, x) + Weigh(w, i, stage, kind, keys)
  {
    if keys != [] && Less(keys[0], x) {
      WeighInsert(w, i, stage, kind, x, keys[1..]);
      assert Insert(x, keys)[1..] == Insert(x, keys[1..]);
    } else {
      assert Insert(x, keys)[1..] == keys;
    }
  }

  lemma {:induction false} WeighSort(w: Scheme, i: nat, stage: Stage, kind: Kind, keys: seq<Key>)
    ensures Weigh(w, i, stage, kind, Sort(keys)) == Weigh(w, i, stage, kind, keys)
  {
    if keys != [] {
      WeighSort(w, i, stage, kind, keys[1..]);
      WeighInsert(w, i, stage, kind, keys[0], Sort(keys[1..]));
    }
  }

  lemma {:induction false} InboxAppend(w: Scheme, i: nat, inbox: seq<string>, text: string)
    ensures InboxWeight(w, i, inbox + [text]) == InboxWeight(w, i, inbox) + MessageWeight(w, i, text)
  {
    if inbox == [] {
      assert (inbox + [text])[1..] == [];
    } else {
      assert (inbox + [text])[1..] == inbox[1..] + [text];
      InboxAppend(w, i, inbox[1..], text);
    }
  }

  // ---------- One node ----------

  lemma WithWeight(w: Scheme, i: nat, node: Node, s: Slot, keys: seq<Key>)
    ensures NodeWeight(w, i, node.With(s, keys)) + SlotWeight(w, i, node, s)
         == NodeWeight(w, i, node) + Weigh(w, i, StageOf(s), s.kind, keys)
  {
    var node' := node.With(s, keys);
    assert node'.cells.Keys == node.cells.Keys + {s};
    assert node'.At(s) == keys;
    SumChange(node.cells.Keys, (t: Slot) => SlotWeight(w, i, node, t),
              node'.cells.Keys, (t: Slot) => SlotWeight(w, i, node', t), s);
  }

  lemma MoveWeight(w: Scheme, i: nat, node: Node, source: Slot, target: Slot)
    requires source != target && node.At(source) != []
    ensures NodeWeight(w, i, Move(node, source, target)) + w.weight(i, StageOf(source), source.kind, node.At(source)[0])
         == NodeWeight(w, i, node) + w.weight(i, StageOf(target), target.kind, node.At(source)[0])
  {
    var keys := node.At(source);
    var node' := node.With(source, keys[1..]);
    WithWeight(w, i, node, source, keys[1..]);
    assert node'.At(target) == node.At(target);
    WithWeight(w, i, node', target, node.At(target) + [keys[0]]);
    WeighAppend(w, i, StageOf(target), target.kind, node.At(target), [keys[0]]);
    WeighSingle(w, i, StageOf(target), target.kind, keys[0]);
  }

  lemma InboxChangeWeight(w: Scheme, i: nat, node: Node, inbox: seq<string>)
    ensures NodeWeight(w, i, node.(inbox := inbox)) + InboxWeight(w, i, node.inbox)
         == NodeWeight(w, i, node) + InboxWeight(w, i, inbox)
  {
    var node' := node.(inbox := inbox);
    SumSame(node.cells.Keys, (s: Slot) => SlotWeight(w, i, node, s), (s: Slot) => SlotWeight(w, i, node', s));
  }

  lemma AcceptWeight(w: Scheme, i: nat, node: Node, text: string)
    ensures NodeWeight(w, i, Accept(node, text)) == NodeWeight(w, i, node) + MessageWeight(w, i, text)
  {
    InboxAppend(w, i, node.inbox, text);
    InboxChangeWeight(w, i, node, node.inbox + [text]);
  }

  lemma WriterWeight(w: Scheme, i: nat, node: Node, writer: Writer)
    ensures NodeWeight(w, i, node.(writer := writer)) + TryWeight(w, node.writer) == NodeWeight(w, i, node) + TryWeight(w, writer)
  {
    var node' := node.(writer := writer);
    SumSame(node.cells.Keys, (s: Slot) => SlotWeight(w, i, node, s), (s: Slot) => SlotWeight(w, i, node', s));
  }

  lemma ReceiveWeight(w: Scheme, i: nat, node: Node)
    requires node.inbox != [] && node.At(Pending(Store)) == [] && node.At(Pending(Find)) == []
    ensures NodeWeight(w, i, Receive(node)) + MessageWeight(w, i, node.inbox[0])
         == NodeWeight(w, i, node) + Weigh(w, i, InPending, Carried(node.inbox[0]).0, Carried(node.inbox[0]).1)
  {
    var (kind, keys) := Carried(node.inbox[0]);
    InboxChangeWeight(w, i, node, node.inbox[1..]);
    WithWeight(w, i, node.(inbox := node.inbox[1..]), Pending(kind), keys);
    assert node.At(Pending(kind)) == [];
  }

  lemma CollectOutputWeight(w: Scheme, i: nat, node: Node, kind: Kind)
    requires node.At(Output(kind)) != []
    ensures var x, next := node.At(Output(kind))[0], CollectOutput(node, kind);
            NodeWeight(w, i, next) + w.weight(i, InOutput, kind, x) + TryWeight(w, node.writer)
            == NodeWeight(w, i, node) + w.weight(i, InWriting, kind, x) + TryWeight(w, next.writer)
  {
    MoveWeight(w, i, node, Output(kind), Writing(kind));
    WriterWeight(w, i, Move(node, Output(kind), Writing(kind)), Trying);
  }

  lemma WriteWeight(w: Scheme, i: nat, node: Node, kind: Kind)
    ensures NodeWeight(w, i, WriteBatch(node, kind)) + SlotWeight(w, i, node, Writing(kind)) + TryWeight(w, node.writer)
         == NodeWeight(w, i, node) + Weigh(w, i, InWritten, kind, node.At(Writing(kind))) + TryWeight(w, WriteBatch(node, kind).writer)
  {
    var keys := node.At(Writing(kind));
    var all := node.At(Written(kind)) + Sort(keys);
    WeighAppend(w, i, InWritten, kind, node.At(Written(kind)), Sort(keys));
    WeighSort(w, i, InWritten, kind, keys);
    WithWeight(w, i, node, Written(kind), all);
    WithWeight(w, i, node.With(Written(kind), all), Writing(kind), []);
    var written := node.With(Written(kind), all);
    assert written.At(Writing(kind)) == keys;
    WriterWeight(w, i, written.With(Writing(kind), []), WriteBatch(node, kind).writer);
  }

  // ---------- The whole cluster ----------

  lemma NodeChange(w: Scheme, nodes: seq<Node>, i: nat, node: Node)
    requires i < |nodes|
    ensures NodesWeight(w, nodes[i := node]) + NodeWeight(w, i, nodes[i])
         == NodesWeight(w, nodes) + NodeWeight(w, i, node)
  {
    assert NodeWeights(w, nodes[i := node]) == NodeWeights(w, nodes)[i := NodeWeight(w, i, node)];
    SumSeqUpdate(NodeWeights(w, nodes), i, NodeWeight(w, i, node));
  }

  lemma SenderChange(w: Scheme, senders: map<nat, Sender>, t: nat, s: Sender)
    ensures SendersWeight(w, senders[t := s]) + (if t in senders then SenderWeight(w, senders[t]) else 0)
         == SendersWeight(w, senders) + SenderWeight(w, s)
  {
    var senders' := senders[t := s];
    assert senders'.Keys == senders.Keys + {t};
    SumChange(senders.Keys, (k: nat) => if k in senders then SenderWeight(w, senders[k]) else 0,
              senders'.Keys, (k: nat) => if k in senders' then SenderWeight(w, senders'[k]) else 0, t);
  }

  lemma SenderGone(w: Scheme, senders: map<nat, Sender>, t: nat)
    requires t in senders
    ensures SendersWeight(w, senders - {t}) + SenderWeight(w, senders[t]) == SendersWeight(w, senders)
  {
    var senders' := senders - {t};
    assert senders'.Keys == senders.Keys - {t};
    SumChange(senders.Keys, (k: nat) => if k in senders then SenderWeight(w, senders[k]) else 0,
              senders'.Keys, (k: nat) => if k in senders' then SenderWeight(w, senders'[k]) else 0, t);
  }

  /** The weight that what a step touches has before it. */
  function Before(w: Scheme, c: State, step: Step): nat
    requires Enabled(c, step)
  {
    match step
    case Inject(_, _) => 0
    case ReceiveMessage(i) => MessageWeight(w, i, c.nodes[i].inbox[0])
    case RouteKey(i, kind) => w.weight(i, InPending, kind, c.nodes[i].At(Pending(kind))[0])
    case Collect(i, kind, link) => w.weight(i, InSorting, kind, c.nodes[i].At(Sorting(kind, link))[0])
    case Spawn(i, kind, link, _) => Weigh(w, i, InForwarding, kind, c.nodes[i].At(Forwarding(kind, link)))
    case Send(t) => SenderWeight(w, c.senders[t])
    case CollectForOutput(i, kind) =>
      w.weight(i, InOutput, kind, c.nodes[i].At(Output(kind))[0]) + TryWeight(w, c.nodes[i].writer)
    case Write(i, kind) => Weigh(w, i, InWriting, kind, c.nodes[i].At(Writing(kind))) + TryWeight(w, c.nodes[i].writer)
    case MissLock(i) => w.perTry
  }

  /** The weight that what a step touches or makes has after it. */
  function After(w: Scheme, c: State, step: Step): nat
    requires Enabled(c, step)
  {
    match step
    case Inject(i, text) => MessageWeight(w, i, text)
    case ReceiveMessage(i) =>
      Weigh(w, i, InPending, Carried(c.nodes[i].inbox[0]).0, Carried(c.nodes[i].inbox[0]).1)
    case RouteKey(i, kind) =>
      var x := c.nodes[i].At(Pending(kind))[0];
      w.weight(i, StageOf(RouteSlot(i, c.Size(), kind, x)), kind, x)
    case Collect(i, kind, link) => w.weight(i, InForwarding, kind, c.nodes[i].At(Sorting(kind, link))[0])
    case Spawn(i, kind, link, _) => Weigh(w, i, Unsent, kind, c.nodes[i].At(Forwarding(kind, link)))
    case Send(t) =>
      var s := c.senders[t];
      if |s.rest| >= BATCH_COUNT then
        MessageWeight(w, s.target, EncodeAll(Tag(s.kind), s.rest[..BATCH_COUNT]))
        + SenderWeight(w, s.(rest := s.rest[BATCH_COUNT - 1..], resumed := true))
      else MessageWeight(w, s.target, EncodeAll(Tag(s.kind), s.rest))
    case CollectForOutput(i, kind) =>
      w.weight(i, InWriting, kind, c.nodes[i].At(Output(kind))[0]) + TryWeight(w, CollectOutput(c.nodes[i], kind).writer)
    case Write(i, kind) =>
      Weigh(w, i, InWritten, kind, c.nodes[i].At(Writing(kind))) + TryWeight(w, WriteBatch(c.nodes[i], kind).writer)
    case MissLock(_) => 0
  }

  /** Nothing but what a step touches changes its weight. */
  lemma StepWeight(w: Scheme, c: State, step: Step)
    requires Enabled(c, step)
    ensures Total(w, Apply(c, step)) + Before(w, c, step) == Total(w, c) + After(w, c, step)
  {
    match step
    case Inject(i, text) =>
      AcceptWeight(w, i, c.nodes[i], text);
      NodeChange(w, c.nodes, i, Accept(c.nodes[i], text));
    case ReceiveMessage(i) =>
      ReceiveWeight(w, i, c.nodes[i]);
      NodeChange(w, c.nodes, i, Receive(c.nodes[i]));
    case RouteKey(i, kind) =>
      var x := c.nodes[i].At(Pending(kind))[0];
      MoveWeight(w, i, c.nodes[i], Pending(kind), RouteSlot(i, c.Size(), kind, x));
      NodeChange(w, c.nodes, i, RouteOne(c.nodes[i], i, c.Size(), kind));
    case Collect(i, kind, link) =>
      MoveWeight(w, i, c.nodes[i], Sorting(kind, link), Forwarding(kind, link));
      NodeChange(w, c.nodes, i, CollectOne(c.nodes[i], kind, link));
    case Spawn(i, kind, link, thread) =>
      SpawnWeight(w, c, i, kind, link, thread);
    case Send(thread) =>
      SendWeight(w, c, thread);
    case CollectForOutput(i, kind) =>
      CollectOutputStepWeight(w, c, i, kind);
    case Write(i, kind) =>
      WriteStepWeight(w, c, i, kind);
    case MissLock(i) =>
      WriterWeight(w, i, c.nodes[i], Getting(true));
      NodeChange(w, c.nodes, i, Nodes.MissLock(c.nodes[i]));
  }

  lemma CollectOutputStepWeight(w: Scheme, c: State, i: nat, kind: Kind)
    requires Enabled(c, CollectForOutput(i, kind))
    ensures var step := CollectForOutput(i, kind);
            Total(w, Apply(c, step)) + Before(w, c, step) == Total(w, c) + After(w, c, step)
  {
    CollectOutputWeight(w, i, c.nodes[i], kind);
    NodeChange(w, c.nodes, i, CollectOutput(c.nodes[i], kind));
  }

  lemma WithNodeWeight(w: Scheme, c: State, i: nat, node: Node, before: nat, after: nat)
    requires i < c.Size() && NodeWeight(w, i, node) + before == NodeWeight(w, i, c.nodes[i]) + after
    ensures Total(w, c.WithNode(i, node)) + before == Total(w, c) + after
  {
    NodeChange(w, c.nodes, i, node);
  }

  lemma WriteStepWeight(w: Scheme, c: State, i: nat, kind: Kind)
    requires Enabled(c, Write(i, kind))
    ensures Total(w, Apply(c, Write(i, kind))) + Before(w, c, Write(i, kind)) == Total(w, c) + After(w, c, Write(i, kind))
  {
    var step := Write(i, kind);
    WriteWeight(w, i, c.nodes[i], kind);
    WithNodeWeight(w, c, i, WriteBatch(c.nodes[i], kind), Before(w, c, step), After(w, c, step));
  }

  lemma SpawnWeight(w: Scheme, c: State, i: nat, kind: Kind, link: nat, thread: nat)
    requires Enabled(c, Spawn(i, kind, link, thread))
    ensures var step := Spawn(i, kind, link, thread);
            Total(w, Apply(c, step)) + Before(w, c, step) == Total(w, c) + After(w, c, step)
  {
    var q := c.nodes[i].At(Forwarding(kind, link));
    WithWeight(w, i, c.nodes[i], Forwarding(kind, link), []);
    NodeChange(w, c.nodes, i, Flush(c.nodes[i], kind, link));
    SenderChange(w, c.senders, thread, Sender(i, LinkTarget(i, link, c.Size()), kind, q, false));
  }

  lemma SendWeight(w: Scheme, c: State, thread: nat)
    requires Enabled(c, Send(thread))
    ensures Total(w, Apply(c, Send(thread))) + Before(w, c, Send(thread)) == Total(w, c) + After(w, c, Send(thread))
  {
    var s := c.senders[thread];
    var batch := if |s.rest| >= BATCH_COUNT then s.rest[..BATCH_COUNT] else s.rest;
    AcceptWeight(w, s.target, c.nodes[s.target], EncodeAll(Tag(s.kind), batch));
    NodeChange(w, c.nodes, s.target, Deliver(c.nodes[s.target], s.kind, batch));
    if |s.rest| >= BATCH_COUNT {
      SenderChange(w, c.senders, thread, s.(rest := s.rest[BATCH_COUNT - 1..], resumed := true));
    } else {
      SenderGone(w, c.senders, thread);
    }
  }
}

/** All nodes of a ring, the redirection threads between them, and every interleaving of their steps.

    Each step is one atomic action of one thread. A weight on the places of a key turns the cluster
    into a number; what each step does to that number, for any weights, is proved once, and
    conservation, the bound on duplicates and the end of every run are three choices of weights.
 */
module Cluster {
  import opened Keys
  import opened Text
  import opened Ring
  import opened Messages
  import opened Batching
  import opened Nodes

  /** A redirection thread: what is left of its vector, and whether the head was sent once already. */
  datatype Sender = Sender(source: nat, target: nat, kind: Kind, rest: seq<Key>, resumed: bool)

  /** The last field is history: every key that the messages of clients carried, with its kind and the node it was sent to. */
  datatype State = State(nodes: seq<Node>, senders: map<nat, Sender>, injected: seq<(nat, Kind, Key)>) {

    function Size(): nat {
      |nodes|
    }

    function WithNode(i: nat, node: Node): State
      requires i < |nodes|
    {
      this.(nodes := nodes[i := node])
    }
  }

  datatype Step =
    | Inject(i: nat, text: string)
    | ReceiveMessage(i: nat)
    | RouteKey(i: nat, kind: Kind)
    | Collect(i: nat, kind: Kind, link: nat)
    | Spawn(i: nat, kind: Kind, link: nat, thread: nat)
    | Send(thread: nat)
    | CollectForOutput(i: nat, kind: Kind)
    | Write(i: nat, kind: Kind)
    | MissLock(i: nat)

  function Init(n: nat): State {
    State(seq(n, i => Node([], map[], Getting(false))), map[], [])
  }

  predicate Enabled(c: State, step: Step) {
    match step
    case Inject(i, _) => i < c.Size()
    case ReceiveMessage(i) =>
      i < c.Size() && c.nodes[i].inbox != []
      && c.nodes[i].At(Pending(Store)) == [] && c.nodes[i].At(Pending(Find)) == []
    case RouteKey(i, kind) => i < c.Size() && c.nodes[i].At(Pending(kind)) != []
    case Collect(i, kind, link) =>
      i < c.Size() && c.nodes[i].At(Sorting(kind, link)) != [] && |c.nodes[i].At(Forwarding(kind, link))| <= THRESHOLD
    case Spawn(i, kind, link, thread) =>
      i < c.Size() && |c.nodes[i].At(Forwarding(kind, link))| > THRESHOLD && thread !in c.senders
    case Send(thread) => thread in c.senders && c.senders[thread].target < c.Size()
    case CollectForOutput(i, kind) =>
      i < c.Size() && c.nodes[i].At(Output(kind)) != []
      && (if kind == Store then |c.nodes[i].At(Writing(Store))| <= THRESHOLD else c.nodes[i].writer.Getting?)
    case Write(i, kind) =>
      i < c.Size() && (if kind == Store then |c.nodes[i].At(Writing(Store))| > THRESHOLD else c.nodes[i].writer.Trying?)
    case MissLock(i) => i < c.Size() && c.nodes[i].writer.Trying?
  }

  /** A message comes in. */
  function Accept(node: Node, text: string): Node {
    node.(inbox := node.inbox + [text])
  }

  function Deliver(node: Node, kind: Kind, keys: seq<Key>): Node {
    Accept(node, EncodeAll(Tag(kind), keys))
  }

  function History(i: nat, kind: Kind, keys: seq<Key>): seq<(nat, Kind, Key)> {
    seq(|keys|, j requires 0 <= j < |keys| => (i, kind, keys[j]))
  }

  function LinkTarget(i: nat, link: nat, n: nat): nat
    requires n > 0
  {
    (i + Pow2(link)) % n
  }

  function Apply(c: State, step: Step): State
    requires Enabled(c, step)
  {
    match step
    case Inject(i, text) =>
      c.WithNode(i, Accept(c.nodes[i], text)).(injected := c.injected + History(i, Carried(text).0, Carried(text).1))
    case ReceiveMessage(i) => c.WithNode(i, Receive(c.nodes[i]))
    case RouteKey(i, kind) => c.WithNode(i, RouteOne(c.nodes[i], i, c.Size(), kind))
    case Collect(i, kind, link) => c.WithNode(i, CollectOne(c.nodes[i], kind, link))
    case Spawn(i, kind, link, thread) =>
      var q := c.nodes[i].At(Forwarding(kind, link));
      c.WithNode(i, Flush(c.nodes[i], kind, link))
       .(senders := c.senders[thread := Sender(i, LinkTarget(i, link, c.Size()), kind, q, false)])
    case Send(thread) => SendNext(c, thread)
    case CollectForOutput(i, kind) => c.WithNode(i, CollectOutput(c.nodes[i], kind))
    case Write(i, kind) => c.WithNode(i, WriteBatch(c.nodes[i], kind))
    case MissLock(i) => c.WithNode(i, Nodes.MissLock(c.nodes[i]))
  }

  /** One message of a redirection thread: a full batch, whose last key stays, or the rest. */
  function SendNext(c: State, thread: nat): State
    requires thread in c.senders && c.senders[thread].target < c.Size()
  {
    var s := c.senders[thread];
    if |s.rest| >= BATCH_COUNT then
      c.WithNode(s.target, Deliver(c.nodes[s.target], s.kind, s.rest[..BATCH_COUNT]))
       .(senders := c.senders[thread := s.(rest := s.rest[BATCH_COUNT - 1..], resumed := true)])
    else
      c.WithNode(s.target, Deliver(c.nodes[s.target], s.kind, s.rest))
       .(senders := c.senders - {thread})
  }

  /** The steps lead from one state to the other, in this order. */
  predicate Reaches(c: State, steps: seq<Step>, c': State)
    decreases |steps|
  {
    if steps == [] then c' == c
    else Enabled(c, steps[0]) && Reaches(Apply(c, steps[0]), steps[1..], c')
  }

  // ---------- What every reachable state satisfies ----------

  predicate OwnedBy(keys: seq<Key>, i: nat, n: nat)
    requires n > 0
  {
    forall x :: x in keys ==> Owner(x, n) == i
  }

  /** The keys belong to other nodes, and their way there starts with this link. */
  predicate RoutedBy(keys: seq<Key>, i: nat, n: nat, link: nat)
    requires i < n
  {
    forall x :: x in keys ==> RoutesTo(x, i, n, link)
  }

  predicate RoutesTo(x: Key, i: nat, n: nat, link: nat)
    requires i < n
  {
    Owner(x, n) != i && Distance(i, Owner(x, n), n) > 0 && TopBit(Distance(i, Owner(x, n), n)) == link
  }

  predicate SlotOk(s: Slot, keys: seq<Key>, i: nat, n: nat)
    requires i < n
  {
    && AllValues(keys)
    && match s
       case Pending(_) => true
       case Sorting(_, link) => RoutedBy(keys, i, n, link)
       case Forwarding(_, link) => RoutedBy(keys, i, n, link)
       case Output(_) => OwnedBy(keys, i, n)
       case Writing(_) => OwnedBy(keys, i, n)
       case Written(_) => OwnedBy(keys, i, n)
  }

  predicate SlotsOk(node: Node, i: nat, n: nat)
    requires i < n
  {
    forall s :: s in node.cells ==> SlotOk(s, node.cells[s], i, n)
  }

  /** The thread that writes find keys has a full vector exactly when it tries the lock or has missed it. */
  predicate WriterOk(node: Node) {
    |node.At(Writing(Find))| <= THRESHOLD <==> node.writer == Getting(false)
  }

  predicate SenderOk(s: Sender, n: nat) {
    && s.source < n && s.rest != [] && AllValues(s.rest)
    && forall x :: x in s.rest ==> Owner(x, n) != s.source && NextNode(s.source, Owner(x, n), n) == s.target
  }

  predicate Inv(c: State) {
    && (forall i :: 0 <= i < c.Size() ==> SlotsOk(c.nodes[i], i, c.Size()) && WriterOk(c.nodes[i]))
    && (forall t :: t in c.senders ==> SenderOk(c.senders[t], c.Size()))
  }

  lemma ValuesSplit(keys: seq<Key>, a: seq<Key>)
    requires AllValues(keys)
    requires forall x :: x in a ==> x in keys
    ensures AllValues(a)
  {
    forall j | 0 <= j < |a|
      ensures IsValue(a[j])
    {
      assert a[j] in keys;
    }
  }

  /** Setting one slot to allowed keys keeps a node as it should be. */
  lemma WithOk(node: Node, s: Slot, keys: seq<Key>, i: nat, n: nat)
    requires i < n && SlotsOk(node, i, n) && SlotOk(s, keys, i, n)
    ensures SlotsOk(node.With(s, keys), i, n)
  {
  }

  lemma AtOk(node: Node, s: Slot, i: nat, n: nat)
    requires i < n && SlotsOk(node, i, n)
    ensures SlotOk(s, node.At(s), i, n)
  {
  }

  /** Moving the head of a slot is allowed if the other slot may hold it. */
  lemma MoveOk(node: Node, source: Slot, target: Slot, i: nat, n: nat)
    requires i < n && SlotsOk(node, i, n)
    requires source != target && node.At(source) != []
    requires SlotOk(target, [node.At(source)[0]], i, n)
    ensures SlotsOk(Move(node, source, target), i, n)
  {
    var keys := node.At(source);
    AtOk(node, source, i, n);
    AtOk(node, target, i, n);
    ValuesSplit(keys, keys[1..]);
    WithOk(node, source, keys[1..], i, n);
    var node' := node.With(source, keys[1..]);
    assert node'.At(target) == node.At(target);
    WithOk(node', target, node.At(target) + [keys[0]], i, n);
  }

  lemma RoutedHead(node: Node, s: Slot, i: nat, n: nat)
    requires i < n && SlotsOk(node, i, n) && node.At(s) != []
    ensures IsValue(node.At(s)[0])
    ensures s.Sorting? || s.Forwarding? ==> RoutesTo(node.At(s)[0], i, n, s.link)
    ensures s.Output? || s.Writing? ==> Owner(node.At(s)[0], n) == i
  {
    AtOk(node, s, i, n);
    assert node.At(s)[0] in node.At(s);
  }

  lemma RouteKeyOk(node: Node, i: nat, n: nat, kind: Kind)
    requires i < n && SlotsOk(node, i, n) && node.At(Pending(kind)) != []
    ensures SlotsOk(RouteOne(node, i, n, kind), i, n)
  {
    RoutedHead(node, Pending(kind), i, n);
    var x := node.At(Pending(kind))[0];
    if Owner(x, n) != i {
      OtherNodeDistance(i, Owner(x, n), n);
    }
    MoveOk(node, Pending(kind), RouteSlot(i, n, kind, x), i, n);
  }

  lemma WriteOk(node: Node, i: nat, n: nat, kind: Kind)
    requires i < n && SlotsOk(node, i, n)
    ensures SlotsOk(WriteBatch(node, kind), i, n)
  {
    var keys := node.At(Writing(kind));
    var all := node.At(Written(kind)) + Sort(keys);
    AtOk(node, Writing(kind), i, n);
    AtOk(node, Written(kind), i, n);
    SortSorts(keys);
    forall x | x in Sort(keys)
      ensures x in keys
    {
      assert x in multiset(Sort(keys));
    }
    ValuesSplit(keys, Sort(keys));
    WithOk(node, Written(kind), all, i, n);
    WithOk(node.With(Written(kind), all), Writing(kind), [], i, n);
  }

  predicate IsNodeStep(step: Step) {
    step.ReceiveMessage? || step.RouteKey? || step.Collect? || step.CollectForOutput? || step.Write? || step.MissLock?
  }

  lemma NodeStepOk(c: State, step: Step)
    requires Inv(c) && Enabled(c, step) && IsNodeStep(step)
    ensures SlotsOk(Apply(c, step).nodes[step.i], step.i, c.Size())
  {
    var i, n := step.i, c.Size();
    var node := c.nodes[i];
    match step
    case ReceiveMessage(_) =>
      var (kind, keys) := Carried(node.inbox[0]);
      CarriedAreValues(node.inbox[0]);
      WithOk(node.(inbox := node.inbox[1..]), Pending(kind), keys, i, n);
    case RouteKey(_, kind) =>
      RouteKeyOk(node, i, n, kind);
    case Collect(_, kind, link) =>
      RoutedHead(node, Sorting(kind, link), i, n);
      MoveOk(node, Sorting(kind, link), Forwarding(kind, link), i, n);
    case CollectForOutput(_, kind) =>
      RoutedHead(node, Output(kind), i, n);
      MoveOk(node, Output(kind), Writing(kind), i, n);
    case Write(_, kind) =>
      WriteOk(node, i, n, kind);
    case MissLock(_) =>
  }

  lemma NodeStepWriter(c: State, step: Step)
    requires Inv(c) && Enabled(c, step) && IsNodeStep(step)
    ensures WriterOk(Apply(c, step).nodes[step.i])
  {
    assert WriterOk(c.nodes[step.i]);
  }

  /** A state with one node and the senders replaced. */
  lemma UpdateOk(c: State, i: nat, node: Node, senders: map<nat, Sender>, injected: seq<(nat, Kind, Key)>)
    requires Inv(c) && i < c.Size() && SlotsOk(node, i, c.Size()) && WriterOk(node)
    requires forall t :: t in senders ==> SenderOk(senders[t], c.Size())
    ensures Inv(State(c.nodes[i := node], senders, injected))
  {
  }

  /** The vector of a forwarding thread, handed to a redirection thread. */
  lemma SpawnOk(c: State, i: nat, kind: Kind, link: nat, thread: nat)
    requires Inv(c) && Enabled(c, Spawn(i, kind, link, thread))
    ensures Inv(Apply(c, Spawn(i, kind, link, thread)))
  {
    var n := c.Size();
    var node := c.nodes[i];
    var q := node.At(Forwarding(kind, link));
    AtOk(node, Forwarding(kind, link), i, n);
    WithOk(node, Forwarding(kind, link), [], i, n);
    var s := Sender(i, LinkTarget(i, link, n), kind, q, false);
    forall x | x in q
      ensures Owner(x, n) != i && NextNode(i, Owner(x, n), n) == s.target
    {
      assert RoutesTo(x, i, n, link);
    }
    UpdateOk(c, i, Flush(node, kind, link), c.senders[thread := s], c.injected);
  }

  /** A message of a redirection thread. */
  lemma SendOk(c: State, thread: nat)
    requires Inv(c) && Enabled(c, Send(thread))
    ensures Inv(Apply(c, Send(thread)))
  {
    var n := c.Size();
    var s := c.senders[thread];
    var batch := if |s.rest| >= BATCH_COUNT then s.rest[..BATCH_COUNT] else s.rest;
    var senders := Apply(c, Send(thread)).senders;
    if |s.rest| >= BATCH_COUNT {
      ValuesSplit(s.rest, s.rest[BATCH_COUNT - 1..]);
      assert SenderOk(senders[thread], n);
    }
    UpdateOk(c, s.target, Deliver(c.nodes[s.target], s.kind, batch), senders, c.injected);
  }

  /** Every step keeps the invariant, whatever text clients send. */
  lemma StepKeepsInv(c: State, step: Step)
    requires Inv(c) && Enabled(c, step)
    ensures Inv(Apply(c, step))
  {
    match step
    case Inject(i, text) =>
      UpdateOk(c, i, Accept(c.nodes[i], text), c.senders, c.injected + History(i, Carried(text).0, Carried(text).1));
    case Spawn(i, kind, link, thread) =>
      SpawnOk(c, i, kind, link, thread);
    case Send(thread) =>
      SendOk(c, thread);
    case _ =>
      NodeStepOk(c, step);
      NodeStepWriter(c, step);
      UpdateOk(c, step.i, Apply(c, step).nodes[step.i], c.senders, c.injected);
  }

  lemma {:induction false} RunKeepsInv(c: State, steps: seq<Step>, c': State)
    requires Inv(c) && Reaches(c, steps, c')
    ensures Inv(c')
    decreases |steps|
  {
    if steps != [] {
      StepKeepsInv(c, steps[0]);
      RunKeepsInv(Apply(c, steps[0]), steps[1..], c');
    }
  }

  // ---------- Runs without empty keys on the way ----------

  /** A message that may have empty keys only at node 0, which owns them. */
  predicate Clean(i: nat, text: string) {
    i == 0 || AllTokens(Carried(text).1)
  }

  predicate CleanStep(step: Step) {
    step.Inject? ==> Clean(step.i, step.text)
  }

  predicate CleanRun(steps: seq<Step>) {
    forall j :: 0 <= j < |steps| ==> CleanStep(steps[j])
  }

  predicate SlotTidy(s: Slot, keys: seq<Key>, i: nat) {
    && (s.Pending? && i != 0 ==> AllTokens(keys))
    && (s.Sorting? || s.Forwarding? ==> AllTokens(keys))
  }

  predicate NodeTidy(node: Node, i: nat) {
    && (forall s :: s in node.cells ==> SlotTidy(s, node.cells[s], i))
    && (forall text :: text in node.inbox ==> Clean(i, text))
  }

  /** No empty key is on its way to another node. */
  predicate Tidy(c: State) {
    && (forall i :: 0 <= i < c.Size() ==> NodeTidy(c.nodes[i], i))
    && (forall t :: t in c.senders ==> AllTokens(c.senders[t].rest))
  }

  lemma TokensSplit(keys: seq<Key>, a: seq<Key>)
    requires AllTokens(keys)
    requires forall x :: x in a ==> x in keys
    ensures AllTokens(a)
  {
    forall j | 0 <= j < |a|
      ensures IsToken(a[j])
    {
      assert a[j] in keys;
    }
  }

  lemma WithTidy(node: Node, s: Slot, keys: seq<Key>, i: nat)
    requires NodeTidy(node, i) && SlotTidy(s, keys, i)
    ensures NodeTidy(node.With(s, keys), i)
  {
  }

  lemma AtTidy(node: Node, s: Slot, i: nat)
    requires NodeTidy(node, i)
    ensures SlotTidy(s, node.At(s), i)
  {
  }

  lemma MoveTidy(node: Node, source: Slot, target: Slot, i: nat)
    requires NodeTidy(node, i) && source != target && node.At(source) != []
    requires SlotTidy(target, [node.At(source)[0]], i)
    ensures NodeTidy(Move(node, source, target), i)
  {
    var keys := node.At(source);
    AtTidy(node, source, i);
    AtTidy(node, target, i);
    if AllTokens(keys) {
      TokensSplit(keys, keys[1..]);
    }
    WithTidy(node, source, keys[1..], i);
    var node' := node.With(source, keys[1..]);
    assert node'.At(target) == node.At(target);
    WithTidy(node', target, node.At(target) + [keys[0]], i);
  }

  /** An empty key that node 0 routes stays there. */
  lemma RouteKeyTidy(node: Node, i: nat, n: nat, kind: Kind)
    requires i < n && SlotsOk(node, i, n) && NodeTidy(node, i) && node.At(Pending(kind)) != []
    ensures NodeTidy(RouteOne(node, i, n, kind), i)
  {
    AtTidy(node, Pending(kind), i);
    RoutedHead(node, Pending(kind), i, n);
    var x := node.At(Pending(kind))[0];
    assert Owner("", n) == 0;
    assert IsToken(x) || i == 0;
    MoveTidy(node, Pending(kind), RouteSlot(i, n, kind, x), i);
  }

  lemma NodeStepTidy(c: State, step: Step)
    requires Inv(c) && Tidy(c) && Enabled(c, step) && IsNodeStep(step)
    ensures NodeTidy(Apply(c, step).nodes[step.i], step.i)
  {
    var i, n := step.i, c.Size();
    var node := c.nodes[i];
    assert NodeTidy(node, i) && SlotsOk(node, i, n);
    match step
    case ReceiveMessage(_) =>
      assert node.inbox[0] in node.inbox;
      var (kind, keys) := Carried(node.inbox[0]);
      WithTidy(node.(inbox := node.inbox[1..]), Pending(kind), keys, i);
    case RouteKey(_, kind) =>
      RouteKeyTidy(node, i, n, kind);
    case Collect(_, kind, link) =>
      AtTidy(node, Sorting(kind, link), i);
      MoveTidy(node, Sorting(kind, link), Forwarding(kind, link), i);
    case CollectForOutput(_, kind) =>
      MoveTidy(node, Output(kind), Writing(kind), i);
    case _ =>
  }

  lemma UpdateTidy(c: State, i: nat, node: Node, senders: map<nat, Sender>, injected: seq<(nat, Kind, Key)>)
    requires Tidy(c) && i < c.Size() && NodeTidy(node, i)
    requires forall t :: t in senders ==> AllTokens(senders[t].rest)
    ensures Tidy(State(c.nodes[i := node], senders, injected))
  {
  }

  lemma SendTidy(c: State, thread: nat)
    requires Tidy(c) && Enabled(c, Send(thread))
    ensures Tidy(Apply(c, Send(thread)))
  {
    var s := c.senders[thread];
    var node := c.nodes[s.target];
    var batch := if |s.rest| >= BATCH_COUNT then s.rest[..BATCH_COUNT] else s.rest;
    TokensSplit(s.rest, batch);
    CarriedRoundTrip(s.kind, batch);
    if |s.rest| >= BATCH_COUNT {
      TokensSplit(s.rest, s.rest[BATCH_COUNT - 1..]);
    }
    assert NodeTidy(node, s.target);
    UpdateTidy(c, s.target, Deliver(node, s.kind, batch), Apply(c, Send(thread)).senders, c.injected);
  }

  lemma StepKeepsTidy(c: State, step: Step)
    requires Inv(c) && Tidy(c) && Enabled(c, step) && CleanStep(step)
    ensures Tidy(Apply(c, step))
  {
    match step
    case Inject(i, text) =>
      assert NodeTidy(c.nodes[i], i);
      UpdateTidy(c, i, Accept(c.nodes[i], text), c.senders, c.injected + History(i, Carried(text).0, Carried(text).1));
    case Spawn(i, kind, link, thread) =>
      assert NodeTidy(c.nodes[i], i);
      AtTidy(c.nodes[i], Forwarding(kind, link), i);
      WithTidy(c.nodes[i], Forwarding(kind, link), [], i);
      UpdateTidy(c, i, Flush(c.nodes[i], kind, link), Apply(c, step).senders, c.injected);
    case Send(thread) =>
      SendTidy(c, thread);
    case _ =>
      NodeStepTidy(c, step);
      UpdateTidy(c, step.i, Apply(c, step).nodes[step.i], c.senders, c.injected);
  }
}

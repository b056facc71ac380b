/** What the nodes of a cluster write: sorted batches, in every run.
 */
module Outputs {
  import opened Keys
  import opened Text
  import opened Ring
  import opened Nodes
  import opened Cluster
  import opened Delivery
  import opened Runs

  predicate AreBatches(batches: seq<seq<Key>>) {
    forall k :: 0 <= k < |batches| ==> Sorted(batches[k]) && |batches[k]| > 1000
  }

  /** One sorted batch of more than 1000 keys after the other. */
  ghost predicate InBatches(keys: seq<Key>) {
    exists batches :: AreBatches(batches) && Flatten(batches) == keys
  }

  lemma OneBatchMore(keys: seq<Key>, batch: seq<Key>)
    requires InBatches(keys) && Sorted(batch) && |batch| > 1000
    ensures InBatches(keys + batch)
  {
    var batches :| AreBatches(batches) && Flatten(batches) == keys;
    FlattenAppend(batches, [batch]);
    assert [batch][1..] == [];
    assert AreBatches(batches + [batch]);
  }

  ghost predicate AllInBatches(c: State) {
    forall i: nat, kind :: i < c.Size() ==> InBatches(c.nodes[i].At(Written(kind)))
  }

  /** Only writing adds to what has been written. */
  lemma StepWrites(c: State, step: Step, i: nat, kind: Kind)
    requires Enabled(c, step) && i < c.Size() && !(step.Write? && step.i == i && step.kind == kind)
    ensures Apply(c, step).Size() == c.Size() && Apply(c, step).nodes[i].At(Written(kind)) == c.nodes[i].At(Written(kind))
  {
    match step
    case RouteKey(j, k) =>
      MoveAt(c.nodes[j], Pending(k), RouteSlot(j, c.Size(), k, c.nodes[j].At(Pending(k))[0]), Written(kind));
      RouteIsNotWritten(j, c.Size(), k, c.nodes[j].At(Pending(k))[0]);
    case Collect(j, k, link) => MoveAt(c.nodes[j], Sorting(k, link), Forwarding(k, link), Written(kind));
    case CollectForOutput(j, k) => MoveAt(c.nodes[j], Output(k), Writing(k), Written(kind));
    case Send(thread) => SendLeavesCells(c, thread, i);
    case Write(j, k) => if j == i { OtherWritten(c.nodes[j], k, kind); }
    case _ =>
  }

  lemma OtherWritten(node: Node, kind: Kind, other: Kind)
    requires kind != other
    ensures WriteBatch(node, kind).At(Written(other)) == node.At(Written(other))
  {
  }

  lemma RouteIsNotWritten(i: nat, n: nat, kind: Kind, x: Key)
    requires i < n
    ensures !RouteSlot(i, n, kind, x).Written?
  {
  }

  lemma StepKeepsBatches(c: State, step: Step)
    requires Inv(c) && Enabled(c, step) && AllInBatches(c)
    ensures AllInBatches(Apply(c, step))
  {
    forall i: nat, kind | i < Apply(c, step).Size()
      ensures InBatches(Apply(c, step).nodes[i].At(Written(kind)))
    {
      assert i < c.Size() && InBatches(c.nodes[i].At(Written(kind)));
      if step.Write? && step.i == i && step.kind == kind {
        assert WriterOk(c.nodes[i]);
        var batch := WriteAddsBatch(c.nodes[i], kind);
        OneBatchMore(c.nodes[i].At(Written(kind)), batch);
      } else {
        StepWrites(c, step, i, kind);
      }
    }
  }

  lemma {:induction false} RunKeepsBatches(c: State, steps: seq<Step>, c': State)
    requires Inv(c) && Reaches(c, steps, c') && AllInBatches(c)
    ensures AllInBatches(c')
    decreases |steps|
  {
    if steps != [] {
      StepKeepsInv(c, steps[0]);
      StepKeepsBatches(c, steps[0]);
      RunKeepsBatches(Apply(c, steps[0]), steps[1..], c');
    }
  }

  /** In every reachable state, whatever clients send, a node has written its keys in sorted batches of more than
      1000, and of keys whose first character has a code congruent to the position of the node, if the ring size
      divides 32. */
  lemma WrittenInBatches(n: nat, steps: seq<Step>, c: State, i: nat, kind: Kind)
    requires Reaches(Init(n), steps, c) && i < n
    ensures c.Size() == n && InBatches(c.nodes[i].At(Written(kind)))
    ensures 32 % n == 0 ==> forall x :: x in c.nodes[i].At(Written(kind)) ==> (Code(x) - i) % n == 0
  {
    NothingWritten(n);
    OwnersOnly(n, steps, c, i, Written(kind));
    RunKeepsBatches(Init(n), steps, c);
    if 32 % n == 0 {
      forall x | x in c.nodes[i].At(Written(kind))
        ensures (Code(x) - i) % n == 0
      {
        OwnsByCode(x, i, n);
      }
    }
  }

  lemma NothingWritten(n: nat)
    ensures Inv(Init(n)) && AllInBatches(Init(n))
  {
    assert AreBatches([]) && Flatten<Key>([]) == [];
  }
}

/** The batches that a redirection thread sends.

    The inner loop leaves by `break` before it advances, so the last key of every full batch is the
    first key of the next one.
 */
module Batching {
  import opened Keys
  import opened Messages

  const BATCH_COUNT: nat := 100

  function Batches(q: seq<Key>): seq<seq<Key>> {
    if |q| < BATCH_COUNT then [q] else [q[..BATCH_COUNT]] + Batches(q[BATCH_COUNT - 1..])
  }

  /** The messages for a list of batches. */
  function Texts(tag: nat, batches: seq<seq<Key>>): seq<string> {
    if batches == [] then [] else [EncodeAll(tag, batches[0])] + Texts(tag, batches[1..])
  }

  /** Builds the message of one batch and hands it to the client. */
  method SendBatch(tag: nat, cpy: seq<Key>, sent: seq<string>, ghost batches: seq<seq<Key>>) returns (sent': seq<string>)
    requires sent == Texts(tag, batches)
    ensures sent' == Texts(tag, batches + [cpy])
  {
    var message := new ListMessage(tag);
    message.SetData(cpy);
    var text := message.Serialize(0, |cpy|);
    sent' := sent + [text];
    TextsAppend(tag, batches, cpy);
  }

  /** `redirection_thread` and `find_redirection_thread`; `sent` is what goes to the client. */
  method Redirect(tag: nat, q: seq<Key>) returns (sent: seq<string>)
    ensures sent == Texts(tag, Batches(q))
  {
    sent := [];
    ghost var batches := [];
    assert q[0..] == q;
    var k := 0;
    while true
      invariant 0 <= k <= |q|
      invariant sent == Texts(tag, batches)
      invariant batches + Batches(q[k..]) == Batches(q)
      decreases |q| - k
    {
      var count := 0;
      var done := true;
      var cpy := [];
      ghost var start, batchesBefore := k, batches;
      while k < |q|
        invariant start <= k <= |q|
        invariant count == |cpy| == k - start < BATCH_COUNT
        invariant cpy == q[start..k]
        invariant done && batches == batchesBefore && sent == Texts(tag, batches)
      {
        cpy := cpy + [q[k]];
        count := count + 1;
        if BATCH_COUNT == count {
          sent := SendBatch(tag, cpy, sent, batches);
          batches := batches + [cpy];
          assert cpy == q[start..start + BATCH_COUNT];
          done := false;
          break;
        }
        k := k + 1;
      }
      if !done {
        FullBatch(q, start, batchesBefore);
        continue;
      }
      FinalBatch(q, start);
      assert cpy == q[start..|q|];
      sent := SendBatch(tag, cpy, sent, batches);
      batches := batches + [cpy];
      break;
    }
  }

  lemma {:induction false} TextsAppend(tag: nat, batches: seq<seq<Key>>, batch: seq<Key>)
    ensures Texts(tag, batches + [batch]) == Texts(tag, batches) + [EncodeAll(tag, batch)]
  {
    if batches == [] {
      assert batches + [batch] == [batch];
    } else {
      assert (batches + [batch])[1..] == batches[1..] + [batch];
      TextsAppend(tag, batches[1..], batch);
    }
  }

  lemma FullBatch(q: seq<Key>, start: nat, before: seq<seq<Key>>)
    requires start + BATCH_COUNT <= |q|
    ensures before + Batches(q[start..])
         == (before + [q[start..start + BATCH_COUNT]]) + Batches(q[start + BATCH_COUNT - 1..])
  {
    assert q[start..][..BATCH_COUNT] == q[start..start + BATCH_COUNT];
    assert q[start..][BATCH_COUNT - 1..] == q[start + BATCH_COUNT - 1..];
    var rest := Batches(q[start + BATCH_COUNT - 1..]);
    assert before + ([q[start..start + BATCH_COUNT]] + rest) == (before + [q[start..start + BATCH_COUNT]]) + rest;
  }

  lemma FinalBatch(q: seq<Key>, start: nat)
    requires start <= |q| < start + BATCH_COUNT
    ensures Batches(q[start..]) == [q[start..|q|]]
  {
    assert q[start..] == q[start..|q|];
  }

  /** Index of the last batch of a queue of `n` keys: the number of full ones before it. */
  function LastBatch(n: nat): nat
    requires n > 0
  {
    (n - 1) / (BATCH_COUNT - 1)
  }

  lemma SliceOfRest(q: seq<Key>, rest: seq<Key>, b: nat)
    requires |q| >= BATCH_COUNT && rest == q[BATCH_COUNT - 1..] && b > 0 && 99 * (b - 1) <= |rest|
    ensures rest[99 * (b - 1)..Min(|rest|, 99 * (b - 1) + BATCH_COUNT)] == q[99 * b..Min(|q|, 99 * b + BATCH_COUNT)]
  {
  }

  /** Batch `b` is the stretch of 100 keys from index `99 * b` on, cut off at the end of the queue;
      there are `(n - 1) / 99` full ones and one more. */
  lemma {:induction false} BatchShape(q: seq<Key>, b: nat)
    requires q != [] && b <= LastBatch(|q|)
    ensures |Batches(q)| == LastBatch(|q|) + 1
    ensures 99 * b < |q|
    ensures Batches(q)[b] == q[99 * b..Min(|q|, 99 * b + BATCH_COUNT)]
    ensures |Batches(q)[b]| == BATCH_COUNT <==> b < LastBatch(|q|)
  {
    if |q| >= BATCH_COUNT {
      var rest := q[BATCH_COUNT - 1..];
      assert LastBatch(|q|) == LastBatch(|rest|) + 1;
      BatchShape(rest, if b == 0 then 0 else b - 1);
      if b > 0 {
        assert Batches(q)[b] == Batches(rest)[b - 1];
        SliceOfRest(q, rest, b);
      }
    }
  }

  /** The batches that contain the key at index `j`. */
  function Carriers(q: seq<Key>, j: nat): set<nat>
    requires j < |q|
  {
    set b | 0 <= b < |Batches(q)| && 99 * b <= j < 99 * b + |Batches(q)[b]|
  }

  /** The indices 99, 198, ... are sent twice, in two neighbouring batches, and every other index once. */
  lemma SentOnceOrTwice(q: seq<Key>, j: nat)
    requires j < |q|
    ensures var b := j / 99;
            Carriers(q, j) == (if j % 99 == 0 && j > 0 then {b - 1, b} else {b})
  {
    var last := LastBatch(|q|);
    BatchShape(q, 0);
    forall b | 0 <= b <= last
      ensures |Batches(q)[b]| == Min(|q|, 99 * b + 100) - 99 * b
    {
      BatchShape(q, b);
    }
    assert j / 99 <= last;
    var twice := j % 99 == 0 && j > 0;
    forall b
      ensures b in Carriers(q, j) <==> b == j / 99 || (twice && b == j / 99 - 1)
    {
    }
  }

  /** Nothing is lost and nothing invented, and even of nothing there is one batch. */
  lemma {:induction false} BatchesHoldQueue(q: seq<Key>)
    ensures Elements(Flatten(Batches(q))) == Elements(q) && |Batches(q)| > 0
  {
    if |q| < BATCH_COUNT {
      assert Flatten([q]) == q;
    } else {
      var rest := q[BATCH_COUNT - 1..];
      BatchesHoldQueue(rest);
      assert Batches(q)[1..] == Batches(rest);
      var all := Flatten(Batches(rest));
      assert Flatten(Batches(q)) == q[..BATCH_COUNT] + all;
      forall x
        ensures x in Flatten(Batches(q)) <==> x in q
      {
        assert x in all <==> x in Elements(all);
        assert x in rest <==> x in Elements(rest);
        assert q == q[..BATCH_COUNT - 1] + rest;
      }
    }
  }
}

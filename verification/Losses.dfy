/** Two runs that a cluster can take: one that invents a key, because a message brought an empty key to a node
    that does not own it, and one that comes to rest with more keys in a vector than its threshold allows.
 */
module Losses {
  import opened Machine
  import opened Keys
  import opened Text
  import opened Ring
  import opened Messages
  import opened Batching
  import opened Nodes
  import opened Cluster
  import opened Delivery
  import opened Rounds
  import opened Runs
  import opened Weights
  import Packets

  /** A key that node 0 owns, in every ring whose size divides 32. */
  const LOW: Key := "@"

  predicate StartsLow(x: Key) {
    IsToken(x) && x[0] == '@' && Packets.NoNul(x)
  }

  lemma LowOwner(x: Key, n: nat)
    requires n > 0 && 32 % n == 0 && (x == "" || StartsLow(x))
    ensures Owner(x, n) == 0
  {
    var d := 32 / n;
    assert 64 == (2 * d) * n;
    ModUnique(64, 2 * d, 0, n);
    ModUnique(0, 0, 0, n);
  }

  /** The link that leads another node towards node 0. */
  function LowLink(i: nat, n: nat): nat
    requires 0 < i < n
  {
    OtherNodeDistance(i, 0, n);
    TopBit(Distance(i, 0, n))
  }

  lemma LowSlot(x: Key, i: nat, n: nat, kind: Kind)
    requires 0 < i < n && 32 % n == 0 && (x == "" || StartsLow(x))
    ensures RouteSlot(i, n, kind, x) == Sorting(kind, LowLink(i, n))
  {
    LowOwner(x, n);
  }

  function Fill(m: nat): (keys: seq<Key>)
    ensures |keys| == m && AllTokens(keys) && forall x :: x in keys ==> x == LOW
  {
    seq(m, _ => LOW)
  }

  // ---------- Messages that come out of a session as they went in ----------

  lemma {:induction false} FillLength(m: nat)
    ensures |Joined(Fill(m))| == 2 * m
  {
    if m > 0 {
      FillLength(m - 1);
      assert Fill(m)[1..] == Fill(m - 1);
    }
  }

  lemma {:induction false} JoinedNoNul(values: seq<string>)
    requires Packets.AllNoNul(values)
    ensures Packets.NoNul(Joined(values))
  {
    if values != [] {
      JoinedNoNul(values[1..]);
      assert Packets.NoNul(values[0]);
    }
  }

  lemma DigitsNoNul(n: nat)
    ensures Packets.NoNul(Digits(n))
  {
  }

  /** What an encoded list adds to the text of its values is between 6 and 63 characters long, none of them NUL. */
  lemma EncodedShape(tag: nat, data: seq<string>)
    requires tag < WORD && |data| < WORD && Packets.AllNoNul(data)
    ensures |Joined(data)| + 6 <= |EncodeAll(tag, data)| <= |Joined(data)| + 63
    ensures Packets.NoNul(EncodeAll(tag, data))
  {
    var sum := CheckSum(Body(tag, |data|, data));
    EncodedText(tag, data);
    WordLength(tag);
    WordLength(|data|);
    WordLength(sum);
    DigitsNoNul(tag);
    DigitsNoNul(|data|);
    DigitsNoNul(sum);
    JoinedNoNul(data);
  }

  lemma IntactList(tag: nat, data: seq<string>)
    requires tag < WORD && |data| < WORD && Packets.AllNoNul(data)
    requires |Joined(data)| % Packets.MAX_LENGTH <= 4000
    ensures Packets.Intact(EncodeAll(tag, data))
  {
    EncodedShape(tag, data);
    NoMultiple(|Joined(data)|, |EncodeAll(tag, data)|);
  }

  lemma NoMultiple(a: nat, b: nat)
    requires a % Packets.MAX_LENGTH <= 4000 && a + 6 <= b <= a + 63
    ensures b % Packets.MAX_LENGTH != 0
  {
  }

  // ---------- A key that is invented ----------

  /** The batch that an empty key at the head of a vector is sent in. */
  function Batch(y: Key): (keys: seq<Key>)
    ensures |keys| == BATCH_COUNT
  {
    ["", y] + Fill(BATCH_COUNT - 2)
  }

  lemma BatchJoined(y: Key)
    ensures Joined(Batch(y)) == " " + (y + " " + Joined(Fill(BATCH_COUNT - 2)))
  {
    assert Batch(y)[1..] == [y] + Fill(BATCH_COUNT - 2);
    assert Batch(y)[1..][1..] == Fill(BATCH_COUNT - 2);
    assert "" + " " == " ";
  }

  lemma BatchText(tag: nat, y: Key)
    ensures Body(tag, BATCH_COUNT, Batch(y))
            == (Digits(tag) + " " + (Digits(BATCH_COUNT) + " " + " ")) + y + (" " + Joined(Fill(BATCH_COUNT - 2)))
  {
    BatchJoined(y);
  }

  /** A key of a given length, with a given number of characters one higher than the others. */
  function LowKey(length: nat, k: nat): (y: Key)
    requires k < length
    ensures |y| == length && StartsLow(y)
  {
    Repeat('@', length - k) + Repeat('A', k)
  }

  lemma LowKeySum(length: nat, k: nat)
    requires k < length
    ensures CheckSum(LowKey(length, k)) == ToWord(65 * length + k)
  {
    CheckSumRepeat('@', length - k);
    CheckSumRepeat('A', k);
    SumOfTwo(Repeat('@', length - k), Repeat('A', k), (length - k) * 65, k * 66);
    assert (length - k) * 65 + k * 66 == 65 * length + k;
  }

  /** What the check sum of the batch is without the higher characters. */
  function BatchBase(tag: nat, length: nat): nat {
    CheckSum(Digits(tag) + " " + (Digits(BATCH_COUNT) + " " + " ")) + CheckSum(" " + Joined(Fill(BATCH_COUNT - 2))) + 65 * length
  }

  /** One character that is higher raises the check sum of the batch by one. */
  lemma LowKeyBatch(tag: nat, length: nat, k: nat)
    requires k < length
    ensures CheckSum(Body(tag, BATCH_COUNT, Batch(LowKey(length, k)))) == ToWord(BatchBase(tag, length) + k)
  {
    var a := Digits(tag) + " " + (Digits(BATCH_COUNT) + " " + " ");
    var b := " " + Joined(Fill(BATCH_COUNT - 2));
    BatchText(tag, LowKey(length, k));
    LowKeySum(length, k);
    ToWordSmall(CheckSum(a));
    ToWordSmall(CheckSum(b));
    SumOfTwo(a, LowKey(length, k), CheckSum(a), 65 * length + k);
    SumOfTwo(a + LowKey(length, k), b, CheckSum(a) + (65 * length + k), CheckSum(b));
  }

  function BatchSum(kind: Kind, y: Key): (sum: Key)
    ensures sum != "" && IsDigit(sum[0])
  {
    Digits(CheckSum(Body(Tag(kind), BATCH_COUNT, Batch(y))))
  }

  /** The batch of an empty key is received with its check sum for a key. */
  lemma BatchCarriesSum(kind: Kind, y: Key)
    requires StartsLow(y)
    ensures var keys := Carried(EncodeAll(Tag(kind), Batch(y)));
            keys.0 == kind && BatchSum(kind, y) in keys.1
  {
    assert AllValues(Batch(y)) && Batch(y)[0] == "";
    CarriedWithEmpties(kind, Batch(y));
    var rest := [BatchSum(kind, y)] + Empties(|Batch(y)| - |Tokens(Batch(y))| - 1);
    assert rest[0] in rest;
  }

  lemma NotInHistory(kind: Kind, x: Key, i: nat, k: Kind, keys: seq<Key>)
    requires x !in keys
    ensures Times(kind, x, History(i, k, keys)) == 0
  {
    TimesHistory(kind, x, i, k, keys);
    WeighCounting(kind, x, i, InInbox, k, keys);
  }

  /** A length that leaves room for one key more than the message has, and that no list makes up to a multiple
      of the read buffer. */
  function RoomFor(m: nat): (length: nat)
    ensures m < length <= m + Packets.MAX_LENGTH && length % Packets.MAX_LENGTH == 1
  {
    Packets.MAX_LENGTH * ((m + Packets.MAX_LENGTH - 1) / Packets.MAX_LENGTH) + 1
  }

  /** The key to put behind the last empty key of a message, so that the check sum is no key of the message. */
  lemma KeyForMessage(kind: Kind, keys: seq<Key>) returns (y: Key)
    requires |keys| < WORD
    ensures StartsLow(y) && BatchSum(kind, y) !in keys
    ensures |y| <= |keys| + Packets.MAX_LENGTH && |y| % Packets.MAX_LENGTH == 1
  {
    var length := RoomFor(|keys|);
    ElementsSize(keys);
    var k := FreeWord(BatchBase(Tag(kind), length), Elements(keys));
    y := LowKey(length, k);
    LowKeyBatch(Tag(kind), length, k);
    assert BatchSum(kind, y) in keys ==> BatchSum(kind, y) in Elements(keys);
  }

  lemma BatchIsIntact(kind: Kind, y: Key)
    requires StartsLow(y) && |y| % Packets.MAX_LENGTH == 1
    ensures Packets.Intact(EncodeAll(Tag(kind), Batch(y)))
  {
    BatchJoined(y);
    FillLength(BATCH_COUNT - 2);
    assert Packets.AllNoNul(Batch(y));
    IntactList(Tag(kind), Batch(y));
  }

  /** A message of keys that node 0 owns, sent to another node: they all wait for the same link. */
  lemma FillRouted(i: nat, text: string, c: State, n: nat, kind: Kind, queued: seq<Key>, keys: seq<Key>) returns (c': State)
    requires 0 < i < n && Queued(c, n, i, kind, LowLink(i, n), queued)
    requires 32 % n == 0 && |keys| < WORD && AllTokens(keys) && forall x :: x in keys ==> StartsLow(x)
    requires Packets.Intact(EncodeAll(Tag(kind), keys))
    ensures CanSend(i, text, c, c') && Queued(c', n, i, kind, LowLink(i, n), queued + keys)
    ensures c'.injected == c.injected + History(i, kind, keys)
  {
    var message := EncodeAll(Tag(kind), keys);
    var slot := Sorting(kind, LowLink(i, n));
    CarriedRoundTrip(kind, keys);
    c' := AfterMessage(c, i, message);
    MessageRouted(i, text, c, i, message);
    forall x | x in keys
      ensures RouteSlot(i, n, kind, x) == slot
    {
      LowSlot(x, i, n, kind);
    }
    RoutedAll(keys, i, n, kind, slot);
    AfterMessageAt(c, i, message, slot);
    AfterMessageAt(c, i, message, Forwarding(kind, LowLink(i, n)));
    NeverForwarding(keys, i, n, kind, LowLink(i, n));
  }

  /** The keys of the message that wait for the link towards node 0. */
  function Added(i: nat, n: nat, text: string): seq<Key>
    requires 0 < i < n
  {
    RoutedTo(Carried(text).1, i, n, Carried(text).0, Sorting(Carried(text).0, LowLink(i, n)))
  }

  lemma AddedEndsEmpty(i: nat, n: nat, text: string)
    requires 0 < i < n && 32 % n == 0 && !AllTokens(Carried(text).1)
    ensures Added(i, n, text) != [] && Added(i, n, text)[|Added(i, n, text)| - 1] == ""
  {
    var (kind, keys) := Carried(text);
    CarriedAreValues(text);
    LowSlot("", i, n, kind);
    RoutedLast(keys, i, n, kind, Sorting(kind, LowLink(i, n)));
  }

  lemma TextRouted(i: nat, text: string, c: State, n: nat, queued: seq<Key>) returns (c': State)
    requires 0 < i < n && Queued(c, n, i, Carried(text).0, LowLink(i, n), queued)
    ensures CanSend(i, text, c, c') && Queued(c', n, i, Carried(text).0, LowLink(i, n), queued + Added(i, n, text))
    ensures c'.injected == c.injected + History(i, Carried(text).0, Carried(text).1)
  {
    var (kind, keys) := Carried(text);
    c' := AfterMessage(c, i, text);
    MessageRouted(i, text, c, i, text);
    AfterMessageAt(c, i, text, Sorting(kind, LowLink(i, n)));
    AfterMessageAt(c, i, text, Forwarding(kind, LowLink(i, n)));
    NeverForwarding(keys, i, n, kind, LowLink(i, n));
  }

  lemma NeverForwarding(keys: seq<Key>, i: nat, n: nat, kind: Kind, link: nat)
    requires i < n
    ensures RoutedTo(keys, i, n, kind, Forwarding(kind, link)) == []
  {
    RoutedNone(keys, i, n, kind, Forwarding(kind, link));
  }

  /** The vector at whose head the last empty key is goes out, and its first batch arrives. */
  lemma HeadIsSent(i: nat, text: string, c: State, n: nat, kind: Kind, y: Key, queued: seq<Key>) returns (c': State)
    requires 0 < i < n && StartsLow(y) && |y| % Packets.MAX_LENGTH == 1
    requires Queued(c, n, i, kind, LowLink(i, n), queued)
    requires |queued| % (THRESHOLD + 1) == 0 && |queued| > THRESHOLD
    requires queued[|queued| - (THRESHOLD + 1)..] == Batch(y) + Fill(THRESHOLD + 1 - BATCH_COUNT)
    ensures CanSend(i, text, c, c') && c'.injected == c.injected
    ensures Held(c', kind, BatchSum(kind, y))
  {
    var link, r := LowLink(i, n), |queued| / (THRESHOLD + 1) - 1;
    assert (THRESHOLD + 1) * r == |queued| - (THRESHOLD + 1);
    var vector := Batch(y) + Fill(THRESHOLD + 1 - BATCH_COUNT);
    var c1 := DrainMany(i, text, c, n, i, kind, link, queued, r);
    var c2, thread := DrainVector(i, text, c1, n, i, kind, link, vector);
    assert vector[..THRESHOLD + 1] == vector && vector[..BATCH_COUNT] == Batch(y);
    Then(i, text, c, c1, c2);
    BatchIsIntact(kind, y);
    assert SentText(c2.senders[thread]) == EncodeAll(Tag(kind), Batch(y));
    c' := Apply(c2, Send(thread));
    One(i, text, c2, Send(thread));
    Then(i, text, c, c2, c');
    BatchArrives(c2, thread, kind, y);
  }

  lemma ArrivedIsHeld(c: State, j: nat, kind: Kind, keys: seq<Key>, before: seq<string>, x: Key)
    requires j < c.Size() && c.nodes[j].inbox == before + [EncodeAll(Tag(kind), keys)]
    requires Carried(EncodeAll(Tag(kind), keys)).0 == kind && x in Carried(EncodeAll(Tag(kind), keys)).1
    ensures Held(c, kind, x)
  {
    var text, inbox := EncodeAll(Tag(kind), keys), c.nodes[j].inbox;
    assert inbox[|inbox| - 1] == text;
    assert MessageHolds(text, kind, x);
    assert NodeHolds(c.nodes[j], kind, x);
  }

  lemma BatchArrives(c: State, thread: nat, kind: Kind, y: Key)
    requires Enabled(c, Send(thread)) && StartsLow(y)
    requires var s := c.senders[thread];
             s.kind == kind && |s.rest| >= BATCH_COUNT && s.rest[..BATCH_COUNT] == Batch(y)
    ensures var c' := Apply(c, Send(thread));
            c'.injected == c.injected && Held(c', kind, BatchSum(kind, y))
  {
    var s, c' := c.senders[thread], Apply(c, Send(thread));
    BatchCarriesSum(kind, y);
    ArrivedIsHeld(c', s.target, kind, Batch(y), c.nodes[s.target].inbox, BatchSum(kind, y));
  }

  ghost predicate Conserves(c: State) {
    forall kind, x :: Held(c, kind, x) <==> Sent(c, kind, x)
  }

  lemma NotSent(c: State, kind: Kind, x: Key, i: nat, a: seq<Key>, b: seq<Key>, d: seq<Key>)
    requires c.injected == History(i, kind, a) + History(i, kind, b) + History(i, kind, d)
    requires x !in a && x !in b && x !in d
    ensures !Sent(c, kind, x)
  {
    NotInHistory(kind, x, i, kind, a);
    NotInHistory(kind, x, i, kind, b);
    NotInHistory(kind, x, i, kind, d);
    TimesAppend(kind, x, History(i, kind, a), History(i, kind, b));
    TimesAppend(kind, x, History(i, kind, a) + History(i, kind, b), History(i, kind, d));
    SentIffTimes(kind, x, c.injected);
  }

  /** In front of the message and behind it come as many keys as it takes to have its last empty key at the
      head of a vector. */
  lemma QueueEnds(front: seq<Key>, added: seq<Key>, tail: seq<Key>, y: Key)
    requires added != [] && added[|added| - 1] == ""
    requires |front| == (1 - |added|) % (THRESHOLD + 1) && tail == [y] + Fill(THRESHOLD - 1)
    ensures var queued := front + added + tail;
            && |queued| % (THRESHOLD + 1) == 0 && |queued| > THRESHOLD
            && queued[|queued| - (THRESHOLD + 1)..] == Batch(y) + Fill(THRESHOLD + 1 - BATCH_COUNT)
  {
    var queued := front + added + tail;
    assert |queued| == |front| + |added| + THRESHOLD;
    assert queued[|queued| - (THRESHOLD + 1)..] == [""] + tail;
    assert [""] + tail == Batch(y) + Fill(THRESHOLD + 1 - BATCH_COUNT);
  }

  /** Keys for node 0 that one message can bring. */
  ghost predicate FitsMessage(kind: Kind, keys: seq<Key>) {
    && |keys| < WORD && AllTokens(keys) && (forall x :: x in keys ==> StartsLow(x))
    && Packets.Intact(EncodeAll(Tag(kind), keys))
  }

  lemma FrontFits(kind: Kind, m: nat)
    requires m <= THRESHOLD + 1
    ensures FitsMessage(kind, Fill(m))
  {
    FillLength(m);
    IntactList(Tag(kind), Fill(m));
  }

  lemma TailFits(kind: Kind, y: Key)
    requires StartsLow(y) && |y| % Packets.MAX_LENGTH == 1
    ensures FitsMessage(kind, [y] + Fill(THRESHOLD - 1))
  {
    var tail := [y] + Fill(THRESHOLD - 1);
    assert tail[1..] == Fill(THRESHOLD - 1);
    FillLength(THRESHOLD - 1);
    assert |Joined(tail)| == |y| + 1 + 2 * (THRESHOLD - 1);
    IntactList(Tag(kind), tail);
  }

  /** The message between the two that make up the vector. */
  lemma QueueIsBuilt(n: nat, i: nat, text: string, kind: Kind, keys: seq<Key>, front: seq<Key>, tail: seq<Key>) returns (c: State)
    requires 0 < i < n && 32 % n == 0 && (kind, keys) == Carried(text)
    requires FitsMessage(kind, front) && FitsMessage(kind, tail)
    ensures CanSend(i, text, Init(n), c)
    ensures Queued(c, n, i, kind, LowLink(i, n), front + Added(i, n, text) + tail)
    ensures c.injected == History(i, kind, front) + History(i, kind, keys) + History(i, kind, tail)
  {
    var c1 := FillRouted(i, text, Init(n), n, kind, [], front);
    assert [] + front == front;
    var c2 := TextRouted(i, text, c1, n, front);
    c := FillRouted(i, text, c2, n, kind, front + Added(i, n, text), tail);
    Then(i, text, Init(n), c1, c2);
    Then(i, text, Init(n), c2, c);
    assert [] + History(i, kind, front) == History(i, kind, front);
  }

  lemma QueueLoses(n: nat, i: nat, text: string, kind: Kind, keys: seq<Key>, y: Key, front: seq<Key>, tail: seq<Key>, queued: seq<Key>)
    returns (c: State)
    requires 0 < i < n && 32 % n == 0 && (kind, keys) == Carried(text)
    requires StartsLow(y) && |y| % Packets.MAX_LENGTH == 1
    requires queued == front + Added(i, n, text) + tail && FitsMessage(kind, front) && FitsMessage(kind, tail)
    requires |queued| % (THRESHOLD + 1) == 0 && |queued| > THRESHOLD
    requires queued[|queued| - (THRESHOLD + 1)..] == Batch(y) + Fill(THRESHOLD + 1 - BATCH_COUNT)
    ensures CanSend(i, text, Init(n), c)
    ensures c.injected == History(i, kind, front) + History(i, kind, keys) + History(i, kind, tail)
    ensures Held(c, kind, BatchSum(kind, y))
  {
    var c1 := QueueIsBuilt(n, i, text, kind, keys, front, tail);
    c := HeadIsSent(i, text, c1, n, kind, y, queued);
    Then(i, text, Init(n), c1, c);
  }

  /** What to put in front of the message, and behind it. */
  lemma FrontAndTail(kind: Kind, added: seq<Key>, y: Key) 
    returns (front: seq<Key>, tail: seq<Key>, queued: seq<Key>)
    requires added != [] && added[|added| - 1] == "" && StartsLow(y) && |y| % Packets.MAX_LENGTH == 1
    ensures FitsMessage(kind, front) && FitsMessage(kind, tail)
    ensures forall x :: x in front || x in tail ==> x == LOW || x == y
    ensures queued == front + added + tail && |queued| % (THRESHOLD + 1) == 0 && |queued| > THRESHOLD
    ensures queued[|queued| - (THRESHOLD + 1)..] == Batch(y) + Fill(THRESHOLD + 1 - BATCH_COUNT)
  {
    front, tail := Fill((1 - |added|) % (THRESHOLD + 1)), [y] + Fill(THRESHOLD - 1);
    queued := front + added + tail;
    QueueEnds(front, added, tail, y);
    FrontFits(kind, |front|);
    TailFits(kind, y);
  }

  /** Every key that has been sent is one of these, or not much longer than there are of them. */
  predicate ShortOrAmong(injected: seq<(nat, Kind, Key)>, keys: seq<Key>) {
    forall j :: 0 <= j < |injected| ==> injected[j].2 in keys || |injected[j].2| <= |keys| + Packets.MAX_LENGTH
  }

  lemma SumIsInvented(n: nat, i: nat, text: string, kind: Kind, keys: seq<Key>, added: seq<Key>, y: Key) returns (c: State)
    requires 0 < i < n && 32 % n == 0 && (kind, keys) == Carried(text) && added == Added(i, n, text)
    requires added != [] && added[|added| - 1] == ""
    requires StartsLow(y) && |y| <= |keys| + Packets.MAX_LENGTH && |y| % Packets.MAX_LENGTH == 1
    requires BatchSum(kind, y) !in keys
    ensures CanSend(i, text, Init(n), c) && !Conserves(c) && ShortOrAmong(c.injected, keys)
  {
    var front, tail, queued := FrontAndTail(kind, added, y);
    c := QueueLoses(n, i, text, kind, keys, y, front, tail, queued);
    SumIsNew(c, kind, BatchSum(kind, y), i, front, keys, tail);
    AllShort(c.injected, i, kind, front, keys, tail);
  }

  /** A message that brings an empty key to a node that does not own it can make the cluster hold a key that
      nobody has sent, though every other message is clean and all of them come out of their sessions as they
      went in. */
  lemma DirtyMessageLoses(n: nat, i: nat, text: string) returns (c: State)
    requires i < n && 32 % n == 0 && !Clean(i, text)
    ensures CanSend(i, text, Init(n), c) && !Conserves(c)
    ensures ShortOrAmong(c.injected, Carried(text).1)
  {
    var (kind, keys) := Carried(text);
    CarriedAreValues(text);
    AddedEndsEmpty(i, n, text);
    var y := KeyForMessage(kind, keys);
    c := SumIsInvented(n, i, text, kind, keys, Added(i, n, text), y);
  }

  lemma AllShort(injected: seq<(nat, Kind, Key)>, i: nat, kind: Kind, front: seq<Key>, keys: seq<Key>, tail: seq<Key>)
    requires injected == History(i, kind, front) + History(i, kind, keys) + History(i, kind, tail)
    requires forall x :: x in front || x in tail ==> |x| <= |keys| + Packets.MAX_LENGTH
    ensures ShortOrAmong(injected, keys)
  {
    forall j | 0 <= j < |injected|
      ensures injected[j].2 in keys || |injected[j].2| <= |keys| + Packets.MAX_LENGTH
    {
      if j < |front| {
        assert injected[j].2 == front[j];
      } else if j < |front| + |keys| {
        assert injected[j].2 == keys[j - |front|];
      } else {
        assert injected[j].2 == tail[j - |front| - |keys|];
      }
    }
  }

  lemma SumIsNew(c: State, kind: Kind, sum: Key, i: nat, front: seq<Key>, keys: seq<Key>, tail: seq<Key>)
    requires c.injected == History(i, kind, front) + History(i, kind, keys) + History(i, kind, tail)
    requires sum != "" && IsDigit(sum[0]) && sum !in keys && Held(c, kind, sum)
    requires forall x :: x in front || x in tail ==> StartsLow(x)
    ensures !Conserves(c)
  {
    NotSent(c, kind, sum, i, front, keys, tail);
  }

  lemma CleanConserves(n: nat, i: nat, text: string, c: State)
    requires i < n && Clean(i, text) && CanReach(i, text, Init(n), c)
    ensures Conserves(c)
  {
    var steps :| Reaches(Init(n), steps, c) && AllowedRun(steps, i, text);
    assert CleanRun(steps);
    forall kind, x
      ensures Held(c, kind, x) <==> Sent(c, kind, x)
    {
      KeysConserved(n, steps, c, kind, x);
    }
  }

  /** A message is safe to send, in that no run of otherwise clean messages with it loses or invents a key,
      exactly when it has no empty key or goes to node 0, which owns the empty key. Whether the other messages
      are any or only such as come out of their sessions as they went in makes no difference. */
  lemma ConservedIffClean(n: nat, i: nat, text: string)
    requires i < n && 32 % n == 0
    ensures Clean(i, text) <==> forall c :: CanReach(i, text, Init(n), c) ==> Conserves(c)
    ensures Clean(i, text) <==> forall c :: CanSend(i, text, Init(n), c) ==> Conserves(c)
  {
    if Clean(i, text) {
      forall c | CanReach(i, text, Init(n), c) || CanSend(i, text, Init(n), c)
        ensures Conserves(c)
      {
        if CanSend(i, text, Init(n), c) {
          SendIsReach(i, text, Init(n), c);
        }
        CleanConserves(n, i, text, c);
      }
    } else {
      var c := DirtyMessageLoses(n, i, text);
      SendIsReach(i, text, Init(n), c);
    }
  }

  // ---------- A vector that stays full ----------

  /** Nothing but one node's vector of find keys holds anything. */
  ghost predicate OnlyWriting(c: State, j: nat) {
    && c.senders == map[] && j < c.Size()
    && (forall k :: 0 <= k < c.Size() ==> c.nodes[k].inbox == [] && c.nodes[k].writer.Getting?)
    && (forall k, s :: 0 <= k < c.Size() && !(k == j && s == Writing(Find)) ==> c.nodes[k].At(s) == [])
  }

  lemma OnlyWritingRests(c: State, j: nat)
    requires OnlyWriting(c, j)
    ensures Quiescent(c)
  {
    forall step | Enabled(c, step)
      ensures step.Inject?
    {
    }
  }

  lemma OwnRouted(n: nat, keys: seq<Key>, s: Slot)
    requires n > 0 && 32 % n == 0 && forall x :: x in keys ==> StartsLow(x)
    ensures RoutedTo(keys, 0, n, Find, s) == if s == Output(Find) then keys else []
  {
    forall x | x in keys
      ensures RouteSlot(0, n, Find, x) == Output(Find)
    {
      LowOwner(x, n);
    }
    if s == Output(Find) {
      RoutedAll(keys, 0, n, Find, s);
    } else {
      RoutedNone(keys, 0, n, Find, s);
    }
  }

  /** Node 0 after a client has sent it keys of its own to find. */
  lemma OwnMessageAt(c: State, message: string, keys: seq<Key>, s: Slot)
    requires c.Size() > 0 && 32 % c.Size() == 0 && c.nodes[0] == Node([], map[], Getting(false))
    requires Carried(message) == (Find, keys) && forall x :: x in keys ==> StartsLow(x)
    ensures var next := AfterMessage(c, 0, message).nodes[0];
            && next.inbox == [] && next.writer == Getting(false)
            && next.At(s) == if s == Output(Find) then keys else []
  {
    AfterMessageAt(c, 0, message, s);
    OwnRouted(c.Size(), keys, s);
    if s.Pending? {
      OnlyTwoPending(AfterMessage(c, 0, message).nodes[0], s);
    }
  }

  lemma OnlyTwoPending(node: Node, s: Slot)
    requires Settled(node) && s.Pending?
    ensures node.At(s) == []
  {
    assert s == Pending(s.kind);
    assert s.kind == Store || s.kind == Find;
  }

  /** Node 0 has some find keys to collect and nothing else. */
  ghost predicate Collecting(node: Node, output: nat, writing: nat) {
    && node.inbox == [] && node.writer == Getting(false)
    && |node.At(Output(Find))| == output && |node.At(Writing(Find))| == writing
    && forall s :: s != Output(Find) && s != Writing(Find) ==> node.At(s) == []
  }

  lemma OutputIsFull(n: nat) returns (c: State)
    requires n > 0 && 32 % n == 0
    ensures CanSend(0, "", Init(n), c) && c.Size() == n && OnlyFirst(c)
    ensures Collecting(c.nodes[0], THRESHOLD + 1, 0)
  {
    var keys := Fill(THRESHOLD + 1);
    var message := EncodeAll(Tag(Find), keys);
    CarriedRoundTrip(Find, keys);
    FrontFits(Find, THRESHOLD + 1);
    c := AfterMessage(Init(n), 0, message);
    MessageRouted(0, "", Init(n), 0, message);
    forall s
      ensures c.nodes[0].inbox == [] && c.nodes[0].writer == Getting(false)
      ensures c.nodes[0].At(s) == if s == Output(Find) then keys else []
    {
      OwnMessageAt(Init(n), message, keys, s);
    }
    assert c.nodes[0].At(Output(Find)) == keys;
  }

  /** The output of node 0 has been collected up to one key. */
  lemma OneLeft(n: nat) returns (c: State)
    requires n > 0 && 32 % n == 0
    ensures CanSend(0, "", Init(n), c) && c.Size() == n && OnlyFirst(c)
    ensures Collecting(c.nodes[0], 1, THRESHOLD)
  {
    var full := OutputIsFull(n);
    c := CollectOutputs(0, "", full, 0, THRESHOLD);
    Then(0, "", Init(n), full, c);
    forall s
      ensures s != Output(Find) && s != Writing(Find) ==> c.nodes[0].At(s) == []
    {
    }
  }

  /** With the last key the vector exceeds its threshold. */
  lemma LastFillsUp(node: Node)
    requires Collecting(node, 1, THRESHOLD)
    ensures var next := CollectOutput(node, Find);
            && next.writer.Trying? && next.inbox == [] && |next.At(Writing(Find))| == THRESHOLD + 1
            && forall s :: s != Writing(Find) ==> next.At(s) == []
  {
    var next := CollectOutput(node, Find);
    forall s
      ensures s != Writing(Find) ==> next.At(s) == []
    {
      MoveAt(node, Output(Find), Writing(Find), s);
    }
    MoveAt(node, Output(Find), Writing(Find), Writing(Find));
  }

  /** Only node 0 has anything at all, and no thread is on its way. */
  predicate OnlyFirst(c: State) {
    c.Size() > 0 && c.senders == map[] && forall k :: 0 < k < c.Size() ==> c.nodes[k] == Node([], map[], Getting(false))
  }

  lemma MissesLast(c: State) returns (c': State)
    requires OnlyFirst(c) && c.nodes[0].writer.Trying? && c.nodes[0].inbox == []
    requires |c.nodes[0].At(Writing(Find))| > THRESHOLD
    requires forall s :: s != Writing(Find) ==> c.nodes[0].At(s) == []
    ensures CanSend(0, "", c, c') && c'.Size() == c.Size()
    ensures Quiescent(c') && |c'.nodes[0].At(Writing(Find))| > THRESHOLD
  {
    c' := c.WithNode(0, Nodes.MissLock(c.nodes[0]));
    assert c' == Apply(c, Step.MissLock(0));
    One(0, "", c, Step.MissLock(0));
    assert forall s :: c'.nodes[0].At(s) == c.nodes[0].At(s);
    RestsAt(c');
  }

  lemma CollectsLast(c: State) returns (c': State)
    requires OnlyFirst(c) && Collecting(c.nodes[0], 1, THRESHOLD)
    ensures CanSend(0, "", c, c') && c'.Size() == c.Size()
    ensures OnlyFirst(c') && c'.nodes[0].writer.Trying? && c'.nodes[0].inbox == []
    ensures |c'.nodes[0].At(Writing(Find))| > THRESHOLD
    ensures forall s :: s != Writing(Find) ==> c'.nodes[0].At(s) == []
  {
    c' := c.WithNode(0, CollectOutput(c.nodes[0], Find));
    assert c' == Apply(c, CollectForOutput(0, Find));
    One(0, "", c, CollectForOutput(0, Find));
    LastFillsUp(c.nodes[0]);
  }

  /** The last of these keys is collected while somebody else has the lock: the cluster comes to rest with more
      than the threshold in the vector, and only another find key would make the thread try again. */
  lemma FindWriterStuck(n: nat) returns (steps: seq<Step>, c: State)
    requires n > 0 && 32 % n == 0
    ensures RealRun(Init(n), steps, c, 0, "") && Reaches(Init(n), steps, c) && CleanRun(steps)
    ensures Quiescent(c) && c.Size() == n && |c.nodes[0].At(Writing(Find))| > THRESHOLD
  {
    var c1 := OneLeft(n);
    var c2 := CollectsLast(c1);
    c := MissesLast(c2);
    Then(0, "", Init(n), c1, c2);
    Then(0, "", Init(n), c2, c);
    steps :| RealRun(Init(n), steps, c, 0, "");
    RealIsRun(Init(n), steps, c, 0, "");
  }

  lemma RestsAt(c: State)
    requires OnlyFirst(c) && c.nodes[0].inbox == [] && c.nodes[0].writer.Getting?
    requires forall s :: s != Writing(Find) ==> c.nodes[0].At(s) == []
    ensures Quiescent(c)
  {
    OnlyWritingRests(c, 0);
  }
}

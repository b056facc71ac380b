/** How a session of the server numbers what it reads, and how the reads are put together again. */
module Packets {
  import opened Keys

  /** The size of the read buffer. */
  const MAX_LENGTH := 4096

  const NUL := '\0'

  datatype Packet = Packet(data: string, index: nat)

  // ---------- handle_read, handle_write ----------

  predicate NoNul(s: string) {
    NUL !in s
  }

  /** A `std::string` made from the buffer: it ends at the first NUL, or where the read ended. */
  function CString(s: string): (c: string)
    ensures NoNul(c)
    ensures c <= s && (c == s || s[|c|] == NUL)
  {
    if s == "" || s[0] == NUL then "" else [s[0]] + CString(s[1..])
  }

  lemma {:induction false} CStringIs(s: string)
    requires NoNul(s)
    ensures CString(s) == s
  {
    if s != "" {
      assert s[0] in s;
      CStringIs(s[1..]);
    }
  }

  /** The packets of a session: the index goes up once for the read and once for the echo. */
  function Numbered(blocks: seq<string>, index: nat): (packets: seq<Packet>) {
    if blocks == [] then [] else [Packet(CString(blocks[0]), index)] + Numbered(blocks[1..], index + 2)
  }

  class Session {
    var packetQueue: seq<Packet>

    constructor ()
      ensures packetQueue == []
    {
      packetQueue := [];
    }

    /** The data is echoed, and the next handler is called with the next index. */
    method HandleRead(data: string, index: nat) returns (written: string, next: nat)
      ensures written == data && next == index + 1
    {
      written, next := data, index + 1;
    }

    method HandleWrite(data: string, index: nat) returns (next: nat)
      modifies this
      ensures packetQueue == old(packetQueue) + [Packet(CString(data), index)]
      ensures next == index + 1
    {
      packetQueue := packetQueue + [Packet(CString(data), index)];
      next := index + 1;
    }

    /** `start`, and then one handler after the other for each read that succeeds. */
    method Run(blocks: seq<string>)
      modifies this
      ensures packetQueue == old(packetQueue) + Numbered(blocks, 2)
      ensures |packetQueue| == |old(packetQueue)| + |blocks|
      ensures forall k :: 0 <= k < |blocks| ==>
                packetQueue[|old(packetQueue)| + k] == Packet(CString(blocks[k]), 2 * (k + 1))
    {
      ghost var before := packetQueue;
      var index := 1;
      assert blocks[0..] == blocks;
      for k := 0 to |blocks|
        invariant packetQueue + Numbered(blocks[k..], index + 1) == before + Numbered(blocks, 2)
      {
        ghost var queue, rest := packetQueue, Numbered(blocks[k + 1..], index + 3);
        assert blocks[k..][1..] == blocks[k + 1..];
        assert queue + ([Packet(CString(blocks[k]), index + 1)] + rest) == (queue + [Packet(CString(blocks[k]), index + 1)]) + rest;
        var data;
        data, index := HandleRead(blocks[k], index);
        index := HandleWrite(data, index);
      }
      assert Numbered(blocks[|blocks|..], index + 1) == [];
      NumberedAll(blocks);
    }
  }

  // ---------- collect_packets ----------

  predicate SortedByIndex(s: seq<Packet>) {
    forall i, j :: 0 <= i < j < |s| ==> s[i].index <= s[j].index
  }

  predicate Increasing(s: seq<Packet>) {
    forall i, j :: 0 <= i < j < |s| ==> s[i].index < s[j].index
  }

  function InsertPacket(p: Packet, s: seq<Packet>): seq<Packet> {
    if s == [] || p.index <= s[0].index then [p] + s else [s[0]] + InsertPacket(p, s[1..])
  }

  /** `std::sort` with `packet_comparator`. */
  function SortPackets(s: seq<Packet>): seq<Packet> {
    if s == [] then [] else InsertPacket(s[0], SortPackets(s[1..]))
  }

  lemma {:induction false} InsertPacketKeeps(p: Packet, s: seq<Packet>)
    ensures multiset(InsertPacket(p, s)) == multiset(s) + multiset{p}
  {
    if s != [] && p.index > s[0].index {
      assert s == [s[0]] + s[1..];
      InsertPacketKeeps(p, s[1..]);
    }
  }

  lemma {:induction false} InsertPacketSorted(p: Packet, s: seq<Packet>)
    requires SortedByIndex(s)
    ensures SortedByIndex(InsertPacket(p, s))
  {
    if s != [] && p.index > s[0].index {
      InsertPacketSorted(p, s[1..]);
      InsertPacketKeeps(p, s[1..]);
      var r := InsertPacket(p, s[1..]);
      forall k | 0 <= k < |r|
        ensures s[0].index <= r[k].index
      {
        assert r[k] in multiset(r);
      }
    }
  }

  lemma {:induction false} SortPacketsSorts(s: seq<Packet>)
    ensures SortedByIndex(SortPackets(s))
    ensures multiset(SortPackets(s)) == multiset(s)
  {
    if s != [] {
      assert s == [s[0]] + s[1..];
      SortPacketsSorts(s[1..]);
      InsertPacketSorted(s[0], SortPackets(s[1..]));
      InsertPacketKeeps(s[0], SortPackets(s[1..]));
    }
  }

  /** Different indices leave the sort no choice. */
  lemma {:induction false} SortedPacketsUnique(s: seq<Packet>, t: seq<Packet>)
    requires Increasing(s) && SortedByIndex(t) && multiset(s) == multiset(t)
    ensures s == t
  {
    SameLength(s, t);
    if s != [] {
      SameFirst(s, t);
      SameRest(s, t);
      SortedPacketsUnique(s[1..], t[1..]);
      assert s == [s[0]] + s[1..] && t == [t[0]] + t[1..];
    }
  }

  lemma SameLength<T>(s: seq<T>, t: seq<T>)
    requires multiset(s) == multiset(t)
    ensures |s| == |t|
  {
    assert |multiset(s)| == |s| && |multiset(t)| == |t|;
  }

  lemma SameFirst(s: seq<Packet>, t: seq<Packet>)
    requires Increasing(s) && SortedByIndex(t) && multiset(s) == multiset(t) && s != []
    ensures t != [] && s[0] == t[0]
  {
    SameLength(s, t);
    assert s[0] in multiset(t);
    assert t[0] in multiset(s);
    var j :| 0 <= j < |t| && t[j] == s[0];
    assert t[0].index <= t[j].index;
    assert forall k :: 0 < k < |s| ==> s[0].index < s[k].index;
  }

  lemma SameRest(s: seq<Packet>, t: seq<Packet>)
    requires s != [] && t != [] && s[0] == t[0] && multiset(s) == multiset(t)
    ensures multiset(s[1..]) == multiset(t[1..])
  {
    assert s == [s[0]] + s[1..] && t == [t[0]] + t[1..];
    assert multiset(s[1..]) == multiset(s) - multiset{s[0]};
    assert multiset(t[1..]) == multiset(t) - multiset{s[0]};
  }

  lemma SortedAlready(s: seq<Packet>)
    requires Increasing(s)
    ensures SortPackets(s) == s
  {
    SortPacketsSorts(s);
    SortedPacketsUnique(s, SortPackets(s));
  }

  /** The data of packets, in their order. */
  function Joined(s: seq<Packet>): string {
    if s == [] then "" else s[0].data + Joined(s[1..])
  }

  lemma {:induction false} JoinedAppend(a: seq<Packet>, b: seq<Packet>)
    ensures Joined(a + b) == Joined(a) + Joined(b)
  {
    if a == [] {
      assert a + b == b;
    } else {
      assert (a + b)[1..] == a[1..] + b;
      JoinedAppend(a[1..], b);
    }
  }

  lemma JoinedOne(p: Packet)
    ensures Joined([p]) == p.data
  {
    assert [p][1..] == [];
  }

  /** The chunks made of a stream when `vec` has been taken from it: up to each short packet, sorted, and joined. */
  function Chunks(vec: seq<Packet>, queue: seq<Packet>, n: nat): seq<string>
    decreases |queue|
  {
    if queue == [] then []
    else if |queue[0].data| < n then [Joined(SortPackets(vec + [queue[0]]))] + Chunks([], queue[1..], n)
    else Chunks(vec + [queue[0]], queue[1..], n)
  }

  /** The packets that then wait for a short one. */
  function Waiting(vec: seq<Packet>, queue: seq<Packet>, n: nat): seq<Packet>
    decreases |queue|
  {
    if queue == [] then vec
    else if |queue[0].data| < n then Waiting([], queue[1..], n)
    else Waiting(vec + [queue[0]], queue[1..], n)
  }

  method Join(vec: seq<Packet>) returns (ss: string)
    ensures ss == Joined(vec)
  {
    ss := "";
    for k := 0 to |vec|
      invariant ss == Joined(vec[..k])
    {
      assert vec[..k + 1] == vec[..k] + [vec[k]];
      JoinedAppend(vec[..k], [vec[k]]);
      JoinedOne(vec[k]);
      ss := ss + vec[k].data;
    }
    assert vec[..|vec|] == vec;
  }

  /** The collecting loop, over the packets that come before `get` blocks. */
  method CollectPackets(queue: seq<Packet>, n: nat) returns (chunks: seq<string>, vec: seq<Packet>)
    ensures chunks == Chunks([], queue, n)
    ensures vec == Waiting([], queue, n)
  {
    chunks, vec := [], [];
    var rest := queue;
    while rest != []
      invariant chunks + Chunks(vec, rest, n) == Chunks([], queue, n)
      invariant Waiting(vec, rest, n) == Waiting([], queue, n)
      decreases |rest|
    {
      var done := false;
      ghost var before := |rest|;
      while !done && rest != []
        invariant done ==> vec == [] && |rest| < before
        invariant |rest| <= before
        invariant chunks + Chunks(vec, rest, n) == Chunks([], queue, n)
        invariant Waiting(vec, rest, n) == Waiting([], queue, n)
        decreases !done, |rest|
      {
        var item := rest[0];
        rest := rest[1..];
        if |item.data| < n {
          var ss := Join(SortPackets(vec + [item]));
          assert chunks + ([ss] + Chunks([], rest, n)) == (chunks + [ss]) + Chunks([], rest, n);
          chunks := chunks + [ss];
          vec := [];
          done := true;
        } else {
          vec := vec + [item];
        }
      }
    }
  }

  // ---------- What the chunks are ----------

  predicate AllFull(queue: seq<Packet>, n: nat) {
    forall k :: 0 <= k < |queue| ==> |queue[k].data| >= n
  }

  /** A chunk ends at its first short packet, and the next one starts after it. */
  lemma {:induction false} ChunkNext(vec: seq<Packet>, full: seq<Packet>, short: Packet, rest: seq<Packet>, n: nat)
    requires AllFull(full, n) && |short.data| < n
    ensures Chunks(vec, full + [short] + rest, n) == [Joined(SortPackets(vec + full + [short]))] + Chunks([], rest, n)
    decreases |full|
  {
    var queue := full + [short] + rest;
    if full == [] {
      assert vec + full + [short] == vec + [short];
      assert queue == [short] + rest;
    } else {
      assert queue[1..] == full[1..] + [short] + rest;
      assert vec + full + [short] == (vec + [full[0]]) + full[1..] + [short];
      ChunkNext(vec + [full[0]], full[1..], short, rest, n);
    }
  }

  lemma {:induction false} WaitingAreFull(vec: seq<Packet>, queue: seq<Packet>, n: nat)
    requires AllFull(vec, n)
    ensures AllFull(Waiting(vec, queue, n), n)
    decreases |queue|
  {
    if queue != [] {
      WaitingAreFull(if |queue[0].data| < n then [] else vec + [queue[0]], queue[1..], n);
    }
  }

  lemma FlattenCons<T>(x: seq<T>, ss: seq<seq<T>>)
    ensures Flatten([x] + ss) == x + Flatten(ss)
  {
    assert ([x] + ss)[1..] == ss;
  }

  lemma StreamAfterShort(head: seq<Packet>, rest: seq<Packet>, chunks: seq<string>, waiting: string)
    requires Increasing(head + rest)
    requires Flatten(chunks) + waiting == Joined(rest)
    ensures Flatten([Joined(SortPackets(head))] + chunks) + waiting == Joined(head + rest)
  {
    IncreasingParts(head, rest);
    SortedAlready(head);
    JoinedAppend(head, rest);
    FlattenCons(Joined(head), chunks);
    assert (Joined(head) + Flatten(chunks)) + waiting == Joined(head) + (Flatten(chunks) + waiting);
  }

  /** Nothing is lost, repeated or moved: the chunks, and then what is waiting, are the stream. */
  lemma {:induction false} ChunksAreTheStream(vec: seq<Packet>, queue: seq<Packet>, n: nat)
    requires Increasing(vec + queue)
    ensures Flatten(Chunks(vec, queue, n)) + Joined(Waiting(vec, queue, n)) == Joined(vec + queue)
    decreases |queue|
  {
    if queue == [] {
      assert vec + queue == vec;
    } else {
      var head, rest := vec + [queue[0]], queue[1..];
      assert vec + queue == head + rest;
      if |queue[0].data| < n {
        IncreasingParts(head, rest);
        assert [] + rest == rest;
        ChunksAreTheStream([], rest, n);
        StreamAfterShort(head, rest, Chunks([], rest, n), Joined(Waiting([], rest, n)));
      } else {
        ChunksAreTheStream(head, rest, n);
      }
    }
  }

  lemma IncreasingParts(a: seq<Packet>, b: seq<Packet>)
    requires Increasing(a + b)
    ensures Increasing(a) && Increasing(b)
  {
    var ab := a + b;
    assert forall i :: 0 <= i < |a| ==> ab[i] == a[i];
    assert forall i :: 0 <= i < |b| ==> b[i] == ab[|a| + i];
  }

  /** The stream of a session comes out whole, up to its last short packet. */
  lemma StreamIsReassembled(queue: seq<Packet>, n: nat)
    requires Increasing(queue)
    ensures Flatten(Chunks([], queue, n)) + Joined(Waiting([], queue, n)) == Joined(queue)
    ensures AllFull(Waiting([], queue, n), n)
  {
    assert [] + queue == queue;
    ChunksAreTheStream([], queue, n);
    WaitingAreFull([], queue, n);
  }

  lemma PermutedAreFull(full: seq<Packet>, full': seq<Packet>, n: nat)
    requires multiset(full') == multiset(full) && AllFull(full, n)
    ensures AllFull(full', n)
  {
    forall k | 0 <= k < |full'|
      ensures |full'[k].data| >= n
    {
      assert full'[k] in multiset(full);
    }
  }

  /** Full packets may overtake each other ahead of their short one. */
  lemma ReorderingIsHarmless(full: seq<Packet>, full': seq<Packet>, short: Packet, rest: seq<Packet>, n: nat)
    requires Increasing(full + [short]) && multiset(full') == multiset(full)
    requires AllFull(full, n) && |short.data| < n
    ensures Chunks([], full' + [short] + rest, n) == Chunks([], full + [short] + rest, n)
  {
    PermutedAreFull(full, full', n);
    ChunkNext([], full, short, rest, n);
    ChunkNext([], full', short, rest, n);
    assert [] + full + [short] == full + [short] && [] + full' + [short] == full' + [short];
    SortPacketsSorts(full' + [short]);
    SortedPacketsUnique(full + [short], SortPackets(full' + [short]));
    SortedAlready(full + [short]);
  }

  // ---------- Messages ----------

  /** A message as reads of full buffers and what remains. */
  function Pieces(m: string): (pieces: seq<string>) {
    if m == "" then []
    else if |m| <= MAX_LENGTH then [m]
    else [m[..MAX_LENGTH]] + Pieces(m[MAX_LENGTH..])
  }

  /** All reads of the messages that come in one after the other. */
  function Reads(messages: seq<string>): seq<string> {
    if messages == [] then [] else Pieces(messages[0]) + Reads(messages[1..])
  }

  /** Not empty, not ending with a full read, and without a NUL. */
  predicate Intact(m: string) {
    |m| % MAX_LENGTH != 0 && NoNul(m)
  }

  lemma {:induction false} PiecesJoin(m: string)
    ensures Flatten(Pieces(m)) == m
  {
    if m != "" {
      if |m| <= MAX_LENGTH {
        FlattenCons(m, []);
        assert [m] + [] == [m];
      } else {
        PiecesJoin(m[MAX_LENGTH..]);
        FlattenCons(m[..MAX_LENGTH], Pieces(m[MAX_LENGTH..]));
      }
    }
  }

  lemma {:induction false} ReadsAreTheStream(messages: seq<string>)
    ensures Flatten(Reads(messages)) == Flatten(messages)
  {
    if messages != [] {
      ReadsAreTheStream(messages[1..]);
      PiecesJoin(messages[0]);
      FlattenAppend(Pieces(messages[0]), Reads(messages[1..]));
    }
  }

  lemma {:induction false} NumberedIncreases(blocks: seq<string>, index: nat)
    ensures Increasing(Numbered(blocks, index))
    ensures forall k :: 0 <= k < |Numbered(blocks, index)| ==> Numbered(blocks, index)[k].index >= index
  {
    if blocks != [] {
      NumberedIncreases(blocks[1..], index + 2);
      var q, r := Numbered(blocks, index), Numbered(blocks[1..], index + 2);
      assert forall k :: 0 < k < |q| ==> q[k] == r[k - 1];
    }
  }

  lemma NumberedAll(blocks: seq<string>)
    ensures |Numbered(blocks, 2)| == |blocks|
    ensures forall k :: 0 <= k < |blocks| ==> Numbered(blocks, 2)[k] == Packet(CString(blocks[k]), 2 * (k + 1))
  {
    forall k | 0 <= k < |blocks|
      ensures |Numbered(blocks, 2)| == |blocks| && Numbered(blocks, 2)[k] == Packet(CString(blocks[k]), 2 * (k + 1))
    {
      NumberedAt(blocks, 2, k);
    }
    assert blocks != [] ==> Numbered(blocks, 2)[0] == Packet(CString(blocks[0]), 2);
  }

  /** The reads are numbered 2, 4, 6, ... */
  lemma {:induction false} NumberedAt(blocks: seq<string>, index: nat, k: nat)
    requires k < |blocks|
    ensures |Numbered(blocks, index)| == |blocks|
    ensures Numbered(blocks, index)[k] == Packet(CString(blocks[k]), index + 2 * k)
  {
    if k > 0 {
      NumberedAt(blocks[1..], index + 2, k - 1);
    } else if |blocks| > 1 {
      NumberedAt(blocks[1..], index + 2, 0);
    }
  }

  lemma {:induction false} NumberedAppend(a: seq<string>, b: seq<string>, index: nat)
    ensures Numbered(a + b, index) == Numbered(a, index) + Numbered(b, index + 2 * |a|)
  {
    if a == [] {
      assert a + b == b;
    } else {
      assert (a + b)[1..] == a[1..] + b;
      NumberedAppend(a[1..], b, index + 2);
    }
  }

  lemma LastPiece(vec: seq<Packet>, m: string, index: nat, rest: seq<Packet>)
    requires Increasing(vec + [Packet(m, index)]) && |m| < MAX_LENGTH
    ensures Chunks(vec, [Packet(m, index)] + rest, MAX_LENGTH) == [Joined(vec) + m] + Chunks([], rest, MAX_LENGTH)
  {
    var p := Packet(m, index);
    SortedAlready(vec + [p]);
    JoinedAppend(vec, [p]);
    JoinedOne(p);
    assert ([p] + rest)[1..] == rest;
  }

  lemma FullPiece(vec: seq<Packet>, p: Packet, next: seq<Packet>, rest: seq<Packet>)
    requires |p.data| == MAX_LENGTH
    ensures Chunks(vec, ([p] + next) + rest, MAX_LENGTH) == Chunks(vec + [p], next + rest, MAX_LENGTH)
    ensures vec + ([p] + next) == (vec + [p]) + next
    ensures Joined(vec + [p]) == Joined(vec) + p.data
  {
    assert (([p] + next) + rest)[1..] == next + rest;
    JoinedAppend(vec, [p]);
    JoinedOne(p);
  }

  /** The pieces of a message that does not end with a full read become one chunk. */
  lemma {:induction false} MessageIsOneChunk(vec: seq<Packet>, m: string, index: nat, rest: seq<Packet>)
    requires Increasing(vec + Numbered(Pieces(m), index)) && Intact(m)
    ensures Chunks(vec, Numbered(Pieces(m), index) + rest, MAX_LENGTH) == [Joined(vec) + m] + Chunks([], rest, MAX_LENGTH)
    decreases |m|
  {
    if |m| <= MAX_LENGTH {
      CStringIs(m);
      assert Numbered(Pieces(m), index) == [Packet(m, index)];
      LastPiece(vec, m, index, rest);
    } else {
      var piece, others := m[..MAX_LENGTH], m[MAX_LENGTH..];
      CStringIs(piece);
      var first, next := Packet(piece, index), Numbered(Pieces(others), index + 2);
      assert Numbered(Pieces(m), index) == [first] + next;
      FullPiece(vec, first, next, rest);
      MessageIsOneChunk(vec + [first], others, index + 2, rest);
      assert (Joined(vec) + piece) + others == Joined(vec) + m;
    }
  }

  lemma FirstMessage(m: string, index: nat, rest: seq<Packet>)
    requires Intact(m)
    ensures Chunks([], Numbered(Pieces(m), index) + rest, MAX_LENGTH) == [m] + Chunks([], rest, MAX_LENGTH)
  {
    var packets := Numbered(Pieces(m), index);
    NumberedIncreases(Pieces(m), index);
    assert [] + packets == packets;
    MessageIsOneChunk([], m, index, rest);
    NothingBefore(m);
  }

  lemma NothingBefore(m: string)
    ensures Joined([]) + m == m
  {
  }

  lemma {:induction false} IntactMessages(messages: seq<string>, index: nat)
    requires forall k :: 0 <= k < |messages| ==> Intact(messages[k])
    ensures Chunks([], Numbered(Reads(messages), index), MAX_LENGTH) == messages
    decreases |messages|
  {
    if messages != [] {
      var m, others := messages[0], messages[1..];
      var next := index + 2 * |Pieces(m)|;
      NumberedAppend(Pieces(m), Reads(others), index);
      FirstMessage(m, index, Numbered(Reads(others), next));
      IntactMessages(others, next);
      assert messages == [m] + others;
    }
  }

  function ShortCount(queue: seq<Packet>, n: nat): nat {
    if queue == [] then 0 else (if |queue[0].data| < n then 1 else 0) + ShortCount(queue[1..], n)
  }

  lemma {:induction false} ShortCountAppend(a: seq<Packet>, b: seq<Packet>, n: nat)
    ensures ShortCount(a + b, n) == ShortCount(a, n) + ShortCount(b, n)
  {
    if a == [] {
      assert a + b == b;
    } else {
      assert (a + b)[1..] == a[1..] + b;
      ShortCountAppend(a[1..], b, n);
    }
  }

  /** There is one chunk for each short packet. */
  lemma {:induction false} ChunkPerShort(vec: seq<Packet>, queue: seq<Packet>, n: nat)
    ensures |Chunks(vec, queue, n)| == ShortCount(queue, n)
    decreases |queue|
  {
    if queue != [] {
      ChunkPerShort(if |queue[0].data| < n then [] else vec + [queue[0]], queue[1..], n);
    }
  }

  lemma {:induction false} PiecesShortCount(m: string, index: nat)
    requires NoNul(m)
    ensures ShortCount(Numbered(Pieces(m), index), MAX_LENGTH) == if |m| % MAX_LENGTH == 0 then 0 else 1
    decreases |m|
  {
    if m != "" {
      var q := Numbered(Pieces(m), index);
      if |m| <= MAX_LENGTH {
        CStringIs(m);
        assert q == [Packet(m, index)];
        assert q[1..] == [];
      } else {
        CStringIs(m[..MAX_LENGTH]);
        assert q[1..] == Numbered(Pieces(m[MAX_LENGTH..]), index + 2);
        PiecesShortCount(m[MAX_LENGTH..], index + 2);
      }
    }
  }

  lemma FirstShortCount(m: string, others: seq<string>, index: nat)
    requires NoNul(m)
    ensures ShortCount(Numbered(Pieces(m) + Reads(others), index), MAX_LENGTH)
            == (if |m| % MAX_LENGTH == 0 then 0 else 1)
               + ShortCount(Numbered(Reads(others), index + 2 * |Pieces(m)|), MAX_LENGTH)
  {
    var next := index + 2 * |Pieces(m)|;
    PiecesShortCount(m, index);
    NumberedAppend(Pieces(m), Reads(others), index);
    ShortCountAppend(Numbered(Pieces(m), index), Numbered(Reads(others), next), MAX_LENGTH);
  }

  /** Only messages that do not end with a full read end at all. */
  lemma {:induction false} FewerShorts(messages: seq<string>, index: nat)
    requires AllNoNul(messages)
    ensures ShortCount(Numbered(Reads(messages), index), MAX_LENGTH) <= |messages|
    ensures ShortCount(Numbered(Reads(messages), index), MAX_LENGTH) == |messages| ==> forall m :: m in messages ==> Intact(m)
    decreases |messages|
  {
    if messages != [] {
      var next := index + 2 * |Pieces(messages[0])|;
      FewerShorts(messages[1..], next);
      FirstShortCount(messages[0], messages[1..], index);
      assert messages == [messages[0]] + messages[1..];
    }
  }

  predicate AllNoNul(data: seq<string>) {
    forall k :: 0 <= k < |data| ==> NoNul(data[k])
  }

  lemma {:induction false} FlattenNoNul(data: seq<string>)
    ensures NoNul(Flatten(data)) <==> AllNoNul(data)
  {
    if data != [] {
      FlattenNoNul(data[1..]);
      assert AllNoNul(data) <==> NoNul(data[0]) && AllNoNul(data[1..]) by {
        assert data == [data[0]] + data[1..];
      }
    }
  }

  lemma {:induction false} JoinedIsClean(blocks: seq<string>, index: nat)
    ensures NoNul(Joined(Numbered(blocks, index)))
    ensures AllNoNul(blocks) ==> Joined(Numbered(blocks, index)) == Flatten(blocks)
  {
    if blocks != [] {
      JoinedIsClean(blocks[1..], index + 2);
      if AllNoNul(blocks) {
        CStringIs(blocks[0]);
      }
    }
  }

  /** What the collector of a session makes of messages that come in one after the other. */
  function Received(messages: seq<string>): seq<string> {
    Chunks([], Numbered(Reads(messages), 2), MAX_LENGTH)
  }

  /** Whatever the lengths, the text received is the text sent, up to a point. */
  lemma ReceivedIsPrefix(messages: seq<string>)
    ensures AllNoNul(Received(messages))
    ensures AllNoNul(messages) ==> Flatten(Received(messages)) <= Flatten(messages)
  {
    var q := Numbered(Reads(messages), 2);
    NumberedIncreases(Reads(messages), 2);
    StreamIsReassembled(q, MAX_LENGTH);
    JoinedIsClean(Reads(messages), 2);
    FlattenNoNul(Received(messages));
    if AllNoNul(messages) {
      ReadsAreTheStream(messages);
      FlattenNoNul(messages);
      FlattenNoNul(Reads(messages));
    }
  }

  /** Messages come back as they were sent exactly when none has a length divisible by 4096 or holds a NUL. */
  lemma MessagesComeBackIff(messages: seq<string>)
    ensures Received(messages) == messages <==> forall m :: m in messages ==> Intact(m)
    ensures Received(messages) == messages <==> forall m :: m in messages ==> |m| % 4096 != 0 && '\0' !in m
  {
    if forall m :: m in messages ==> Intact(m) {
      IntactMessages(messages, 2);
    }
    assert forall m :: Intact(m) <==> |m| % 4096 != 0 && '\0' !in m;
    if Received(messages) == messages {
      ReceivedIsPrefix(messages);
      ChunkPerShort([], Numbered(Reads(messages), 2), MAX_LENGTH);
      FewerShorts(messages, 2);
    }
  }
}

/** One hash table node: its queues, the vectors its threads fill, and what each thread does in one round.

    `Slot`s name the places a key can be in. The steps are functions on a node, used by the cluster's
    step relation; the class `Daemon` has the threads' loops bodies as methods, proved to do these steps.
 */
module Nodes {
  import opened Machine
  import opened Keys
  import opened Text
  import opened Ring
  import opened Messages

  datatype Kind = Store | Find

  function Tag(kind: Kind): nat {
    match kind
    case Store => STORE_TYPE
    case Find => FIND_TYPE
  }

  /** Where keys of a kind are kept on a node: not yet routed, in the queue for a link, in the vector of
      that link's forwarding thread, in the output queue, in the writing thread's vector, and written
      (a batch file for store keys, the input of the map search for find keys). */
  datatype Slot =
    | Pending(kind: Kind)
    | Sorting(kind: Kind, link: nat)
    | Forwarding(kind: Kind, link: nat)
    | Output(kind: Kind)
    | Writing(kind: Kind)
    | Written(kind: Kind)

  /** Where the thread that writes find keys is: waiting for the next key, after its last attempt to write was
      held up by the lock or not, or about to try the lock. */
  datatype Writer = Getting(missed: bool) | Trying

  /** The inbound queue holds the messages as text. */
  datatype Node = Node(inbox: seq<string>, cells: map<Slot, seq<Key>>, writer: Writer) {

    function At(s: Slot): seq<Key> {
      if s in cells then cells[s] else []
    }

    function With(s: Slot, keys: seq<Key>): Node {
      this.(cells := cells[s := keys])
    }
  }

  /** A vector is passed on when it has more than this many keys. */
  const THRESHOLD: nat := 1000

  /** The node that a key belongs to: its first character, converted to a word, modulo the ring size. */
  function Owner(key: Key, n: nat): (o: nat)
    requires n > 0
    ensures o < n
  {
    (if |key| > 0 then ToWord(SignedChar(key[0])) else 0) % n
  }

  /** The code of the first character. */
  function Code(key: Key): nat {
    if key == "" then 0 else key[0] as int
  }

  lemma OwnerIsCode(key: Key, n: nat)
    requires n > 0 && 32 % n == 0
    ensures Owner(key, n) == Code(key) % n
  {
    if key != "" {
      var v := SignedChar(key[0]);
      Congruent(v, key[0]);
      SameRemainder(ToWord(v), (v - ToWord(v)) / WORD, (Code(key) - v) / 256, Code(key), n);
    }
  }

  lemma SameRemainder(w: nat, k: int, j: int, code: nat, n: nat)
    requires n > 0 && 32 % n == 0 && w == code - j * 256 - k * WORD
    ensures w % n == code % n
  {
    var d := 32 / n;
    var m := 8 * d * j + WORD / 32 * d * k;
    MultiplesOf32(d, n, k, j);
    assert m * n == 8 * d * j * n + WORD / 32 * d * k * n;
    assert (code / n - m) * n == code / n * n - m * n;
    ModUnique(w, code / n - m, code % n, n);
  }

  lemma MultiplesOf32(d: int, n: int, k: int, j: int)
    requires 32 == d * n
    ensures 8 * d * j * n == j * 256 && WORD / 32 * d * k * n == k * WORD
  {
    assert 8 * d * j * n == 8 * j * (d * n);
    assert WORD / 32 * d * k * n == WORD / 32 * k * (d * n);
  }

  /** A node owns the keys whose first character has a code that is congruent to its position. */
  lemma OwnsByCode(key: Key, i: nat, n: nat)
    requires i < n && 32 % n == 0
    ensures Distance(i, Owner(key, n), n) == (Code(key) - i) % n
    ensures Owner(key, n) == i <==> (Code(key) - i) % n == 0
  {
    OwnerIsCode(key, n);
    var q := Code(key) / n;
    ModUnique(Code(key) - i, q + (Code(key) % n - i) / n, (Code(key) % n - i) % n, n);
    if Owner(key, n) == i {
      ModUnique(0, 0, 0, n);
    } else {
      OtherNodeDistance(i, Owner(key, n), n);
    }
  }

  lemma DivisorOf32(n: nat)
    requires n > 0 && 32 % n == 0
    ensures n <= 32 && 64 % n == 0
  {
    MulAtLeast(32 / n, n);
    ModUnique(64, 2 * (32 / n), 0, n);
  }

  /** Every node owns a key of one character. */
  lemma EveryNodeOwns(i: nat, n: nat)
    requires i < n && 32 % n == 0
    ensures exists c: char :: IsToken([c]) && Owner([c], n) == i
  {
    DivisorOf32(n);
    var c := (64 + i) as char;
    OwnsByCode([c], i, n);
    assert IsToken([c]);
  }

  /** Keys with the same first character go the same way. */
  lemma SameFirstSameWay(a: Key, b: Key, i: nat, n: nat, kind: Kind)
    requires i < n && a != "" && b != "" && a[0] == b[0]
    ensures RouteSlot(i, n, kind, a) == RouteSlot(i, n, kind, b)
  {
  }

  /** The keys that consuming a message yields: none unless it can be read as one of the two kinds. */
  function Carried(text: string): (Kind, seq<Key>) {
    var typ := ExtractType(text);
    if typ == STORE_TYPE then (Store, Accepted(Decode(STORE_TYPE, text)))
    else if typ == FIND_TYPE then (Find, Accepted(Decode(FIND_TYPE, text)))
    else (Store, [])
  }

  function Accepted(d: Decoded): seq<Key> {
    if d.Status() == 0 then d.values else []
  }

  /** A message of tokens carries its list under its own kind. */
  lemma CarriedRoundTrip(kind: Kind, keys: seq<Key>)
    requires |keys| < WORD && AllTokens(keys)
    ensures Carried(EncodeAll(Tag(kind), keys)) == (kind, keys)
  {
    RoundTrip(Tag(kind), keys);
  }

  /** Whatever a client sends, what its message yields comes from one stretch of reading. */
  lemma CarriedIsRead(text: string)
    ensures var (ss, num) := ReadNumber(ReadNumber(Open(text)).0);
            Carried(text).1 == [] || Carried(text).1 == ReadValues(ss, num).1
  {
  }

  /** Whatever a client sends, the keys that it yields hold no white space, and if one of them is empty, because
      the message announces more keys than it has, then so is the last one. */
  lemma CarriedAreValues(text: string)
    ensures AllValues(Carried(text).1) && |Carried(text).1| < WORD
    ensures !AllTokens(Carried(text).1) ==> Carried(text).1[|Carried(text).1| - 1] == ""
  {
    CarriedIsRead(text);
    var (ss, num) := ReadNumber(ReadNumber(Open(text)).0);
    ReadsValues(ss, num);
    ReadEndsEmpty(ss, num);
  }

  /** What the keys of a list become in a message that has empty ones among them. */
  lemma CarriedWithEmpties(kind: Kind, keys: seq<Key>)
    requires |keys| < WORD && AllValues(keys) && !AllTokens(keys)
    ensures |Tokens(keys)| < |keys|
    ensures Carried(EncodeAll(Tag(kind), keys))
            == (kind, Tokens(keys) + ([Digits(CheckSum(Body(Tag(kind), |keys|, keys)))] + Empties(|keys| - |Tokens(keys)| - 1)))
  {
    var tag := Tag(kind);
    EmptiesBecomeSum(tag, keys);
    EncodedText(tag, keys);
    ReadHeader(tag, |keys|, Joined(keys) + (Digits(CheckSum(Body(tag, |keys|, keys))) + " "));
  }

  /** The head of one slot goes to the end of another. */
  function Move(node: Node, source: Slot, target: Slot): Node
    requires source != target && node.At(source) != []
  {
    var x := node.At(source)[0];
    node.With(source, node.At(source)[1..]).With(target, node.At(target) + [x])
  }

  /** The consumer takes the next message. */
  function Receive(node: Node): Node
    requires node.inbox != []
  {
    var (kind, keys) := Carried(node.inbox[0]);
    node.(inbox := node.inbox[1..]).With(Pending(kind), keys)
  }

  /** Where node `i` of `n` puts a key. */
  function RouteSlot(i: nat, n: nat, kind: Kind, key: Key): (s: Slot)
    requires i < n
    ensures !s.Pending?
  {
    if Owner(key, n) == i then Output(kind)
    else
      OtherNodeDistance(i, Owner(key, n), n);
      Sorting(kind, TopBit(Distance(i, Owner(key, n), n)))
  }

  /** The consumer puts the next key of its message into a queue. */
  function RouteOne(node: Node, i: nat, n: nat, kind: Kind): Node
    requires i < n && node.At(Pending(kind)) != []
  {
    Move(node, Pending(kind), RouteSlot(i, n, kind, node.At(Pending(kind))[0]))
  }

  /** The consumer puts all keys of its message into queues. */
  function RouteAll(node: Node, i: nat, n: nat, kind: Kind): Node
    requires i < n
    decreases |node.At(Pending(kind))|
  {
    if node.At(Pending(kind)) == [] then node else RouteAll(RouteOne(node, i, n, kind), i, n, kind)
  }

  /** A forwarding thread takes one key. */
  function CollectOne(node: Node, kind: Kind, link: nat): Node
    requires node.At(Sorting(kind, link)) != []
  {
    Move(node, Sorting(kind, link), Forwarding(kind, link))
  }

  /** A forwarding thread hands its full vector to a redirection thread. */
  function Flush(node: Node, kind: Kind, link: nat): Node {
    node.With(Forwarding(kind, link), [])
  }

  /** A writing thread takes one key. With a full vector the one for find keys goes on to try the lock. */
  function CollectOutput(node: Node, kind: Kind): Node
    requires node.At(Output(kind)) != []
  {
    var next := Move(node, Output(kind), Writing(kind));
    if kind == Find && |next.At(Writing(Find))| > THRESHOLD then next.(writer := Trying) else next
  }

  /** A writing thread sorts its full vector and writes it. */
  function WriteBatch(node: Node, kind: Kind): Node {
    node.With(Written(kind), node.At(Written(kind)) + Sort(node.At(Writing(kind)))).With(Writing(kind), [])
        .(writer := if kind == Find then Getting(false) else node.writer)
  }

  /** What has been written grows by these keys, sorted, as one batch of more than 1000. */
  predicate AddsBatch(node: Node, next: Node, kind: Kind, keys: seq<Key>, batch: seq<Key>) {
    && next.At(Written(kind)) == node.At(Written(kind)) + batch
    && Sorted(batch) && multiset(batch) == multiset(keys) && |batch| > 1000
    && next.At(Writing(kind)) == []
  }

  lemma WriteAddsBatch(node: Node, kind: Kind) returns (batch: seq<Key>)
    requires |node.At(Writing(kind))| > 1000
    ensures AddsBatch(node, WriteBatch(node, kind), kind, node.At(Writing(kind)), batch)
  {
    batch := Sort(node.At(Writing(kind)));
    SortSorts(node.At(Writing(kind)));
    assert |batch| == |multiset(batch)| == |multiset(node.At(Writing(kind)))|;
  }

  /** The lock is held by somebody else: the thread waits for another key before it tries again. */
  function MissLock(node: Node): Node {
    node.(writer := Getting(true))
  }

  /** Where node `i` puts a key, by the code of its first character and the port of the node. */
  lemma RouteByCode(key: Key, i: nat, n: nat, root: nat, kind: Kind)
    requires i < n && 32 % n == 0 && root % n == 0
    ensures var s, d := RouteSlot(i, n, kind, key), (Code(key) - (root + i)) % n;
            s.kind == kind && if d == 0 then s == Output(kind) else s.Sorting? && Pow2(s.link) <= d < 2 * Pow2(s.link)
  {
    OwnsByCode(key, i, n);
    ShiftByMultiple(Code(key) - i, root, n);
    assert Code(key) - (root + i) == Code(key) - i - root;
  }

  lemma ReceiveGives(node: Node, next: Node, kind: Kind, keys: seq<Key>)
    requires node.inbox != [] && Carried(node.inbox[0]) == (kind, keys)
    requires next == Node(node.inbox[1..], node.cells[Pending(kind) := keys], node.writer)
    ensures next == Receive(node)
  {
  }

  class Daemon {
    const n: nat
    const root: nat
    const position: nat
    const connections: seq<nat>
    var inbox: seq<string>
    var cells: map<Slot, seq<Key>>
    var writer: Writer

    /** A ring of a size that divides 32, on a root that is a multiple of it, with the last digit of the
        port giving the position. */
    ghost predicate Configured() {
      && position < n && 32 % n == 0 && root % n == 0
      && NodeIndex(root + position) == position
      && IsRingConfiguration(connections, n, root, position)
    }

    function View(): Node
      reads this
    {
      Node(inbox, cells, writer)
    }

    constructor (n: nat, root: nat, position: nat)
      requires position < n && 32 % n == 0 && root % n == 0
      requires NodeIndex(root + position) == position
      ensures Configured() && this.n == n && this.root == root && this.position == position
      ensures View() == Node([], map[], Getting(false))
    {
      this.n := n;
      this.root := root;
      this.position := position;
      var links := GenerateLinks(n, root, position);
      this.connections := links;
      inbox := [];
      cells := map[];
      writer := Getting(false);
    }

    /** The server puts a message into the inbound queue. */
    method Accept(text: string)
      modifies this`inbox
      ensures inbox == old(inbox) + [text] && View() == old(View()).(inbox := inbox)
    {
      inbox := inbox + [text];
    }

    method Put(s: Slot, key: Key)
      modifies this`cells
      ensures View() == old(View()).With(s, old(View()).At(s) + [key])
    {
      cells := cells[s := (if s in cells then cells[s] else []) + [key]];
    }

    method Get(s: Slot) returns (key: Key)
      requires View().At(s) != []
      modifies this`cells
      ensures key == old(View()).At(s)[0]
      ensures View() == old(View()).With(s, old(View()).At(s)[1..])
    {
      key := cells[s][0];
      cells := cells[s := cells[s][1..]];
    }

    /** The queue for a key, chosen by the daemon's own routine: it is the slot of the route. */
    method ChooseQueue(kind: Kind, key: Key) returns (s: Slot)
      requires Configured()
      ensures s == RouteSlot(position, n, kind, key)
      ensures var d := (Code(key) - (root + position)) % n;
              s.kind == kind && if d == 0 then s.Output? else s.Sorting? && Pow2(s.link) <= d < 2 * Pow2(s.link)
    {
      RouteByCode(key, position, n, root, kind);
      var k := if |key| > 0 then ToWord(SignedChar(key[0])) else 0;
      var index := k % n;
      if index != NodeIndex(root + position) {
        var queueIndex := FindChordConnection(connections, root + position, index, n);
        ChordPicksTopBit(queueIndex, connections, n, root, position, index);
        s := Sorting(kind, queueIndex);
      } else {
        s := Output(kind);
      }
    }

    /** One message of either kind; the keys still to be routed are those of the pending slot. */
    method ConsumeKeys(kind: Kind)
      requires Configured()
      modifies this`cells
      ensures View() == RouteAll(old(View()), position, n, kind)
    {
      while View().At(Pending(kind)) != []
        invariant inbox == old(inbox) && writer == old(writer)
        invariant RouteAll(View(), position, n, kind) == RouteAll(old(View()), position, n, kind)
        decreases |View().At(Pending(kind))|
      {
        ghost var before := View();
        var key := Get(Pending(kind));
        var s := ChooseQueue(kind, key);
        Put(s, key);
        assert View() == RouteOne(before, position, n, kind);
      }
    }

    /** One round of the consumer thread. */
    method Consume()
      requires Configured() && inbox != []
      modifies this
      ensures View() == RouteAll(Receive(old(View())), position, n, Carried(old(inbox)[0]).0)
    {
      var text := inbox[0];
      inbox := inbox[1..];
      var typ := ExtractType(text);
      var kind := if typ == FIND_TYPE then Find else Store;
      var keys := [];
      if typ == STORE_TYPE || typ == FIND_TYPE {
        var message := new ListMessage(typ);
        var status, reported := message.Deserialize(text);
        if status == 0 {
          keys := message.data;
        }
      }
      assert Carried(text) == (kind, keys);
      cells := cells[Pending(kind) := keys];
      ReceiveGives(old(View()), View(), kind, keys);
      ConsumeKeys(kind);
    }

    /** One round of a forwarding thread; `spawned` is the vector given to a new redirection thread. */
    method ForwardOne(kind: Kind, link: nat) returns (spawned: seq<Key>)
      requires View().At(Sorting(kind, link)) != []
      modifies this`cells
      ensures var collected := CollectOne(old(View()), kind, link);
              var full := |collected.At(Forwarding(kind, link))| > 1000;
              && View() == (if full then Flush(collected, kind, link) else collected)
              && spawned == (if full then collected.At(Forwarding(kind, link)) else [])
    {
      var item := Get(Sorting(kind, link));
      Put(Forwarding(kind, link), item);
      spawned := [];
      if |cells[Forwarding(kind, link)]| > THRESHOLD {
        spawned := cells[Forwarding(kind, link)];
        cells := cells[Forwarding(kind, link) := []];
      }
    }

    /** One round of a writing thread. The find thread, once its vector is full, writes it only if it gets the
        lock, and otherwise goes back to wait for a key. */
    method WriteOne(kind: Kind, gotLock: bool)
      requires View().At(Output(kind)) != []
      requires kind == Find ==> writer.Getting?
      modifies this`cells, this`writer
      ensures var collected := CollectOutput(old(View()), kind);
              var full := |collected.At(Writing(kind))| > 1000;
              View() == if !full then collected else if kind == Find && !gotLock then MissLock(collected) else WriteBatch(collected, kind)
      ensures View().At(Written(kind)) != old(View()).At(Written(kind)) ==>
                exists batch :: AddsBatch(old(View()), View(), kind, old(View()).At(Writing(kind)) + [old(View()).At(Output(kind))[0]], batch)
    {
      var item := Get(Output(kind));
      Put(Writing(kind), item);
      if |cells[Writing(kind)]| > THRESHOLD {
        if kind == Find && !gotLock {
          writer := Getting(true);
          return;
        }
        var written := if Written(kind) in cells then cells[Written(kind)] else [];
        cells := cells[Written(kind) := written + Sort(cells[Writing(kind)])];
        cells := cells[Writing(kind) := []];
        if kind == Find {
          writer := Getting(false);
        }
        assert View() == WriteBatch(CollectOutput(old(View()), kind), kind);
        ghost var batch := WriteAddsBatch(CollectOutput(old(View()), kind), kind);
        assert AddsBatch(old(View()), View(), kind, CollectOutput(old(View()), kind).At(Writing(kind)), batch);
      }
    }
  }
}

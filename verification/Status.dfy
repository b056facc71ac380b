/** Status messages: a nested record as a flat list of numbers, each list in it preceded by its length.

    The numbers go through `float`s and `double`s printed with six digits. Below a million whole numbers pass
    unchanged, and only those are modelled: `Shown` and `Reader.Next` are those of whole numbers.
 */
module Status {
  import opened Text
  import opened Messages

  const SYSTEM_STATUS_TYPE: nat := 3892051

  /** Numbers below it are printed in full. */
  const SIX_DIGITS := 1000000

  datatype SystemInfo = SystemInfo(cpuPercent: seq<nat>, memoryPercent: nat)

  datatype HashTableInfo = HashTableInfo(queueSize: nat, sorting: seq<nat>, findSorting: seq<nat>, output: seq<nat>,
                                         findOutput: seq<nat>)

  datatype CrawlerInfo = CrawlerInfo(qSize: nat, zSize: nat, mapQueueSize: nat, mSize: nat)

  datatype InfoPackage = InfoPackage(system: SystemInfo, hashTables: seq<HashTableInfo>, crawlers: seq<CrawlerInfo>)

  // ---------- Writing ----------

  function FlatAll<T>(xs: seq<T>, flat: T -> seq<nat>): seq<nat> {
    if xs == [] then [] else flat(xs[0]) + FlatAll(xs[1..], flat)
  }

  /** A list: its length, then its items. */
  function FlatList<T>(xs: seq<T>, flat: T -> seq<nat>): seq<nat> {
    [|xs|] + FlatAll(xs, flat)
  }

  function FlatNumber(x: nat): seq<nat> {
    [x]
  }

  function FlatNumbers(xs: seq<nat>): seq<nat> {
    FlatList(xs, FlatNumber)
  }

  function FlatSystem(s: SystemInfo): seq<nat> {
    FlatNumbers(s.cpuPercent) + [s.memoryPercent]
  }

  function FlatHashTable(h: HashTableInfo): seq<nat> {
    [h.queueSize] + (FlatNumbers(h.sorting) + (FlatNumbers(h.findSorting) + (FlatNumbers(h.output) + FlatNumbers(h.findOutput))))
  }

  function FlatCrawler(c: CrawlerInfo): seq<nat> {
    [c.qSize, c.zSize, c.mapQueueSize, c.mSize]
  }

  function FlatInfo(info: InfoPackage): seq<nat> {
    FlatSystem(info.system) + (FlatList(info.hashTables, FlatHashTable) + FlatList(info.crawlers, FlatCrawler))
  }

  function Shown(x: nat): string {
    Digits(x)
  }

  /** The numbers, each followed by a blank. */
  function ShownAll(numbers: seq<nat>): string {
    if numbers == [] then "" else Shown(numbers[0]) + " " + ShownAll(numbers[1..])
  }

  function StatusBody(info: InfoPackage): string {
    Digits(SYSTEM_STATUS_TYPE) + " " + ShownAll(FlatInfo(info))
  }

  function EncodeStatus(info: InfoPackage): string {
    Sealed(StatusBody(info), CheckSum(StatusBody(info)))
  }

  // ---------- Reading ----------

  /** The two streams of `deserialize`: the message, and the text rebuilt for the check sum. */
  datatype Reader = Reader(ss: Stream, checked: string) {

    function Next(): (Reader, nat) {
      var (ss', x) := ReadNumber(ss);
      (Reader(ss', checked + (Shown(x) + " ")), x)
    }
  }

  function ReadNext(r: Reader): (Reader, nat) {
    r.Next()
  }

  function ReadMany<T>(r: Reader, num: nat, read: Reader -> (Reader, T)): (Reader, seq<T>)
    decreases num
  {
    if num == 0 then (r, [])
    else
      var (r', x) := read(r);
      var (end, xs) := ReadMany(r', num - 1, read);
      (end, [x] + xs)
  }

  function ReadList<T>(r: Reader, read: Reader -> (Reader, T)): (Reader, seq<T>) {
    var (r', num) := r.Next();
    ReadMany(r', num, read)
  }

  function ReadNumbers(r: Reader): (Reader, seq<nat>) {
    ReadList(r, ReadNext)
  }

  function ReadSystem(r: Reader): (Reader, SystemInfo) {
    var (r1, cpuPercent) := ReadNumbers(r);
    var (r2, memoryPercent) := r1.Next();
    (r2, SystemInfo(cpuPercent, memoryPercent))
  }

  function ReadHashTable(r: Reader): (Reader, HashTableInfo) {
    var (r1, queueSize) := r.Next();
    var (r2, sorting) := ReadNumbers(r1);
    var (r3, findSorting) := ReadNumbers(r2);
    var (r4, output) := ReadNumbers(r3);
    var (r5, findOutput) := ReadNumbers(r4);
    (r5, HashTableInfo(queueSize, sorting, findSorting, output, findOutput))
  }

  function ReadCrawler(r: Reader): (Reader, CrawlerInfo) {
    var (r1, qSize) := r.Next();
    var (r2, zSize) := r1.Next();
    var (r3, mapQueueSize) := r2.Next();
    var (r4, mSize) := r3.Next();
    (r4, CrawlerInfo(qSize, zSize, mapQueueSize, mSize))
  }

  function ReadInfo(r: Reader): (Reader, InfoPackage) {
    var (r1, system) := ReadSystem(r);
    var (r2, hashTables) := ReadList(r1, ReadHashTable);
    var (r3, crawlers) := ReadList(r2, ReadCrawler);
    (r3, InfoPackage(system, hashTables, crawlers))
  }

  /** What reading finds, as for the other messages. */
  datatype DecodedStatus = DecodedStatus(tagFits: bool, info: InfoPackage, checked: string, sum: nat, residual: string) {

    function Status(): nat {
      if tagFits && residual == "" then 0 else 1
    }

    predicate SumsAgree() {
      CheckSum(checked) == sum
    }
  }

  /** `old` is what the message object held before. */
  function DecodeStatus(text: string, old': InfoPackage): DecodedStatus {
    var (ss, typ) := ReadNumber(Open(text));
    var head := Digits(typ) + " ";
    if typ != SYSTEM_STATUS_TYPE then DecodedStatus(false, old', head, 0, "")
    else
      var (r, info) := ReadInfo(Reader(ss, head));
      var (ss', sum) := ReadNumber(r.ss);
      DecodedStatus(true, info, r.checked, sum, ReadToken(ss').1)
  }

  // ---------- The message object ----------

  method SerializeList<T>(xs: seq<T>, flat: T -> seq<nat>, vec: seq<nat>) returns (vec': seq<nat>)
    ensures vec' == vec + FlatList(xs, flat)
  {
    vec' := vec + [|xs|];
    ghost var head := vec';
    for k := 0 to |xs|
      invariant vec' == head + FlatAll(xs[..k], flat)
    {
      FlatNext(xs, flat, k);
      vec' := vec' + flat(xs[k]);
    }
    assert xs[..|xs|] == xs;
    ListAfter(vec, xs, flat);
  }

  lemma ListAfter<T>(vec: seq<nat>, xs: seq<T>, flat: T -> seq<nat>)
    ensures (vec + [|xs|]) + FlatAll(xs, flat) == vec + FlatList(xs, flat)
  {
  }

  method DeserializeList<T>(start: Reader, read: Reader -> (Reader, T)) returns (r: Reader, xs: seq<T>)
    ensures (r, xs) == ReadList(start, read)
  {
    var num := start.Next().1;
    r, xs := start.Next().0, [];
    ghost var all := ReadMany(r, num, read);
    for k := 0 to num
      invariant all.0 == ReadMany(r, num - k, read).0
      invariant all.1 == xs + ReadMany(r, num - k, read).1
    {
      var (r', x) := read(r);
      assert xs + ([x] + ReadMany(r', num - k - 1, read).1) == (xs + [x]) + ReadMany(r', num - k - 1, read).1;
      r, xs := r', xs + [x];
    }
    assert ReadMany(r, 0, read) == (r, []) && xs + [] == xs;
    assert ReadList(start, read) == all == (all.0, all.1);
  }

  method ShowNumbers(head: string, vec: seq<nat>) returns (ss: string)
    ensures ss == head + ShownAll(vec)
  {
    ss := head;
    for k := 0 to |vec|
      invariant ss == head + ShownAll(vec[..k])
    {
      ShownNext(vec, k);
      ss := ss + (Shown(vec[k]) + " ");
    }
    assert vec[..|vec|] == vec;
  }

  class StatusMessage {
    var info: InfoPackage

    constructor (info: InfoPackage)
      ensures this.info == info
    {
      this.info := info;
    }

    method Serialize() returns (text: string)
      ensures text == EncodeStatus(info)
    {
      var vec := SerializeList(info.system.cpuPercent, FlatNumber, []);
      vec := vec + [info.system.memoryPercent];
      vec := SerializeList(info.hashTables, FlatHashTable, vec);
      vec := SerializeList(info.crawlers, FlatCrawler, vec);
      assert vec == FlatInfo(info);
      var ss := ShowNumbers(Digits(SYSTEM_STATUS_TYPE) + " ", vec);
      var checkSum := ComputeCheckSum(ss);
      text := ss + (Digits(checkSum) + " ");
    }

    method Deserialize(text: string) returns (status: nat, reported: bool)
      modifies this
      ensures var d := DecodeStatus(text, old(info));
              && status == d.Status()
              && info == d.info
              && reported == (d.tagFits && !d.SumsAgree())
    {
      var (ss, typ) := ReadNumber(Open(text));
      if typ != SYSTEM_STATUS_TYPE {
        return 1, false;
      }
      var r, hashTables, crawlers;
      var system := ReadSystem(Reader(ss, Digits(typ) + " ")).1;
      r := ReadSystem(Reader(ss, Digits(typ) + " ")).0;
      r, hashTables := DeserializeList(r, ReadHashTable);
      r, crawlers := DeserializeList(r, ReadCrawler);
      info := InfoPackage(system, hashTables, crawlers);
      var checkSum := ComputeCheckSum(r.checked);
      var (ss', checkSum2) := ReadNumber(r.ss);
      reported := checkSum != checkSum2;
      var residual := ReadToken(ss').1;
      if residual != "" {
        return 1, reported;
      }
      return 0, reported;
    }
  }

  lemma {:induction false} FlatAppend<T>(a: seq<T>, b: seq<T>, flat: T -> seq<nat>)
    ensures FlatAll(a + b, flat) == FlatAll(a, flat) + FlatAll(b, flat)
  {
    if a == [] {
      assert a + b == b;
    } else {
      assert (a + b)[1..] == a[1..] + b;
      FlatAppend(a[1..], b, flat);
    }
  }

  lemma FlatNext<T>(xs: seq<T>, flat: T -> seq<nat>, k: nat)
    requires k < |xs|
    ensures FlatAll(xs[..k + 1], flat) == FlatAll(xs[..k], flat) + flat(xs[k])
  {
    assert xs[..k + 1] == xs[..k] + [xs[k]];
    FlatAppend(xs[..k], [xs[k]], flat);
    assert [xs[k]][1..] == [];
  }

  lemma {:induction false} ShownAppend(a: seq<nat>, b: seq<nat>)
    ensures ShownAll(a + b) == ShownAll(a) + ShownAll(b)
  {
    if a == [] {
      assert a + b == b;
    } else {
      assert (a + b)[1..] == a[1..] + b;
      ShownAppend(a[1..], b);
    }
  }

  lemma ShownNext(vec: seq<nat>, k: nat)
    requires k < |vec|
    ensures ShownAll(vec[..k + 1]) == ShownAll(vec[..k]) + (Shown(vec[k]) + " ")
  {
    assert vec[..k + 1] == vec[..k] + [vec[k]];
    ShownAppend(vec[..k], [vec[k]]);
    assert [vec[k]][1..] == [];
    assert ShownAll([vec[k]]) == Shown(vec[k]) + " " + ShownAll([vec[k]][1..]);
  }

  // ---------- Round trip ----------

  predicate AllSmall(numbers: seq<nat>) {
    forall k :: 0 <= k < |numbers| ==> numbers[k] < SIX_DIGITS
  }

  /** The stream stands before these numbers, with `tail` after them. */
  predicate At(r: Reader, numbers: seq<nat>, tail: string) {
    r.ss == Open(" " + (ShownAll(numbers) + tail))
  }

  /** Having read `numbers` the stream stands before `rest`, and the text for the check sum has grown by them. */
  predicate HasRead(r: Reader, r': Reader, numbers: seq<nat>, rest: seq<nat>, tail: string) {
    At(r', rest, tail) && r'.checked == r.checked + ShownAll(numbers)
  }

  /** Wherever `x` is written, `read` reads it. */
  ghost predicate ReadsBack<T(!new)>(flat: T -> seq<nat>, read: Reader -> (Reader, T), x: T) {
    forall r, rest, tail :: At(r, flat(x) + rest, tail) ==> read(r).1 == x && HasRead(r, read(r).0, flat(x), rest, tail)
  }

  lemma NextReadsBack(r: Reader, x: nat, rest: seq<nat>, tail: string)
    requires At(r, [x] + rest, tail) && x < SIX_DIGITS
    ensures r.Next().1 == x && HasRead(r, r.Next().0, [x], rest, tail)
  {
    assert ([x] + rest)[1..] == rest && [x][1..] == [];
    assert ShownAll([x] + rest) + tail == Digits(x) + " " + (ShownAll(rest) + tail);
    ReadBackNumber(" ", x, ShownAll(rest) + tail);
    assert ShownAll([x]) == Shown(x) + " ";
  }

  lemma ChecksInTurn(c: string, c1: string, c2: string, a: seq<nat>, b: seq<nat>)
    requires c1 == c + ShownAll(a) && c2 == c1 + ShownAll(b)
    ensures c2 == c + ShownAll(a + b)
  {
    ShownAppend(a, b);
    AppendedTwice(c, ShownAll(a), ShownAll(b));
  }

  lemma AppendedTwice(a: string, b: string, c: string)
    ensures (a + b) + c == a + (b + c)
  {
  }

  lemma ReadInTurn(r: Reader, r1: Reader, r2: Reader, a: seq<nat>, b: seq<nat>, rest: seq<nat>, tail: string)
    requires HasRead(r, r1, a, b + rest, tail) && HasRead(r1, r2, b, rest, tail)
    ensures HasRead(r, r2, a + b, rest, tail)
  {
    ChecksInTurn(r.checked, r1.checked, r2.checked, a, b);
  }

  lemma SmallParts(a: seq<nat>, b: seq<nat>)
    requires AllSmall(a + b)
    ensures AllSmall(a) && AllSmall(b)
  {
    forall k | 0 <= k < |a|
      ensures a[k] < SIX_DIGITS
    {
      assert (a + b)[k] == a[k];
    }
    forall k | 0 <= k < |b|
      ensures b[k] < SIX_DIGITS
    {
      assert (a + b)[|a| + k] == b[k];
    }
  }

  lemma {:induction false} ManyReadBack<T(!new)>(xs: seq<T>, flat: T -> seq<nat>, read: Reader -> (Reader, T), r: Reader,
                                                 rest: seq<nat>, tail: string)
    requires forall k :: 0 <= k < |xs| ==> ReadsBack(flat, read, xs[k])
    requires At(r, FlatAll(xs, flat) + rest, tail)
    ensures ReadMany(r, |xs|, read).1 == xs
    ensures HasRead(r, ReadMany(r, |xs|, read).0, FlatAll(xs, flat), rest, tail)
    decreases |xs|
  {
    if xs == [] {
      assert FlatAll(xs, flat) + rest == rest;
    } else {
      var first, others := flat(xs[0]), FlatAll(xs[1..], flat);
      assert FlatAll(xs, flat) + rest == first + (others + rest);
      assert ReadsBack(flat, read, xs[0]);
      var r1 := read(r).0;
      ManyReadBack(xs[1..], flat, read, r1, rest, tail);
      ReadInTurn(r, r1, ReadMany(r1, |xs| - 1, read).0, first, others, rest, tail);
      assert xs == [xs[0]] + xs[1..];
    }
  }

  lemma {:induction false} SmallItems<T>(xs: seq<T>, flat: T -> seq<nat>, k: nat)
    requires AllSmall(FlatAll(xs, flat)) && k < |xs|
    ensures AllSmall(flat(xs[k]))
  {
    SmallParts(flat(xs[0]), FlatAll(xs[1..], flat));
    if k > 0 {
      SmallItems(xs[1..], flat, k - 1);
    }
  }

  /** A list is read back if its length is small and its items are read back. */
  lemma ListReadsBack<T(!new)>(xs: seq<T>, flat: T -> seq<nat>, read: Reader -> (Reader, T), r: Reader,
                               rest: seq<nat>, tail: string)
    requires |xs| < SIX_DIGITS && forall k :: 0 <= k < |xs| ==> ReadsBack(flat, read, xs[k])
    requires At(r, FlatList(xs, flat) + rest, tail)
    ensures ReadList(r, read).1 == xs
    ensures HasRead(r, ReadList(r, read).0, FlatList(xs, flat), rest, tail)
  {
    var items := FlatAll(xs, flat);
    assert FlatList(xs, flat) + rest == [|xs|] + (items + rest);
    NextReadsBack(r, |xs|, items + rest, tail);
    var r1 := r.Next().0;
    ManyReadBack(xs, flat, read, r1, rest, tail);
    ReadInTurn(r, r1, ReadMany(r1, |xs|, read).0, [|xs|], items, rest, tail);
  }

  lemma NumberReadsBack(x: nat)
    requires x < SIX_DIGITS
    ensures ReadsBack(FlatNumber, ReadNext, x)
  {
    forall r, rest, tail | At(r, FlatNumber(x) + rest, tail)
      ensures ReadNext(r).1 == x && HasRead(r, ReadNext(r).0, FlatNumber(x), rest, tail)
    {
      NextReadsBack(r, x, rest, tail);
    }
  }

  lemma NumbersReadBack(r: Reader, xs: seq<nat>, rest: seq<nat>, tail: string)
    requires AllSmall(FlatNumbers(xs)) && At(r, FlatNumbers(xs) + rest, tail)
    ensures ReadNumbers(r).1 == xs && HasRead(r, ReadNumbers(r).0, FlatNumbers(xs), rest, tail)
  {
    SmallParts([|xs|], FlatAll(xs, FlatNumber));
    assert [|xs|][0] < SIX_DIGITS;
    forall k | 0 <= k < |xs|
      ensures ReadsBack(FlatNumber, ReadNext, xs[k])
    {
      SmallItems(xs, FlatNumber, k);
      assert FlatNumber(xs[k])[0] < SIX_DIGITS;
      NumberReadsBack(xs[k]);
    }
    ListReadsBack(xs, FlatNumber, ReadNext, r, rest, tail);
  }

  lemma SystemReadsBack(r: Reader, s: SystemInfo, rest: seq<nat>, tail: string)
    requires AllSmall(FlatSystem(s)) && At(r, FlatSystem(s) + rest, tail)
    ensures ReadSystem(r).1 == s && HasRead(r, ReadSystem(r).0, FlatSystem(s), rest, tail)
  {
    var a, b := FlatNumbers(s.cpuPercent), [s.memoryPercent];
    SmallParts(a, b);
    assert (a + b) + rest == a + (b + rest);
    NumbersReadBack(r, s.cpuPercent, b + rest, tail);
    var r1 := ReadNumbers(r).0;
    assert b[0] < SIX_DIGITS;
    NextReadsBack(r1, s.memoryPercent, rest, tail);
    ReadInTurn(r, r1, r1.Next().0, a, b, rest, tail);
  }

  /** Two lists, one after the other. */
  lemma PairReadsBack(r: Reader, xs: seq<nat>, ys: seq<nat>, rest: seq<nat>, tail: string)
    requires AllSmall(FlatNumbers(xs) + FlatNumbers(ys)) && At(r, (FlatNumbers(xs) + FlatNumbers(ys)) + rest, tail)
    ensures ReadNumbers(r).1 == xs && ReadNumbers(ReadNumbers(r).0).1 == ys
    ensures HasRead(r, ReadNumbers(ReadNumbers(r).0).0, FlatNumbers(xs) + FlatNumbers(ys), rest, tail)
  {
    var a, b := FlatNumbers(xs), FlatNumbers(ys);
    SmallParts(a, b);
    assert (a + b) + rest == a + (b + rest);
    NumbersReadBack(r, xs, b + rest, tail);
    var r1 := ReadNumbers(r).0;
    NumbersReadBack(r1, ys, rest, tail);
    ReadInTurn(r, r1, ReadNumbers(r1).0, a, b, rest, tail);
  }

  /** The four lists of a hash table. */
  lemma ListsReadBack(r: Reader, h: HashTableInfo, a: seq<nat>, b: seq<nat>, rest: seq<nat>, tail: string)
    requires a == FlatNumbers(h.sorting) + FlatNumbers(h.findSorting)
    requires b == FlatNumbers(h.output) + FlatNumbers(h.findOutput)
    requires AllSmall(a + b) && At(r, (a + b) + rest, tail)
    ensures var r3 := ReadNumbers(ReadNumbers(r).0).0;
            && ReadNumbers(r).1 == h.sorting && ReadNumbers(ReadNumbers(r).0).1 == h.findSorting
            && ReadNumbers(r3).1 == h.output && ReadNumbers(ReadNumbers(r3).0).1 == h.findOutput
            && HasRead(r, ReadNumbers(ReadNumbers(r3).0).0, a + b, rest, tail)
  {
    SmallParts(a, b);
    assert (a + b) + rest == a + (b + rest);
    PairReadsBack(r, h.sorting, h.findSorting, b + rest, tail);
    var r3 := ReadNumbers(ReadNumbers(r).0).0;
    PairReadsBack(r3, h.output, h.findOutput, rest, tail);
    ReadInTurn(r, r3, ReadNumbers(ReadNumbers(r3).0).0, a, b, rest, tail);
  }

  lemma FlatHashTableIs(h: HashTableInfo, a: seq<nat>, b: seq<nat>)
    requires a == FlatNumbers(h.sorting) + FlatNumbers(h.findSorting)
    requires b == FlatNumbers(h.output) + FlatNumbers(h.findOutput)
    ensures FlatHashTable(h) == [h.queueSize] + (a + b)
  {
  }

  lemma QueuesReadBack(r: Reader, h: HashTableInfo, rest: seq<nat>, tail: string)
    requires AllSmall(FlatHashTable(h)) && At(r, FlatHashTable(h) + rest, tail)
    ensures ReadHashTable(r).1 == h && HasRead(r, ReadHashTable(r).0, FlatHashTable(h), rest, tail)
  {
    var size := [h.queueSize];
    var a, b := FlatNumbers(h.sorting) + FlatNumbers(h.findSorting), FlatNumbers(h.output) + FlatNumbers(h.findOutput);
    var lists := a + b;
    FlatHashTableIs(h, a, b);
    SmallParts(size, lists);
    assert (size + lists) + rest == size + (lists + rest);
    assert size[0] < SIX_DIGITS;
    NextReadsBack(r, h.queueSize, lists + rest, tail);
    var r1 := r.Next().0;
    ListsReadBack(r1, h, a, b, rest, tail);
    ReadInTurn(r, r1, ReadHashTable(r).0, size, lists, rest, tail);
  }

  lemma HashTableReadsBack(h: HashTableInfo)
    requires AllSmall(FlatHashTable(h))
    ensures ReadsBack(FlatHashTable, ReadHashTable, h)
  {
    forall r, rest, tail | At(r, FlatHashTable(h) + rest, tail)
      ensures ReadHashTable(r).1 == h && HasRead(r, ReadHashTable(r).0, FlatHashTable(h), rest, tail)
    {
      QueuesReadBack(r, h, rest, tail);
    }
  }

  lemma NextTwo(r: Reader, x: nat, y: nat, rest: seq<nat>, tail: string)
    requires At(r, [x, y] + rest, tail) && x < SIX_DIGITS && y < SIX_DIGITS
    ensures r.Next().1 == x && r.Next().0.Next().1 == y
    ensures HasRead(r, r.Next().0.Next().0, [x, y], rest, tail)
  {
    assert [x, y] + rest == [x] + ([y] + rest);
    NextReadsBack(r, x, [y] + rest, tail);
    NextReadsBack(r.Next().0, y, rest, tail);
    ReadInTurn(r, r.Next().0, r.Next().0.Next().0, [x], [y], rest, tail);
    assert [x] + [y] == [x, y];
  }

  lemma CrawlerReadsBack(c: CrawlerInfo)
    requires AllSmall(FlatCrawler(c))
    ensures ReadsBack(FlatCrawler, ReadCrawler, c)
  {
    var a, b := [c.qSize, c.zSize], [c.mapQueueSize, c.mSize];
    assert FlatCrawler(c) == a + b;
    SmallParts(a, b);
    assert a[0] < SIX_DIGITS && a[1] < SIX_DIGITS && b[0] < SIX_DIGITS && b[1] < SIX_DIGITS;
    forall r, rest, tail | At(r, FlatCrawler(c) + rest, tail)
      ensures ReadCrawler(r).1 == c && HasRead(r, ReadCrawler(r).0, FlatCrawler(c), rest, tail)
    {
      assert (a + b) + rest == a + (b + rest);
      NextTwo(r, c.qSize, c.zSize, b + rest, tail);
      var r2 := r.Next().0.Next().0;
      NextTwo(r2, c.mapQueueSize, c.mSize, rest, tail);
      ReadInTurn(r, r2, r2.Next().0.Next().0, a, b, rest, tail);
    }
  }

  lemma TablesReadBack(r: Reader, tables: seq<HashTableInfo>, rest: seq<nat>, tail: string)
    requires AllSmall(FlatList(tables, FlatHashTable)) && At(r, FlatList(tables, FlatHashTable) + rest, tail)
    ensures ReadList(r, ReadHashTable).1 == tables
    ensures HasRead(r, ReadList(r, ReadHashTable).0, FlatList(tables, FlatHashTable), rest, tail)
  {
    SmallParts([|tables|], FlatAll(tables, FlatHashTable));
    assert [|tables|][0] < SIX_DIGITS;
    forall k | 0 <= k < |tables|
      ensures ReadsBack(FlatHashTable, ReadHashTable, tables[k])
    {
      SmallItems(tables, FlatHashTable, k);
      HashTableReadsBack(tables[k]);
    }
    ListReadsBack(tables, FlatHashTable, ReadHashTable, r, rest, tail);
  }

  lemma CrawlersReadBack(r: Reader, crawlers: seq<CrawlerInfo>, rest: seq<nat>, tail: string)
    requires AllSmall(FlatList(crawlers, FlatCrawler)) && At(r, FlatList(crawlers, FlatCrawler) + rest, tail)
    ensures ReadList(r, ReadCrawler).1 == crawlers
    ensures HasRead(r, ReadList(r, ReadCrawler).0, FlatList(crawlers, FlatCrawler), rest, tail)
  {
    SmallParts([|crawlers|], FlatAll(crawlers, FlatCrawler));
    assert [|crawlers|][0] < SIX_DIGITS;
    forall k | 0 <= k < |crawlers|
      ensures ReadsBack(FlatCrawler, ReadCrawler, crawlers[k])
    {
      SmallItems(crawlers, FlatCrawler, k);
      CrawlerReadsBack(crawlers[k]);
    }
    ListReadsBack(crawlers, FlatCrawler, ReadCrawler, r, rest, tail);
  }

  /** The package is read back and exactly its numbers are consumed. */
  lemma InfoReadsBack(r: Reader, info: InfoPackage, tail: string)
    requires AllSmall(FlatInfo(info)) && At(r, FlatInfo(info), tail)
    ensures ReadInfo(r).1 == info
    ensures HasRead(r, ReadInfo(r).0, FlatInfo(info), [], tail)
  {
    var a, b, c := FlatSystem(info.system), FlatList(info.hashTables, FlatHashTable), FlatList(info.crawlers, FlatCrawler);
    SmallParts(a, b + c);
    SmallParts(b, c);
    assert a + (b + c) == a + (b + (c + []));
    SystemReadsBack(r, info.system, b + (c + []), tail);
    var r1 := ReadSystem(r).0;
    TablesReadBack(r1, info.hashTables, c + [], tail);
    var r2 := ReadList(r1, ReadHashTable).0;
    CrawlersReadBack(r2, info.crawlers, [], tail);
    var r3 := ReadList(r2, ReadCrawler).0;
    ReadInTurn(r1, r2, r3, b, c, [], tail);
    assert b + (c + []) == (b + c) + [];
    ReadInTurn(r, r1, r3, a, b + c, [], tail);
  }

  lemma TagReadsBack(text: string)
    ensures ReadNumber(Open(Digits(SYSTEM_STATUS_TYPE) + " " + text)) == (Open(" " + text), SYSTEM_STATUS_TYPE)
  {
    var all := Digits(SYSTEM_STATUS_TYPE) + " " + text;
    assert "" + all == all;
    ReadBackNumber("", SYSTEM_STATUS_TYPE, text);
  }

  /** If every number, and the length of every list, is below a million, the message is read with status 0,
      yields an equal package, rebuilds the text that was summed, and leaves nothing over. */
  lemma StatusRoundTrip(info: InfoPackage, old': InfoPackage)
    requires AllSmall(FlatInfo(info))
    ensures var d := DecodeStatus(EncodeStatus(info), old');
            d.Status() == 0 && d.info == info && d.checked == StatusBody(info) && d.SumsAgree() && d.residual == ""
  {
    var sum := CheckSum(StatusBody(info));
    var tail := Digits(sum) + " ";
    var text := ShownAll(FlatInfo(info)) + tail;
    StatusText(info);
    TagReadsBack(text);
    var r := Reader(Open(" " + text), Digits(SYSTEM_STATUS_TYPE) + " ");
    InfoReadsBack(r, info, tail);
    assert ShownAll([]) + tail == tail;
    SumEndsMessage(sum);
  }

  lemma StatusText(info: InfoPackage)
    ensures EncodeStatus(info)
            == Digits(SYSTEM_STATUS_TYPE) + " " + (ShownAll(FlatInfo(info)) + (Digits(CheckSum(StatusBody(info))) + " "))
  {
  }
}

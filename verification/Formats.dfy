/** What the texts are, character by character, and what is refused.
 */
module Formats {
  import opened Machine
  import opened Ring
  import opened Text
  import opened Messages
  import opened Nodes
  import opened QueueFiles
  import opened Status

  lemma EightBitsMore(e: nat)
    ensures Pow2(e + 8) == 256 * Pow2(e)
  {
    assert Pow2(e + 2) == 2 * Pow2(e + 1) == 4 * Pow2(e);
    assert Pow2(e + 4) == 2 * Pow2(e + 3) == 4 * Pow2(e + 2);
    assert Pow2(e + 6) == 2 * Pow2(e + 5) == 4 * Pow2(e + 4);
    assert Pow2(e + 8) == 2 * Pow2(e + 7) == 4 * Pow2(e + 6);
  }

  /** A `std::size_t` has 64 bits, an `unsigned int` 32. */
  lemma WordSizes()
    ensures WORD == Pow2(64) && UINT == Pow2(32)
  {
    EightBitsMore(0);
    EightBitsMore(8);
    EightBitsMore(16);
    EightBitsMore(24);
    EightBitsMore(32);
    EightBitsMore(40);
    EightBitsMore(48);
    EightBitsMore(56);
  }

  /** White space is the blank and the characters from tabulator to carriage return. */
  lemma SpaceCodes(c: char)
    ensures IsSpace(c) <==> c as int == 32 || 9 <= c as int <= 13
  {
  }

  // ---------- Numbers ----------

  lemma DigitsOfTags()
    ensures Digits(STORE_TYPE) == "1234589" && Digits(FIND_TYPE) == "4389728" && Digits(SYSTEM_STATUS_TYPE) == "3892051"
  {
    TwoDigits(12, 34, 58);
    TwoDigits(43, 89, 72);
    TwoDigits(38, 92, 5);
    assert Digits(12) == Digits(1) + ['2'];
    assert Digits(43) == Digits(4) + ['3'];
    assert Digits(38) == Digits(3) + ['8'];
    assert Digits(1234589) == Digits(123458) + ['9'];
    assert Digits(4389728) == Digits(438972) + ['8'];
    assert Digits(3892051) == Digits(389205) + ['1'];
  }

  /** Two pairs of digits behind a number. */
  lemma TwoDigits(n: nat, a: nat, b: nat)
    requires n > 0 && a < 100 && b < 100
    ensures Digits((n * 100 + a) * 100 + b)
            == Digits(n) + [Digit(a / 10), Digit(a % 10)] + [Digit(b / 10), Digit(b % 10)]
  {
    Pair(n, a);
    Pair(n * 100 + a, b);
  }

  lemma Pair(n: nat, a: nat)
    requires n > 0 && a < 100
    ensures Digits(n * 100 + a) == Digits(n) + [Digit(a / 10), Digit(a % 10)]
  {
    var m := n * 100 + a;
    assert m / 10 == n * 10 + a / 10 && m % 10 == a % 10;
    assert m / 10 / 10 == n && m / 10 % 10 == a / 10;
    assert Digits(m / 10) == Digits(n) + [Digit(a / 10)];
  }

  lemma DigitLengthIs(n: nat, rest: string)
    requires rest == "" || !IsDigit(rest[0])
    ensures DigitLength(Digits(n) + rest) == |Digits(n)|
  {
    var d := Digits(n);
    var s := d + rest;
    var k := DigitLength(s);
    assert forall i :: 0 <= i < |d| ==> s[i] == d[i];
    assert |d| < |s| ==> s[|d|] == rest[0];
  }

  lemma UnsignedReads(n: nat, rest: string)
    requires rest == "" || !IsDigit(rest[0])
    ensures ReadNumber(Open(Digits(n) + rest)).1 == if n < WORD then n else WORD - 1
  {
    var t := Digits(n) + rest;
    DigitLengthIs(n, rest);
    DigitsValue(n);
    assert t[..|Digits(n)|] == Digits(n);
    assert IsDigit(t[0]) && SkipSpace(t) == t;
  }

  lemma SignedReads(sign: char, n: nat, rest: string)
    requires IsSign(sign) && (rest == "" || !IsDigit(rest[0]))
    ensures ReadNumber(Open([sign] + (Digits(n) + rest))).1
            == if n >= WORD then WORD - 1 else if sign == '-' then ToWord(0 - n) else n
  {
    var t := Digits(n) + rest;
    DigitLengthIs(n, rest);
    DigitsValue(n);
    assert t[..|Digits(n)|] == Digits(n);
    ReadBehindSign(sign, t, |Digits(n)|, n);
  }

  lemma ReadBehindSign(sign: char, t: string, k: nat, n: nat)
    requires IsSign(sign) && 0 < k == DigitLength(t) && Value(t[..k]) == n
    ensures ReadNumber(Open([sign] + t)).1 == if n >= WORD then WORD - 1 else if sign == '-' then ToWord(0 - n) else n
  {
    var s := [sign] + t;
    assert SkipSpace(s) == s && s[1..] == t;
  }

  lemma NegativeWord(n: nat)
    requires n < WORD
    ensures ToWord(0 - n) == if n == 0 then 0 else WORD - n
  {
  }

  lemma NoNumberReads(rest: string)
    requires rest == "" || !(IsDigit(rest[0]) || IsSpace(rest[0]) || IsSign(rest[0]))
    ensures ReadNumber(Open(rest)) == (Stream(rest, true), 0)
  {
  }

  /** Reading a number: without a sign, with one, and where there is none. What is too large becomes the largest
      word, and a negative number is taken modulo the word size. */
  lemma NumbersRead(n: nat, rest: string)
    requires rest == "" || !IsDigit(rest[0])
    ensures ReadNumber(Open(Digits(n) + rest)).1 == if n < WORD then n else WORD - 1
    ensures ReadNumber(Open("+" + (Digits(n) + rest))).1 == if n < WORD then n else WORD - 1
    ensures ReadNumber(Open("-" + (Digits(n) + rest))).1 == if n == 0 then 0 else if n < WORD then WORD - n else WORD - 1
    ensures rest == "" || !(IsSpace(rest[0]) || IsSign(rest[0])) ==> ReadNumber(Open(rest)) == (Stream(rest, true), 0)
  {
    UnsignedReads(n, rest);
    SignedReads('+', n, rest);
    SignedReads('-', n, rest);
    if n < WORD {
      NegativeWord(n);
    }
    if rest == "" || !(IsSpace(rest[0]) || IsSign(rest[0])) {
      NoNumberReads(rest);
    }
  }

  // ---------- The check sum ----------

  /** Every character adds its code and one more; codes from 128 on count as negative. */
  function Codes(text: string): int {
    if text == "" then 0
    else (var code := text[0] as int % 256; if code < 128 then code + 1 else code - 255) + Codes(text[1..])
  }

  lemma {:induction false} CodesAppend(a: string, b: string)
    ensures Codes(a + b) == Codes(a) + Codes(b)
  {
    if a == "" {
      assert a + b == b;
    } else {
      assert (a + b)[1..] == a[1..] + b;
      CodesAppend(a[1..], b);
    }
  }

  lemma {:induction false} CheckSumIsSum(text: string)
    ensures CheckSum(text) == ToWord(Codes(text))
  {
    if text != "" {
      var before, c := text[..|text| - 1], text[|text| - 1];
      CheckSumIsSum(before);
      assert text == before + [c];
      CodesAppend(before, [c]);
      ToWordAdds(Codes(before), 0, SignedChar(c) + 1);
    }
  }

  // ---------- Messages ----------

  lemma StoreMessageText(sum: string)
    ensures Body(STORE_TYPE, 2, ["ab", "c"]) == "1234589 2 ab c "
    ensures Sealed("x ", 7) == "x 7 "
  {
    DigitsOfTags();
    assert Joined(["ab", "c"]) == "ab" + " " + Joined(["c"]);
    assert ["ab", "c"][1..] == ["c"] && ["c"][1..] == [];
    assert Joined(["c"]) == "c ";
    assert Digits(2) == "2" && Digits(7) == "7";
  }

  lemma OffsetValues(data: seq<string>, offset: nat, num: nat, end: nat)
    requires offset <= |data| && offset + num < WORD && end == if offset + num < |data| then offset + num else |data|
    ensures EndIndex(data, offset, num) == end && Messages.Written(data, offset, num) == data[offset..end]
  {
    ToWordSmall(offset + num);
  }

  /** With an offset the message announces the end index and has the values from the offset on, and its sum is that of
      this text. */
  lemma OffsetText(tag: nat, data: seq<string>, offset: nat, num: nat, end: nat, body: string)
    requires offset <= |data| && offset + num < WORD && end == (if offset + num < |data| then offset + num else |data|)
    requires body == Digits(tag) + " " + (Digits(end) + " " + Joined(data[offset..end]))
    ensures Encode(tag, data, offset, num) == body + (Digits(ToWord(Codes(body))) + " ")
  {
    OffsetValues(data, offset, num, end);
    CheckSumIsSum(body);
  }

  /** A message is refused exactly if something other than white space follows it. */
  lemma RestIsRefusedIff(tag: nat, data: seq<string>, rest: string)
    requires tag < WORD && |data| < WORD && AllTokens(data)
    ensures Decode(tag, EncodeAll(tag, data) + rest).Status() == (if AllSpace(rest) then 0 else 1)
    ensures Decode(tag, EncodeAll(tag, data) + rest).values == data
  {
    var sum := CheckSum(Body(tag, |data|, data));
    var end := Digits(sum) + " " + rest;
    var tail := Joined(data) + end;
    var text := Digits(tag) + " " + (Digits(|data|) + " " + tail);
    EncodedText(tag, data);
    FollowedBy(tag, data, sum, rest, EncodeAll(tag, data));
    ReadHeader(tag, |data|, tail);
    ReadBackValues(data, end);
    ReadBackNumber(" ", sum, rest);
    assert Open(" " + end) == Open(" " + (Digits(sum) + " " + rest));
    DecodeParts(tag, text, Open(" " + (Digits(|data|) + " " + tail)), Open(" " + tail), |data|, Open(" " + end), data);
    BlankThen(rest);
  }

  lemma FollowedBy(tag: nat, data: seq<string>, sum: nat, rest: string, text: string)
    requires text == Digits(tag) + " " + (Digits(|data|) + " " + (Joined(data) + (Digits(sum) + " ")))
    ensures text + rest == Digits(tag) + " " + (Digits(|data|) + " " + (Joined(data) + (Digits(sum) + " " + rest)))
  {
  }

  lemma BlankThen(rest: string)
    ensures ReadToken(Open(" " + rest)).1 == "" <==> AllSpace(rest)
  {
    var s := " " + rest;
    assert forall i :: 0 <= i < |rest| ==> s[i + 1] == rest[i];
    assert AllSpace(s) <==> AllSpace(rest) by {
      if AllSpace(s) {
        forall i | 0 <= i < |rest|
          ensures IsSpace(rest[i])
        {
          assert s[i + 1] == rest[i];
        }
      }
    }
    if AllSpace(s) {
      ReadNothing(s);
    } else {
      ReadSomeToken(s);
    }
  }

  /** The consumer takes its branch by the type, and takes nothing from a message of another type, or from one that
      something follows. */
  lemma CarriedByType(typ: nat, data: seq<string>, rest: string)
    requires typ < WORD && |data| < WORD && AllTokens(data)
    ensures Carried(EncodeAll(1234589, data)) == (Store, data)
    ensures Carried(EncodeAll(4389728, data)) == (Find, data)
    ensures typ != 1234589 && typ != 4389728 ==> Carried(EncodeAll(typ, data)).1 == []
    ensures !AllSpace(rest) ==> Carried(EncodeAll(1234589, data) + rest).1 == Carried(EncodeAll(4389728, data) + rest).1 == []
  {
    CarriedRoundTrip(Store, data);
    CarriedRoundTrip(Find, data);
    RoundTrip(typ, data);
    if !AllSpace(rest) {
      RefusedCarriesNothing(Store, data, rest);
      RefusedCarriesNothing(Find, data, rest);
    }
  }

  lemma RefusedCarriesNothing(kind: Kind, data: seq<string>, rest: string)
    requires |data| < WORD && AllTokens(data) && !AllSpace(rest)
    ensures Carried(EncodeAll(Tag(kind), data) + rest).1 == []
  {
    var tag := Tag(kind);
    RestIsRefusedIff(tag, data, rest);
    EncodedText(tag, data);
    var sum := CheckSum(Body(tag, |data|, data));
    FollowedBy(tag, data, sum, rest, EncodeAll(tag, data));
    ReadHeader(tag, |data|, Joined(data) + (Digits(sum) + " " + rest));
  }

  /** A message of another type is refused, and nothing of it is taken. */
  lemma OtherTypeIsRefused(tag: nat, typ: nat, data: seq<string>)
    requires typ < WORD && typ != tag && |data| < WORD && AllTokens(data)
    ensures var d := Decode(tag, EncodeAll(typ, data)); d.Status() == 1 && !d.tagFits
  {
    RoundTrip(typ, data);
  }

  // ---------- Queue files and status messages ----------

  lemma QueueFileText()
    ensures Printed([Entry(7, "ab"), Entry(2, "")]) == "7 ab\n2 \n"
  {
    var entries := [Entry(7, "ab"), Entry(2, "")];
    assert Digits(7) == "7" && Digits(2) == "2";
    assert entries[1..] == [Entry(2, "")] && entries[1..][1..] == [];
    assert Printed(entries[1..]) == "2 " + "" + "\n" + "";
    assert PrintedLine(entries[0]) == "7" + " " + "ab";
  }

  lemma TableNumbers(q: nat, s: nat, f: nat, o: nat, g: nat)
    ensures FlatHashTable(HashTableInfo(q, [s], [f], [o], [g])) == [q, 1, s, 1, f, 1, o, 1, g]
  {
    OneNumber(s);
    OneNumber(f);
    OneNumber(o);
    OneNumber(g);
  }

  lemma TwoNumbers(a: nat, b: nat)
    ensures FlatNumbers([a, b]) == [2, a, b]
  {
    OneNumber(b);
    assert [a, b][1..] == [b];
    assert FlatAll([a, b], FlatNumber) == FlatNumber(a) + FlatAll([b], FlatNumber);
  }

  lemma OneItem<T>(x: T, flat: T -> seq<nat>)
    ensures FlatList([x], flat) == [1] + flat(x)
  {
    assert [x][1..] == [];
    assert FlatAll([x], flat) == flat(x) + [];
  }

  /** The numbers of a package, in their order: each list behind its length. */
  lemma StatusNumbers(a: nat, b: nat, m: nat, q: nat, s: nat, f: nat, o: nat, g: nat, c: CrawlerInfo)
    ensures FlatInfo(InfoPackage(SystemInfo([a, b], m), [HashTableInfo(q, [s], [f], [o], [g])], [c]))
            == [2, a, b, m, 1, q, 1, s, 1, f, 1, o, 1, g, 1, c.qSize, c.zSize, c.mapQueueSize, c.mSize]
  {
    TwoNumbers(a, b);
    TableNumbers(q, s, f, o, g);
    OneItem(HashTableInfo(q, [s], [f], [o], [g]), FlatHashTable);
    OneItem(c, FlatCrawler);
  }

  lemma OneNumber(x: nat)
    ensures FlatAll([x], FlatNumber) == [x] && FlatNumbers([x]) == [1, x]
  {
    assert [x][1..] == [];
    assert FlatAll([x], FlatNumber) == FlatNumber(x) + FlatAll([x][1..], FlatNumber);
  }

  lemma StatusMessageText()
    ensures Digits(SYSTEM_STATUS_TYPE) + " " + ShownAll([7, 2]) == "3892051 7 2 "
  {
    DigitsOfTags();
    assert Digits(7) == "7" && Digits(2) == "2";
    assert [7, 2][1..] == [2] && [2][1..] == [];
    assert ShownAll([2]) == "2 ";
  }

  /** A status message, too, is refused exactly if something other than white space follows it. */
  lemma StatusRestIsRefusedIff(info: InfoPackage, before: InfoPackage, rest: string)
    requires AllSmall(FlatInfo(info))
    ensures var d := DecodeStatus(EncodeStatus(info) + rest, before);
            d.info == info && d.Status() == if AllSpace(rest) then 0 else 1
  {
    var sum := CheckSum(StatusBody(info));
    var tail := Digits(sum) + " " + rest;
    var text := ShownAll(FlatInfo(info)) + tail;
    Status.StatusText(info);
    StatusFollowedBy(Digits(SYSTEM_STATUS_TYPE), ShownAll(FlatInfo(info)), Digits(sum), rest, EncodeStatus(info));
    TagReadsBack(text);
    InfoReadsBack(Reader(Open(" " + text), Digits(SYSTEM_STATUS_TYPE) + " "), info, tail);
    assert ShownAll([]) + tail == tail;
    ReadBackNumber(" ", sum, rest);
    BlankThen(rest);
  }

  lemma StatusFollowedBy(tag: string, numbers: string, sum: string, rest: string, text: string)
    requires text == tag + " " + (numbers + (sum + " "))
    ensures text + rest == tag + " " + (numbers + (sum + " " + rest))
  {
  }

  /** A message of another type is refused, and the package stays as it was. */
  lemma NoStatusIsRefused(typ: nat, data: seq<string>, before: InfoPackage)
    requires typ < WORD && typ != 3892051 && |data| < WORD && AllTokens(data)
    ensures DecodeStatus(EncodeAll(typ, data), before).Status() == 1
    ensures DecodeStatus(EncodeAll(typ, data), before).info == before
  {
    RoundTrip(typ, data);
  }
}

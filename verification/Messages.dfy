/** Store and find messages: a type tag, a count, that many keys and a check sum, all as text.

    Both kinds share one algorithm and differ in the tag only, so one class stands for both.
 */
module Messages {
  import opened Machine
  import opened Text

  const STORE_TYPE: nat := 1234589
  const FIND_TYPE: nat := 4389728

  function Min(a: nat, b: nat): nat {
    if a < b then a else b
  }

  /** Every value followed by a blank. */
  function Joined(values: seq<string>): string {
    if values == [] then "" else values[0] + " " + Joined(values[1..])
  }

  /** The number that the message announces: values up to this index are written. The addition wraps. */
  function EndIndex(data: seq<string>, offset: nat, num: nat): (size: nat)
    ensures size <= |data|
  {
    Min(|data|, ToWord(offset + num))
  }

  /** The values that the message really contains. */
  function Written(data: seq<string>, offset: nat, num: nat): seq<string> {
    var size := EndIndex(data, offset, num);
    if offset <= size then data[offset..size] else []
  }

  /** A message body that announces `count` values. */
  function Body(tag: nat, count: nat, values: seq<string>): string {
    Digits(tag) + " " + (Digits(count) + " " + Joined(values))
  }

  /** A body followed by a check sum. */
  function Sealed(body: string, sum: nat): string {
    body + (Digits(sum) + " ")
  }

  function Encode(tag: nat, data: seq<string>, offset: nat, num: nat): string {
    var body := Body(tag, EndIndex(data, offset, num), Written(data, offset, num));
    Sealed(body, CheckSum(body))
  }

  /** The message of a whole list. */
  function EncodeAll(tag: nat, data: seq<string>): string {
    Encode(tag, data, 0, |data|)
  }

  /** `num` reads of a string, one after the other. */
  function ReadValues(ss: Stream, num: nat): (r: (Stream, seq<string>))
    ensures |r.1| == num
    decreases num
  {
    if num == 0 then (ss, [])
    else
      var (ss', value) := ReadToken(ss);
      var (end, values) := ReadValues(ss', num - 1);
      (end, [value] + values)
  }

  /** What reading a message finds: whether the tag fits, the values, the text rebuilt for the check sum,
      the sum that the message carries, and what is left after it. */
  datatype Decoded = Decoded(tagFits: bool, values: seq<string>, checked: string, sum: nat, residual: string) {

    /** The return value of `deserialize`. A wrong sum is only reported, not refused. */
    function Status(): nat {
      if tagFits && residual == "" then 0 else 1
    }

    predicate SumsAgree() {
      CheckSum(checked) == sum
    }
  }

  function Decode(tag: nat, text: string): Decoded {
    var (ss1, typ) := ReadNumber(Open(text));
    if typ != tag then Decoded(false, [], Digits(typ) + " ", 0, "")
    else
      var (ss2, num) := ReadNumber(ss1);
      var (ss3, values) := ReadValues(ss2, num);
      var (ss4, sum) := ReadNumber(ss3);
      Decoded(true, values, Body(typ, num, values), sum, ReadToken(ss4).1)
  }

  /** `Serialize::extract_type`. */
  function ExtractType(text: string): nat {
    ReadNumber(Open(text)).1
  }

  class ListMessage {
    const tag: nat
    var data: seq<string>

    constructor (tag: nat)
      ensures this.tag == tag && data == []
    {
      this.tag := tag;
      data := [];
    }

    method SetData(p: seq<string>)
      modifies this
      ensures data == p
    {
      data := [];
      var k := 0;
      while k < |p|
        invariant 0 <= k <= |p| && data == p[..k]
      {
        data := data + [p[k]];
        k := k + 1;
      }
    }

    method Serialize(offset: nat, num: nat) returns (text: string)
      ensures text == Encode(tag, data, offset, num)
    {
      var ss := Digits(tag) + " ";
      var size := Min(|data|, ToWord(offset + num));
      ss := ss + Digits(size) + " ";
      ghost var head := ss;
      ghost var written := Written(data, offset, num);
      var k := offset;
      while k < size
        invariant offset <= k
        invariant offset <= size ==> k <= size
        invariant ss == head + Joined(if offset <= size then written[..k - offset] else [])
      {
        ss := ss + data[k] + " ";
        JoinedPrefix(written, k - offset);
        k := k + 1;
      }
      assert offset <= size ==> written[..size - offset] == written;
      BodyAssembled(tag, size, written);
      var checkSum := ComputeCheckSum(ss);
      text := ss + (Digits(checkSum) + " ");
    }

    /** The loop that reads the values and copies them to the text for the check sum. */
    method ReadData(start: Stream, num: nat, head: string) returns (ss: Stream, checked: string)
      modifies this
      ensures (ss, data) == ReadValues(start, num)
      ensures checked == head + Joined(data)
    {
      ss, checked := start, head;
      data := [];
      ghost var all := ReadValues(start, num);
      assert [] + all.1 == all.1;
      var k := 0;
      while k < num
        invariant 0 <= k <= num
        invariant checked == head + Joined(data)
        invariant all == (ReadValues(ss, num - k).0, data + ReadValues(ss, num - k).1)
      {
        var (ss', value) := ReadToken(ss);
        ReadOneMore(ss, num - k, data);
        JoinedLast(head, data, value);
        ss := ss';
        checked := checked + (value + " ");
        data := data + [value];
        k := k + 1;
      }
      assert data + ReadValues(ss, 0).1 == data;
    }

    /** The second result tells whether a mismatch of the check sums was reported. */
    method Deserialize(text: string) returns (status: nat, reported: bool)
      modifies this
      ensures var d := Decode(tag, text);
              && status == d.Status()
              && data == (if d.tagFits then d.values else old(data))
              && reported == (d.tagFits && !d.SumsAgree())
    {
      reported := false;
      var ss, typ := ReadNumber(Open(text)).0, ReadNumber(Open(text)).1;
      var checked := Digits(typ) + " ";
      if typ != tag {
        return 1, false;
      }
      var num := ReadNumber(ss).1;
      ss := ReadNumber(ss).0;
      checked := checked + Digits(num) + " ";
      ss, checked := ReadData(ss, num, checked);
      BodyAssembled(typ, num, data);
      var checkSum := ComputeCheckSum(checked);
      var checkSum2 := ReadNumber(ss).1;
      ss := ReadNumber(ss).0;
      if checkSum != checkSum2 {
        reported := true;
      }
      var residual := ReadToken(ss).1;
      if residual != "" {
        return 1, reported;
      }
      return 0, reported;
    }
  }

  method ComputeCheckSum(text: string) returns (checkSum: nat)
    ensures checkSum == CheckSum(text)
  {
    checkSum := 0;
    var k := 0;
    while k < |text|
      invariant 0 <= k <= |text|
      invariant checkSum == CheckSum(text[..k])
    {
      assert text[..k + 1][..k] == text[..k];
      checkSum := ToWord(checkSum + SignedChar(text[k]) + 1);
      k := k + 1;
    }
    assert text[..|text|] == text;
  }

  /** One more value. */
  lemma JoinedPrefix(values: seq<string>, k: nat)
    requires k < |values|
    ensures Joined(values[..k + 1]) == Joined(values[..k]) + (values[k] + " ")
  {
    assert values[..k + 1] == values[..k] + [values[k]];
    JoinedAppend(values[..k], [values[k]]);
    assert Joined([values[k]]) == values[k] + " " + Joined([]);
  }

  lemma ReadOneMore(ss: Stream, num: nat, done: seq<string>)
    requires num > 0
    ensures var (next, value) := ReadToken(ss);
            && ReadValues(ss, num).0 == ReadValues(next, num - 1).0
            && done + ReadValues(ss, num).1 == (done + [value]) + ReadValues(next, num - 1).1
  {
  }

  lemma JoinedLast(head: string, values: seq<string>, value: string)
    ensures head + Joined(values + [value]) == (head + Joined(values)) + (value + " ")
  {
    JoinedAppend(values, [value]);
    assert Joined([value]) == value + " " + Joined([]);
  }

  /** A body as the streams assemble it, piece by piece. */
  lemma BodyAssembled(tag: nat, count: nat, values: seq<string>)
    ensures Digits(tag) + " " + Digits(count) + " " + Joined(values) == Body(tag, count, values)
  {
  }

  lemma {:induction false} JoinedAppend(a: seq<string>, b: seq<string>)
    ensures Joined(a + b) == Joined(a) + Joined(b)
  {
    if a == [] {
      assert a + b == b;
    } else {
      assert (a + b)[1..] == a[1..] + b;
      JoinedAppend(a[1..], b);
      assert a[0] + " " + (Joined(a[1..]) + Joined(b)) == (a[0] + " " + Joined(a[1..])) + Joined(b);
    }
  }

  /** Reading a message up to its values. */
  lemma ReadHeader(tag: nat, count: nat, tail: string)
    requires tag < WORD && count < WORD
    ensures var text := Digits(tag) + " " + (Digits(count) + " " + tail);
            && ReadNumber(Open(text)) == (Open(" " + (Digits(count) + " " + tail)), tag)
            && ReadNumber(Open(" " + (Digits(count) + " " + tail))) == (Open(" " + tail), count)
  {
    var text := Digits(tag) + " " + (Digits(count) + " " + tail);
    assert "" + text == text;
    ReadBackNumber("", tag, Digits(count) + " " + tail);
    ReadBackNumber(" ", count, tail);
  }

  /** Tokens are read back one by one, and the stream then stands at what follows them. */
  lemma {:induction false} ReadBackValues(values: seq<string>, tail: string)
    requires AllTokens(values)
    ensures ReadValues(Open(" " + (Joined(values) + tail)), |values|) == (Open(" " + tail), values)
  {
    if values == [] {
      assert Joined(values) + tail == tail;
    } else {
      var rest := Joined(values[1..]) + tail;
      assert Joined(values) + tail == values[0] + " " + rest;
      ReadBackToken(" ", values[0], rest);
      ReadBackValues(values[1..], tail);
      assert values == [values[0]] + values[1..];
    }
  }

  /** Every value read is a token, or empty when nothing is left to read. */
  lemma {:induction false} ReadsValues(ss: Stream, num: nat)
    ensures AllValues(ReadValues(ss, num).1)
    decreases num
  {
    if num > 0 {
      SkipSpaceYields(ss.rest);
      ReadsValues(ReadToken(ss).0, num - 1);
    }
  }

  /** A message whose parts are read one by one. */
  lemma DecodeParts(tag: nat, text: string, ss1: Stream, ss2: Stream, num: nat, ss3: Stream, values: seq<string>)
    requires ReadNumber(Open(text)) == (ss1, tag) && ReadNumber(ss1) == (ss2, num)
    requires ReadValues(ss2, num) == (ss3, values)
    ensures Decode(tag, text)
            == Decoded(true, values, Body(tag, num, values), ReadNumber(ss3).1, ReadToken(ReadNumber(ss3).0).1)
  {
  }

  lemma SumEndsMessage(sum: nat)
    requires sum < WORD
    ensures ReadNumber(Open(" " + (Digits(sum) + " "))).1 == sum
    ensures ReadToken(ReadNumber(Open(" " + (Digits(sum) + " "))).0).1 == ""
  {
    assert Digits(sum) + " " == Digits(sum) + " " + "";
    ReadBackNumber(" ", sum, "");
    ReadNothing(" ");
  }

  /** Reading back a message of tokens, whatever number stands where the check sum belongs. */
  lemma DecodeSealed(tag: nat, data: seq<string>, sum: nat)
    requires tag < WORD && |data| < WORD && sum < WORD
    requires AllTokens(data)
    ensures Decode(tag, Sealed(Body(tag, |data|, data), sum)) == Decoded(true, data, Body(tag, |data|, data), sum, "")
  {
    var tail := Joined(data) + (Digits(sum) + " ");
    var text := Digits(tag) + " " + (Digits(|data|) + " " + tail);
    SealedText(tag, |data|, data, sum);
    ReadHeader(tag, |data|, tail);
    ReadBackValues(data, Digits(sum) + " ");
    DecodeParts(tag, text, Open(" " + (Digits(|data|) + " " + tail)), Open(" " + tail), |data|, Open(" " + (Digits(sum) + " ")), data);
    SumEndsMessage(sum);
  }

  /** The round trip: reading a message of tokens returns 0, restores the list, rebuilds byte for byte
      the text that was summed, and leaves nothing over. */
  lemma RoundTrip(tag: nat, data: seq<string>)
    requires tag < WORD && |data| < WORD
    requires AllTokens(data)
    ensures var d := Decode(tag, EncodeAll(tag, data));
            && d.Status() == 0 && d.values == data && d.residual == ""
            && d.checked == Body(tag, |data|, data) && d.SumsAgree()
    ensures ExtractType(EncodeAll(tag, data)) == tag
  {
    EncodedText(tag, data);
    var sum := CheckSum(Body(tag, |data|, data));
    DecodeSealed(tag, data, sum);
    ReadHeader(tag, |data|, Joined(data) + (Digits(sum) + " "));
  }

  lemma EncodedText(tag: nat, data: seq<string>)
    requires |data| < WORD
    ensures var body := Body(tag, |data|, data);
            && EncodeAll(tag, data) == Sealed(body, CheckSum(body))
            && EncodeAll(tag, data) == Digits(tag) + " " + (Digits(|data|) + " " + (Joined(data) + (Digits(CheckSum(body)) + " ")))
  {
    assert Written(data, 0, |data|) == data;
    SealedText(tag, |data|, data, CheckSum(Body(tag, |data|, data)));
  }

  lemma SealedText(tag: nat, count: nat, values: seq<string>, sum: nat)
    ensures Sealed(Body(tag, count, values), sum) == Digits(tag) + " " + (Digits(count) + " " + (Joined(values) + (Digits(sum) + " ")))
  {
  }

  /** A wrong check sum does not make a message fail: every other sum is accepted with the same values. */
  lemma CheckSumIsNotEnforced(tag: nat, data: seq<string>, sum: nat)
    requires tag < WORD && |data| < WORD && sum < WORD
    requires AllTokens(data) && sum != CheckSum(Body(tag, |data|, data))
    ensures var d := Decode(tag, Sealed(Body(tag, |data|, data), sum));
            d.Status() == 0 && d.values == data && !d.SumsAgree()
  {
    DecodeSealed(tag, data, sum);
  }

  /** Exactly the lists of tokens survive the round trip: an empty string or one with white space is lost. */
  lemma RoundTripIffTokens(tag: nat, data: seq<string>)
    requires tag < WORD && |data| < WORD
    ensures Decode(tag, EncodeAll(tag, data)).values == data <==> AllTokens(data)
  {
    if AllTokens(data) {
      RoundTrip(tag, data);
    } else {
      EncodedText(tag, data);
      var sum := CheckSum(Body(tag, |data|, data));
      ReadHeader(tag, |data|, Joined(data) + (Digits(sum) + " "));
      assert !IsSpace((Digits(sum) + " ")[0]);
      FirstBadValue(data, Digits(sum) + " ");
    }
  }

  /** The first value that is no token is read as something else, since the check sum still follows. */
  lemma {:induction false} FirstBadValue(values: seq<string>, tail: string)
    requires !AllTokens(values)
    requires !AllSpace(tail)
    ensures ReadValues(Open(" " + (Joined(values) + tail)), |values|).1 != values
  {
    var text := " " + (Joined(values) + tail);
    if IsToken(values[0]) {
      var rest := Joined(values[1..]) + tail;
      assert Joined(values) + tail == values[0] + " " + rest;
      ReadBackToken(" ", values[0], rest);
      FirstBadValue(values[1..], tail);
    } else {
      var i :| 0 <= i < |tail| && !IsSpace(tail[i]);
      assert text[1 + |Joined(values)| + i] == tail[i];
      ReadSomeToken(text);
    }
  }

  /** With an offset the announced count is too large: the values written are read back as they are
      exactly when the offset is zero or there is nothing to write, be it that the sum wraps to zero. */
  lemma OffsetBreaksCount(tag: nat, data: seq<string>, offset: nat, num: nat)
    requires tag < WORD && |data| < WORD && offset < WORD && num < WORD
    requires AllTokens(data)
    ensures Decode(tag, Encode(tag, data, offset, num)).values == Written(data, offset, num)
            <==> offset == 0 || data == [] || offset + num == WORD
  {
    var size := EndIndex(data, offset, num);
    var written := Written(data, offset, num);
    var sum := CheckSum(Body(tag, size, written));
    SealedText(tag, size, written, sum);
    ReadHeader(tag, size, Joined(written) + (Digits(sum) + " "));
    WrapsToZeroIff(offset, num);
    if offset == 0 || data == [] || offset + num == WORD {
      assert |written| == size;
      DecodeSealed(tag, written, sum);
    } else {
      assert |written| != size;
    }
  }

  lemma WrapsToZeroIff(offset: nat, num: nat)
    requires offset < WORD && num < WORD
    ensures offset == 0 ==> ToWord(offset + num) == num
    ensures offset > 0 ==> (ToWord(offset + num) == 0 <==> offset + num == WORD)
  {
  }

  // ---------- Lists with empty values ----------

  function Tokens(values: seq<string>): (tokens: seq<string>)
    ensures |tokens| <= |values|
    ensures |tokens| == |values| ==> tokens == values
  {
    if values == [] then []
    else if values[0] == "" then Tokens(values[1..])
    else [values[0]] + Tokens(values[1..])
  }

  function Empties(num: nat): (r: seq<string>)
    ensures |r| == num
    ensures forall k :: 0 <= k < num ==> r[k] == ""
  {
    if num == 0 then [] else [""] + Empties(num - 1)
  }

  /** Once nothing is left, every further value is empty. */
  lemma {:induction false} ReadFailed(ss: Stream, num: nat)
    requires ss.failed
    ensures ReadValues(ss, num) == (ss, Empties(num))
  {
    if num > 0 {
      ReadFailed(ss, num - 1);
    }
  }

  /** A stream whose first value is a token is read like one that starts with it. */
  lemma ReadFirstToken(s: string, token: string, rest: string)
    requires IsToken(token) && SkipSpace(s) == SkipSpace(token + " " + rest)
    ensures ReadToken(Open(s)) == (Open(" " + rest), token)
  {
    ReadTokenSkips(s, token + " " + rest);
    ReadBackToken("", token, rest);
    assert "" + (token + " " + rest) == token + " " + rest;
  }

  lemma JoinedFirst(values: seq<string>, tail: string)
    requires values != []
    ensures Joined(values) + tail == values[0] + " " + (Joined(values[1..]) + tail)
    ensures values[0] == "" ==> SkipSpace(Joined(values) + tail) == SkipSpace(Joined(values[1..]) + tail)
  {
    if values[0] == "" {
      assert (Joined(values) + tail)[1..] == Joined(values[1..]) + tail;
    }
  }

  lemma ReadValuesSkip(a: string, b: string, num: nat)
    requires num > 0 && SkipSpace(a) == SkipSpace(b)
    ensures ReadValues(Open(a), num) == ReadValues(Open(b), num)
  {
    ReadTokenSkips(a, b);
  }

  lemma ReadTokenThen(s: string, token: string, rest: string, num: nat, tokens: seq<string>, end: (Stream, seq<string>))
    requires IsToken(token) && SkipSpace(s) == SkipSpace(token + " " + rest) && num > 0
    requires ReadValues(Open(" " + rest), num - 1) == (end.0, tokens + end.1)
    ensures ReadValues(Open(s), num) == (end.0, ([token] + tokens) + end.1)
  {
    ReadFirstToken(s, token, rest);
    assert [token] + (tokens + end.1) == ([token] + tokens) + end.1;
  }

  lemma SkipBlank(rest: string)
    ensures SkipSpace(" " + rest) == SkipSpace(rest)
  {
    assert (" " + rest)[1..] == rest;
  }

  /** Empty values leave no trace between the tokens: what is read instead of them comes from behind the list. */
  lemma {:induction false} ReadAmongEmpties(s: string, values: seq<string>, tail: string, num: nat)
    requires AllValues(values) && SkipSpace(s) == SkipSpace(Joined(values) + tail)
    requires num > |Tokens(values)|
    ensures var end := ReadValues(Open(tail), num - |Tokens(values)|);
            ReadValues(Open(s), num) == (end.0, Tokens(values) + end.1)
    decreases |values|
  {
    var end := ReadValues(Open(tail), num - |Tokens(values)|);
    if values == [] {
      assert Joined(values) + tail == tail;
      ReadValuesSkip(s, tail, num);
      assert [] + end.1 == end.1;
    } else {
      JoinedFirst(values, tail);
      if values[0] == "" {
        ReadAmongEmpties(s, values[1..], tail, num);
      } else {
        var rest := Joined(values[1..]) + tail;
        SkipBlank(rest);
        ReadAmongEmpties(" " + rest, values[1..], tail, num - 1);
        ReadTokenThen(s, values[0], rest, num, Tokens(values[1..]), end);
      }
    }
  }

  /** The check sum is read as a value, and after it nothing is left. */
  lemma ReadSumAsValue(sum: nat, num: nat)
    requires num > 0
    ensures ReadValues(Open(Digits(sum) + " "), num).1 == [Digits(sum)] + Empties(num - 1)
    ensures ReadNumber(ReadValues(Open(Digits(sum) + " "), num).0) == (Stream("", true), 0)
  {
    var text := Digits(sum) + " ";
    assert Digits(sum) + " " + "" == text && " " + "" == " ";
    ReadFirstToken(text, Digits(sum), "");
    if num > 1 {
      assert ReadToken(Open(" ")) == (Stream("", true), "");
      ReadFailed(Stream("", true), num - 2);
    }
  }

  /** Decoding such a message, from its text. */
  lemma DecodeEmpties(tag: nat, data: seq<string>, sum: nat, tail: string, text: string)
    requires tag < WORD && |data| < WORD
    requires AllValues(data) && |Tokens(data)| < |data|
    requires tail == Joined(data) + (Digits(sum) + " ") && text == Digits(tag) + " " + (Digits(|data|) + " " + tail)
    ensures Decode(tag, text).Status() == 0
    ensures Decode(tag, text).values == Tokens(data) + ([Digits(sum)] + Empties(|data| - |Tokens(data)| - 1))
  {
    ReadHeader(tag, |data|, tail);
    EmptiesThenSum(data, sum, tail);
    var r := ReadValues(Open(" " + tail), |data|);
    DecodeParts(tag, text, Open(" " + (Digits(|data|) + " " + tail)), Open(" " + tail), |data|, r.0, r.1);
  }

  lemma EmptiesThenSum(data: seq<string>, sum: nat, tail: string)
    requires AllValues(data) && |Tokens(data)| < |data|
    requires tail == Joined(data) + (Digits(sum) + " ")
    ensures var r := ReadValues(Open(" " + tail), |data|);
            && r.1 == Tokens(data) + ([Digits(sum)] + Empties(|data| - |Tokens(data)| - 1))
            && ReadNumber(r.0) == (Stream("", true), 0)
  {
    SkipBlank(tail);
    ReadAmongEmpties(" " + tail, data, Digits(sum) + " ", |data|);
    ReadSumAsValue(sum, |data| - |Tokens(data)|);
  }

  /** What a message with empty values turns into: it is accepted, its empty values but one come last, and
      its check sum has become a value. */
  lemma EmptiesBecomeSum(tag: nat, data: seq<string>)
    requires tag < WORD && |data| < WORD
    requires AllValues(data) && !AllTokens(data)
    ensures var d := Decode(tag, EncodeAll(tag, data));
            && |Tokens(data)| < |data|
            && d.Status() == 0
            && d.values == Tokens(data) + ([Digits(CheckSum(Body(tag, |data|, data)))] + Empties(|data| - |Tokens(data)| - 1))
  {
    SomeEmpty(data);
    EncodedText(tag, data);
    var sum := CheckSum(Body(tag, |data|, data));
    DecodeEmpties(tag, data, sum, Joined(data) + (Digits(sum) + " "), EncodeAll(tag, data));
  }

  lemma {:induction false} SomeEmpty(data: seq<string>)
    requires AllValues(data)
    ensures |Tokens(data)| == |data| <==> AllTokens(data)
  {
    if data != [] {
      SomeEmpty(data[1..]);
      assert data == [data[0]] + data[1..];
    }
  }

  /** Among the values read, nothing but empty ones follows an empty one. */
  lemma {:induction false} EmptiesComeLast(ss: Stream, num: nat, k: nat)
    requires k < num && ReadValues(ss, num).1[k] == ""
    ensures ReadValues(ss, num).1[num - 1] == ""
    decreases num
  {
    var next := ReadToken(ss);
    if k > 0 {
      EmptiesComeLast(next.0, num - 1, k - 1);
    } else if num > 1 {
      SkipSpaceYields(ss.rest);
      assert next.0.failed;
      ReadFailed(next.0, num - 1);
    }
  }

  lemma ReadEndsEmpty(ss: Stream, num: nat)
    ensures !AllTokens(ReadValues(ss, num).1) ==> num > 0 && ReadValues(ss, num).1[num - 1] == ""
  {
    var values := ReadValues(ss, num).1;
    ReadsValues(ss, num);
    if !AllTokens(values) {
      var k :| 0 <= k < |values| && !IsToken(values[k]);
      EmptiesComeLast(ss, num, k);
    }
  }
}

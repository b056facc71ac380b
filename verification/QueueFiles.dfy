/** Queue files: one entry per line, a number and a value. */
module QueueFiles {
  import opened Machine
  import opened Text

  datatype Entry = Entry(key: nat, value: string)

  /** One line per entry. */
  function Printed(entries: seq<Entry>): string {
    if entries == [] then "" else PrintedLine(entries[0]) + "\n" + Printed(entries[1..])
  }

  function PrintedLine(e: Entry): string {
    Digits(e.key) + " " + e.value
  }

  /** Length of the first line. */
  function LineLength(text: string): (k: nat)
    ensures k <= |text|
    ensures forall i :: 0 <= i < k ==> text[i] != '\n'
    ensures k < |text| ==> text[k] == '\n'
  {
    if text == "" || text[0] == '\n' then 0 else 1 + LineLength(text[1..])
  }

  /** What `getline` leaves after the first line. */
  function AfterLine(text: string): (rest: string)
    requires text != ""
    ensures |rest| < |text|
  {
    var k := LineLength(text);
    if k < |text| then text[k + 1..] else ""
  }

  function ParsedLine(line: string): Entry {
    var (ss, key) := ReadNumber(Open(line));
    Entry(key, ReadToken(ss).1)
  }

  /** The entries of a file: one for each line. */
  function Parsed(text: string): seq<Entry>
    decreases |text|
  {
    if text == "" then [] else [ParsedLine(text[..LineLength(text)])] + Parsed(AfterLine(text))
  }

  /** The writing loop of `push`. */
  method WriteEntries(input: seq<Entry>) returns (text: string)
    ensures text == Printed(input)
  {
    text := "";
    var k := 0;
    while k < |input|
      invariant 0 <= k <= |input|
      invariant text == Printed(input[..k])
    {
      PrintedNext(input, k);
      text := text + (PrintedLine(input[k]) + "\n");
      k := k + 1;
    }
    assert input[..k] == input;
  }

  /** The reading loop of `pop` and `peek`: entries are added to what the caller has. */
  method ReadEntries(text: string, output: seq<Entry>) returns (output': seq<Entry>)
    ensures output' == output + Parsed(text)
  {
    output' := output;
    var rest := text;
    while rest != ""
      invariant output' + Parsed(rest) == output + Parsed(text)
      decreases |rest|
    {
      var line := rest[..LineLength(rest)];
      assert Parsed(rest) == [ParsedLine(line)] + Parsed(AfterLine(rest));
      assert output' + ([ParsedLine(line)] + Parsed(AfterLine(rest))) == (output' + [ParsedLine(line)]) + Parsed(AfterLine(rest));
      output' := output' + [ParsedLine(line)];
      rest := AfterLine(rest);
    }
    assert output' + Parsed("") == output';
  }

  lemma {:induction false} PrintedAppend(a: seq<Entry>, b: seq<Entry>)
    ensures Printed(a + b) == Printed(a) + Printed(b)
  {
    if a == [] {
      assert a + b == b;
    } else {
      assert (a + b)[1..] == a[1..] + b;
      PrintedAppend(a[1..], b);
      var line := PrintedLine(a[0]) + "\n";
      assert line + (Printed(a[1..]) + Printed(b)) == (line + Printed(a[1..])) + Printed(b);
    }
  }

  lemma PrintedNext(input: seq<Entry>, k: nat)
    requires k < |input|
    ensures Printed(input[..k + 1]) == Printed(input[..k]) + (PrintedLine(input[k]) + "\n")
  {
    assert input[..k + 1] == input[..k] + [input[k]];
    PrintedAppend(input[..k], [input[k]]);
    assert Printed([input[k]]) == PrintedLine(input[k]) + "\n" + Printed([input[k]][1..]);
  }

  /** Values that a line can hold: no white space in them. They may be empty. */
  predicate AllLineValues(entries: seq<Entry>) {
    forall i :: 0 <= i < |entries| ==> IsValue(entries[i].value)
  }

  predicate WordKeys(entries: seq<Entry>) {
    forall i :: 0 <= i < |entries| ==> entries[i].key < WORD
  }

  lemma ReadLastToken(value: string)
    requires IsValue(value)
    ensures ReadToken(Open(" " + value)).1 == value
  {
    SkipPadding(" ", value);
    if value != "" {
      assert SkipSpace(value) == value;
      assert TokenLength(value) == |value|;
    }
  }

  lemma DigitsThenBlank(n: nat, rest: string)
    requires n < WORD
    ensures ReadNumber(Open(Digits(n) + " " + rest)) == (Open(" " + rest), n)
  {
    ReadBackNumber("", n, rest);
    assert "" + (Digits(n) + " " + rest) == Digits(n) + " " + rest;
  }

  lemma ReadBackLine(e: Entry)
    requires IsValue(e.value) && e.key < WORD
    ensures ParsedLine(PrintedLine(e)) == e
  {
    DigitsThenBlank(e.key, e.value);
    ReadLastToken(e.value);
  }

  lemma FirstLine(line: string, rest: string)
    requires forall i :: 0 <= i < |line| ==> line[i] != '\n'
    ensures var text := line + "\n" + rest;
            LineLength(text) == |line| && text[..|line|] == line && AfterLine(text) == rest
  {
    var text := line + "\n" + rest;
    assert text[|line|] == '\n';
    assert forall i :: 0 <= i < |line| ==> text[i] == line[i];
  }

  lemma LineHasNoBreak(e: Entry)
    requires IsValue(e.value)
    ensures forall i :: 0 <= i < |PrintedLine(e)| ==> PrintedLine(e)[i] != '\n'
  {
  }

  lemma ParsedFirst(e: Entry, line: string, rest: string)
    requires ParsedLine(line) == e && forall i :: 0 <= i < |line| ==> line[i] != '\n'
    ensures Parsed(line + "\n" + rest) == [e] + Parsed(rest)
  {
    FirstLine(line, rest);
  }

  lemma {:induction false} ReadBackEntries(entries: seq<Entry>)
    requires AllLineValues(entries) && WordKeys(entries)
    ensures Parsed(Printed(entries)) == entries
  {
    if entries != [] {
      var line, rest := PrintedLine(entries[0]), Printed(entries[1..]);
      LineHasNoBreak(entries[0]);
      ReadBackLine(entries[0]);
      ParsedFirst(entries[0], line, rest);
      ReadBackEntries(entries[1..]);
      assert entries == [entries[0]] + entries[1..];
    }
  }

  lemma {:induction false} ParsedAreLineValues(text: string)
    ensures AllLineValues(Parsed(text))
    decreases |text|
  {
    if text != "" {
      ParsedAreLineValues(AfterLine(text));
    }
  }

  /** What is pushed is popped unchanged, exactly when no value has white space in it. */
  lemma RoundTripIff(entries: seq<Entry>)
    requires WordKeys(entries)
    ensures Parsed(Printed(entries)) == entries <==> AllLineValues(entries)
  {
    if AllLineValues(entries) {
      ReadBackEntries(entries);
    }
    ParsedAreLineValues(Printed(entries));
  }
}

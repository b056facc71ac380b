/** String streams as the messages and queue files use them: numbers are printed in decimal, every item
    is followed by a blank, and reading skips white space first.
 */
module Text {

  import opened Machine

  predicate IsSpace(c: char) {
    c == ' ' || c == '\n' || c == '\t' || c == '\r' || c == 11 as char || c == 12 as char
  }

  predicate IsDigit(c: char) {
    '0' <= c <= '9'
  }

  predicate AllSpace(s: string) {
    forall i :: 0 <= i < |s| ==> IsSpace(s[i])
  }

  /** No white space inside. */
  predicate IsValue(s: string) {
    forall i :: 0 <= i < |s| ==> !IsSpace(s[i])
  }

  predicate AllValues(values: seq<string>) {
    forall i :: 0 <= i < |values| ==> IsValue(values[i])
  }

  /** What one `>>` into a string yields unless nothing is left. */
  predicate IsToken(s: string) {
    s != "" && IsValue(s)
  }

  predicate AllTokens(values: seq<string>) {
    forall i :: 0 <= i < |values| ==> IsToken(values[i])
  }

  predicate AllDigits(s: string) {
    forall i :: 0 <= i < |s| ==> IsDigit(s[i])
  }

  function Digit(d: nat): (c: char)
    requires d < 10
    ensures IsDigit(c)
  {
    ('0' as int + d) as char
  }

  /** A number as `<<` prints it. */
  function Digits(n: nat): (s: string)
    ensures s != "" && AllDigits(s)
  {
    if n < 10 then [Digit(n)] else Digits(n / 10) + [Digit(n % 10)]
  }

  /** The number that a string of digits denotes. */
  function Value(s: string): nat
    requires AllDigits(s)
  {
    if s == "" then 0 else 10 * Value(s[..|s| - 1]) + (s[|s| - 1] as int - '0' as int)
  }

  lemma {:induction false} DigitsValue(n: nat)
    ensures Value(Digits(n)) == n
  {
    var s := Digits(n);
    if n < 10 {
      assert s[..0] == "";
    } else {
      DigitsValue(n / 10);
      assert s[..|s| - 1] == Digits(n / 10);
    }
  }

  lemma DigitsInjective(a: nat, b: nat)
    requires Digits(a) == Digits(b)
    ensures a == b
  {
    DigitsValue(a);
    DigitsValue(b);
  }

  ghost predicate AllTaken(lo: nat, hi: nat, known: set<string>) {
    forall j: nat :: lo <= j < hi ==> Digits(j) in known
  }

  /** So many different numbers cannot all be among fewer keys. */
  lemma {:induction false} Pigeonhole(lo: nat, hi: nat, known: set<string>)
    requires lo <= hi && AllTaken(lo, hi, known)
    ensures hi - lo <= |known|
    decreases hi
  {
    if lo < hi {
      var last := Digits(hi - 1);
      forall j: nat | lo <= j < hi - 1
        ensures Digits(j) in known - {last}
      {
        if Digits(j) == last {
          DigitsInjective(j, hi - 1);
        }
      }
      Pigeonhole(lo, hi - 1, known - {last});
    }
  }

  /** An input stream: the characters left, and the fail bit. */
  datatype Stream = Stream(rest: string, failed: bool)

  function Open(text: string): Stream {
    Stream(text, false)
  }

  function SkipSpace(s: string): string {
    if s != "" && IsSpace(s[0]) then SkipSpace(s[1..]) else s
  }

  /** Length of the longest prefix without white space. */
  function TokenLength(s: string): (k: nat)
    ensures k <= |s|
    ensures forall i :: 0 <= i < k ==> !IsSpace(s[i])
    ensures k < |s| ==> IsSpace(s[k])
  {
    if s == "" || IsSpace(s[0]) then 0 else 1 + TokenLength(s[1..])
  }

  /** Length of the longest prefix of digits. */
  function DigitLength(s: string): (k: nat)
    ensures k <= |s|
    ensures forall i :: 0 <= i < k ==> IsDigit(s[i])
    ensures k < |s| ==> !IsDigit(s[k])
  {
    if s == "" || !IsDigit(s[0]) then 0 else 1 + DigitLength(s[1..])
  }

  /** `ss >> value` into a fresh string: empty if nothing is left. */
  function ReadToken(ss: Stream): (Stream, string) {
    var s := SkipSpace(ss.rest);
    if ss.failed then (ss, "")
    else if s == "" then (Stream("", true), "")
    else (Stream(s[TokenLength(s)..], false), s[..TokenLength(s)])
  }

  predicate IsSign(c: char) {
    c == '+' || c == '-'
  }

  /** `ss >> value` into a `std::size_t`: an optional sign and digits. Zero if there is no digit, the largest
      word if the number is too large; a negative number is taken modulo the word size. */
  function ReadNumber(ss: Stream): (r: (Stream, nat))
    ensures r.1 < WORD
  {
    var s := SkipSpace(ss.rest);
    var t := if s != "" && IsSign(s[0]) then s[1..] else s;
    var k := DigitLength(t);
    if ss.failed then (ss, 0)
    else if k == 0 then (Stream(t, true), 0)
    else if Value(t[..k]) >= WORD then (Stream(t[k..], true), WORD - 1)
    else (Stream(t[k..], false), if s[0] == '-' then ToWord(0 - Value(t[..k])) else Value(t[..k]))
  }

  lemma {:induction false} SkipPadding(pad: string, s: string)
    requires AllSpace(pad)
    ensures SkipSpace(pad + s) == SkipSpace(s)
  {
    if pad == "" {
      assert pad + s == s;
    } else {
      assert (pad + s)[1..] == pad[1..] + s;
      SkipPadding(pad[1..], s);
    }
  }

  lemma {:induction false} SkipSpaceYields(s: string)
    ensures SkipSpace(s) != "" ==> !IsSpace(SkipSpace(s)[0])
    ensures SkipSpace(s) == "" <==> AllSpace(s)
  {
    if s != "" && IsSpace(s[0]) {
      SkipSpaceYields(s[1..]);
      assert s == [s[0]] + s[1..];
    }
  }

  lemma {:induction false} TokenLengthIs(token: string, rest: string)
    requires IsValue(token)
    ensures TokenLength(token + " " + rest) == |token|
  {
    if token == "" {
      assert token + " " + rest == " " + rest;
    } else {
      assert (token + " " + rest)[1..] == token[1..] + " " + rest;
      TokenLengthIs(token[1..], rest);
    }
  }

  /** A token followed by a blank is read back as it is. */
  lemma ReadBackToken(pad: string, token: string, rest: string)
    requires AllSpace(pad) && IsToken(token)
    ensures ReadToken(Open(pad + (token + " " + rest))) == (Open(" " + rest), token)
  {
    var s := token + " " + rest;
    SkipPadding(pad, s);
    TokenLengthIs(token, rest);
    assert s[..|token|] == token && s[|token|..] == " " + rest;
  }

  /** A word printed in decimal and followed by a blank is read back as it is. */
  lemma ReadBackNumber(pad: string, n: nat, rest: string)
    requires AllSpace(pad) && n < WORD
    ensures ReadNumber(Open(pad + (Digits(n) + " " + rest))) == (Open(" " + rest), n)
  {
    var d := Digits(n);
    var s := d + " " + rest;
    SkipPadding(pad, s);
    var k := DigitLength(s);
    assert s[|d|] == ' ';
    assert forall i :: 0 <= i < |d| ==> s[i] == d[i];
    assert IsDigit(s[0]) && k == |d|;
    assert s[..k] == d && s[k..] == " " + rest;
    DigitsValue(n);
  }

  /** Whatever text is left, if it is not all white space the next string read is a token. */
  lemma ReadSomeToken(text: string)
    requires !AllSpace(text)
    ensures IsToken(ReadToken(Open(text)).1)
  {
    SkipSpaceYields(text);
  }

  /** Only white space is left: nothing more can be read. */
  lemma ReadNothing(text: string)
    requires AllSpace(text)
    ensures ReadToken(Open(text)).1 == ""
  {
    SkipSpaceYields(text);
  }

  /** Reading a string depends on what follows the white space only. */
  lemma ReadTokenSkips(a: string, b: string)
    requires SkipSpace(a) == SkipSpace(b)
    ensures ReadToken(Open(a)) == ReadToken(Open(b))
  {
  }

  lemma {:induction false} SkipSkipped(s: string)
    ensures SkipSpace(SkipSpace(s)) == SkipSpace(s)
  {
    if s != "" && IsSpace(s[0]) {
      SkipSkipped(s[1..]);
    }
  }

  /** The sum of all characters plus one each, as a 64-bit word. */
  function CheckSum(text: string): (sum: nat)
    ensures sum < WORD
  {
    if text == "" then 0
    else ToWord(CheckSum(text[..|text| - 1]) + SignedChar(text[|text| - 1]) + 1)
  }

  lemma ToWordAdds(x: int, y: int, z: int)
    ensures ToWord(ToWord(x + y) + z) == ToWord(x + ToWord(y + z)) == ToWord(x + y + z)
  {
  }

  lemma CheckSumLast(s: string, c: char)
    ensures CheckSum(s + [c]) == ToWord(CheckSum(s) + (SignedChar(c) + 1))
  {
    assert (s + [c])[..|s + [c]| - 1] == s;
  }

  lemma {:induction false} CheckSumAppend(a: string, b: string)
    ensures CheckSum(a + b) == ToWord(CheckSum(a) + CheckSum(b))
  {
    if b == "" {
      assert a + b == a;
    } else {
      var b', c := b[..|b| - 1], b[|b| - 1];
      CheckSumAppend(a, b');
      CheckSumOneMore(a, b', c);
      assert a + b == (a + b') + [c] && b == b' + [c];
    }
  }

  lemma CheckSumOneMore(a: string, b: string, c: char)
    requires CheckSum(a + b) == ToWord(CheckSum(a) + CheckSum(b))
    ensures CheckSum((a + b) + [c]) == ToWord(CheckSum(a) + CheckSum(b + [c]))
  {
    CheckSumLast(a + b, c);
    CheckSumLast(b, c);
    ToWordAdds(CheckSum(a), CheckSum(b), SignedChar(c) + 1);
  }

  lemma ToWordSmall(x: nat)
    requires x < WORD
    ensures ToWord(x) == x
  {
  }

  lemma SumOfTwo(a: string, b: string, x: int, y: int)
    requires CheckSum(a) == ToWord(x) && CheckSum(b) == ToWord(y)
    ensures CheckSum(a + b) == ToWord(x + y)
  {
    CheckSumAppend(a, b);
    ToWordAdds(0, x, ToWord(y));
    ToWordAdds(x, y, 0);
  }

  function Repeat(c: char, m: nat): (s: string)
    ensures |s| == m && forall k :: 0 <= k < m ==> s[k] == c
  {
    seq(m, _ => c)
  }

  lemma ToWordTimes(m: int, v: int)
    ensures ToWord(ToWord((m - 1) * v) + v) == ToWord(m * v)
  {
    var before := (m - 1) * v;
    assert m * v == before + v;
    ToWordAdds(before, 0, v);
  }

  lemma {:induction false} CheckSumRepeat(c: char, m: nat)
    ensures CheckSum(Repeat(c, m)) == ToWord(m * (SignedChar(c) + 1))
  {
    var v := SignedChar(c) + 1;
    if m > 0 {
      CheckSumRepeat(c, m - 1);
      CheckSumLast(Repeat(c, m - 1), c);
      assert Repeat(c, m) == Repeat(c, m - 1) + [c];
      ToWordTimes(m, v);
    }
  }

  /** The numbers from `base` on, in the arithmetic of words. */
  function WordAfter(base: nat, k: nat): string {
    Digits(ToWord(base + k))
  }

  /** So many numbers in a row cannot all be among fewer strings. */
  lemma {:induction false} WordsInARow(base: nat, count: nat, known: set<string>)
    requires count <= WORD && forall k: nat :: k < count ==> WordAfter(base, k) in known
    ensures count <= |known|
    decreases count
  {
    if count > 0 {
      var last := WordAfter(base, count - 1);
      forall k: nat | k < count - 1
        ensures WordAfter(base, k) in known - {last}
      {
        if WordAfter(base, k) == last {
          DigitsInjective(ToWord(base + k), ToWord(base + (count - 1)));
        }
      }
      WordsInARow(base, count - 1, known - {last});
    }
  }

  /** One of the next numbers is not among the strings. */
  lemma FreeWord(base: nat, known: set<string>) returns (k: nat)
    requires |known| < WORD
    ensures k <= |known| && WordAfter(base, k) !in known
  {
    if forall k: nat :: k < |known| + 1 ==> WordAfter(base, k) in known {
      WordsInARow(base, |known| + 1, known);
    }
    k :| k < |known| + 1 && WordAfter(base, k) !in known;
  }

  // ---------- How long texts are ----------

  function Pow10(k: nat): (r: nat)
    ensures r > 0
  {
    if k == 0 then 1 else 10 * Pow10(k - 1)
  }

  lemma {:induction false} Pow10Adds(a: nat, b: nat)
    ensures Pow10(a + b) == Pow10(a) * Pow10(b)
  {
    if a > 0 {
      Pow10Adds(a - 1, b);
    }
  }

  lemma {:induction false} DigitsLength(n: nat, k: nat)
    requires k > 0 && n < Pow10(k)
    ensures |Digits(n)| <= k
  {
    if n >= 10 {
      DigitsLength(n / 10, k - 1);
    }
  }

  lemma WordLength(n: nat)
    requires n < WORD
    ensures 1 <= |Digits(n)| <= 20
  {
    assert Pow10(2) == 100;
    assert Pow10(3) == 1000;
    Pow10Adds(2, 3);
    Pow10Adds(5, 5);
    Pow10Adds(10, 10);
    DigitsLength(n, 20);
  }
}

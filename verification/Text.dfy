/** Text streams with whole numbers: what is left to read, and the formatted extraction of one number. */
module Text {
  import opened Wrappers

  predicate IsDigit(c: char) { '0' <= c <= '9' }

  predicate IsSpace(c: char) { c == ' ' || c == '\t' || c == '\n' || c == '\U{0B}' || c == '\U{0C}' || c == '\r' }

  // ----- texts by their characters -----

  predicate AllSpace(s: string) {
    forall i | 0 <= i < |s| ::
      s[i] == ' ' || s[i] == '\t' || s[i] == '\n' || s[i] == '\U{0B}' || s[i] == '\U{0C}' || s[i] == '\r'
  }

  predicate AllDigits(s: string) { forall i | 0 <= i < |s| :: '0' <= s[i] <= '9' }

  predicate NoDigitNext(rest: string) { rest == "" || rest[0] < '0' || rest[0] > '9' }

  /** The text starts with no space, no sign and no digit. */
  predicate StartsOther(text: string) {
    text != "" && NoDigitNext(text) && text[0] != '+' && text[0] != '-' && text[0] !in " \t\n\U{0B}\U{0C}\r"
  }

  // ----- numerals -----

  function DigitOf(d: nat): (c: char)
    requires d < 10
    ensures IsDigit(c) && (c as int - '0' as int) == d
  {
    ('0' as int + d) as char
  }

  /** The value of a string of digits. */
  function Magnitude(s: string): (n: int)
    requires AllDigits(s)
    ensures n >= 0
  {
    if s == [] then 0 else Magnitude(s[..|s| - 1]) * 10 + (s[|s| - 1] as int - '0' as int)
  }

  /** The digits of a number, without leading zeros. */
  function Digits(n: nat): (s: string)
    ensures s != [] && AllDigits(s)
    ensures n >= 10 ==> s[0] != '0'
    ensures Magnitude(s) == n
  {
    if n < 10 then
      assert [DigitOf(n)][..0] == [];
      [DigitOf(n)]
    else
      var front := Digits(n / 10);
      assert (front + [DigitOf(n % 10)])[..|front|] == front;
      front + [DigitOf(n % 10)]
  }

  /** How a number is printed. */
  function Print(v: int): (s: string)
    ensures s != []
  {
    if v < 0 then "-" + Digits(-v) else Digits(v)
  }

  predicate IsSign(c: char) { c == '-' || c == '+' }

  /** An optional sign and at least one digit. */
  predicate IsNumeral(s: string) {
    if s != [] && (s[0] == '-' || s[0] == '+') then |s| > 1 && AllDigits(s[1..]) else s != [] && AllDigits(s)
  }

  function Meaning(s: string): int
    requires IsNumeral(s)
  {
    if s[0] == '-' then -Magnitude(s[1..])
    else if s[0] == '+' then Magnitude(s[1..])
    else Magnitude(s)
  }

  /** What is printed is a numeral with the printed value. */
  lemma PrintedNumeral(v: int)
    ensures IsNumeral(Print(v)) && Meaning(Print(v)) == v
  {
    if v < 0 { assert Print(v)[1..] == Digits(-v); }
  }

  /** A minus sign stands before negative numbers only, never a plus, and a leading zero is the number zero. */
  lemma PrintedForm(v: int)
    ensures v < 0 ==> Print(v)[0] == '-' && Print(v)[1..] == Print(-v)
    ensures v >= 0 ==> AllDigits(Print(v)) && (Print(v)[0] == '0' ==> Print(v) == "0")
  {
    if v == 0 { assert Digits(0) == "0"; }
    if 0 < v < 10 { assert Digits(v)[0] == DigitOf(v); }
  }

  // ----- streams -----

  /** What is left of an input stream, and its state bits. */
  datatype Stream = Stream(rest: string, eof: bool, fail: bool) {
    predicate Good() { !eof && !fail }
  }

  /** `peek`: none is the end-of-file mark. */
  function Peek(s: Stream): (r: (Option<char>, Stream))
    ensures r.1.rest == s.rest
  {
    if !s.Good() then (None, s.(fail := true))
    else if s.rest == [] then (None, s.(eof := true))
    else (Some(s.rest[0]), s)
  }

  /** `ignore`: drops one character. */
  function Ignore(s: Stream): Stream {
    if !s.Good() then s.(fail := true)
    else if s.rest == [] then s.(eof := true)
    else s.(rest := s.rest[1..])
  }

  function SkipSpace(text: string): (r: string)
    ensures |r| <= |text| && (r != [] ==> !IsSpace(r[0]))
  {
    if text != [] && IsSpace(text[0]) then SkipSpace(text[1..]) else text
  }

  /** The number of digits the text starts with. */
  function DigitCount(text: string): (n: nat)
    ensures n <= |text| && AllDigits(text[..n]) && (n < |text| ==> !IsDigit(text[n]))
  {
    if text != [] && IsDigit(text[0]) then
      var n := DigitCount(text[1..]);
      assert text[..n + 1] == [text[0]] + text[1..][..n];
      n + 1
    else 0
  }

  /** The values a type can hold. */
  datatype Limits = Limits(lo: int, hi: int) {
    predicate Has(v: int) { lo <= v <= hi }
  }

  /** Where an optional sign and the digits after it end. */
  function ScanEnd(text: string): (end: nat)
    ensures end <= |text|
  {
    var signs := if text != [] && IsSign(text[0]) then 1 else 0;
    signs + DigitCount(text[signs..])
  }

  /** The value of an optional sign and the digits after it; none without digits. */
  function ScanValue(text: string): (v: Option<int>)
    ensures v.Some? ==> text != []
  {
    var signs, end := if text != [] && IsSign(text[0]) then 1 else 0, ScanEnd(text);
    if end == signs then None
    else
      assert text[signs..][..end - signs] == text[signs..end];
      var magnitude := Magnitude(text[signs..end]);
      Some(if text[0] == '-' then -magnitude else magnitude)
  }

  /** `>>` into a whole number: space is skipped, then an optional sign and as many digits as there are. It fails
      without digits and on a value that does not fit. */
  function Extract(limits: Limits, s: Stream): (r: (Option<int>, Stream))
    ensures |r.1.rest| <= |s.rest| && (r.0.None? <==> r.1.fail)
  {
    if !s.Good() then (None, s.(fail := true))
    else
      var text := SkipSpace(s.rest);
      var v, after := ScanValue(text), Stream(text[ScanEnd(text)..], ScanEnd(text) == |text|, false);
      if v.Some? && limits.Has(v.value) then (v, after) else (None, after.(fail := true))
  }

  /** What `>>` stores (C++11): nothing if there is no character left to read, zero without digits, and the
      nearest value the type can hold for one that does not fit. */
  function Stored(limits: Limits, s: Stream): (r: Option<int>)
    ensures Extract(limits, s).0.Some? ==> r == Extract(limits, s).0
    ensures r.None? <==> !s.Good() || SkipSpace(s.rest) == []
  {
    if !s.Good() || SkipSpace(s.rest) == [] then None
    else
      match ScanValue(SkipSpace(s.rest))
      case None => Some(0)
      case Some(v) => Some(if v < limits.lo then limits.lo else if v > limits.hi then limits.hi else v)
  }

  lemma {:induction false} DigitCountIs(digits: string, rest: string)
    requires AllDigits(digits) && (rest != [] ==> !IsDigit(rest[0]))
    ensures DigitCount(digits + rest) == |digits|
  {
    if digits == [] {
      assert digits + rest == rest;
    } else {
      assert (digits + rest)[1..] == digits[1..] + rest;
      DigitCountIs(digits[1..], rest);
    }
  }

  lemma {:induction false} SpaceSkipped(space: string, text: string)
    requires AllSpace(space)
    ensures SkipSpace(space + text) == SkipSpace(text)
  {
    if space == [] {
      assert space + text == text;
    } else {
      assert (space + text)[1..] == space[1..] + text;
      SpaceSkipped(space[1..], text);
    }
  }

  lemma NoSpace(text: string)
    requires text != [] ==> !IsSpace(text[0])
    ensures SkipSpace(text) == text
  {
  }

  lemma NumeralScanned(numeral: string, rest: string)
    requires IsNumeral(numeral) && NoDigitNext(rest)
    ensures ScanEnd(numeral + rest) == |numeral| && ScanValue(numeral + rest) == Some(Meaning(numeral))
    ensures !IsSpace((numeral + rest)[0])
  {
    var text, signs := numeral + rest, if IsSign(numeral[0]) then 1 else 0;
    assert text[signs..] == numeral[signs..] + rest;
    DigitCountIs(numeral[signs..], rest);
    assert text[signs..|numeral|] == numeral[signs..];
  }

  /** A numeral whose value fits, up to a character that is no digit, is read as that value. */
  lemma NumeralRead(limits: Limits, space: string, numeral: string, rest: string)
    requires AllSpace(space)
    requires IsNumeral(numeral) && limits.Has(Meaning(numeral)) && NoDigitNext(rest)
    ensures Extract(limits, Stream(space + numeral + rest, false, false))
         == (Some(Meaning(numeral)), Stream(rest, rest == [], false))
  {
    hide ScanEnd, ScanValue, SkipSpace, IsNumeral, Meaning;
    var text := numeral + rest;
    assert space + numeral + rest == space + text;
    NumeralScanned(numeral, rest);
    SpaceSkipped(space, text);
    NoSpace(text);
    assert text[|numeral|..] == rest;
  }

  /** A value that does not fit is taken off the text too; the extraction fails and stores the nearest one. */
  lemma OutOfRangeRead(limits: Limits, space: string, numeral: string, rest: string)
    requires AllSpace(space) && IsNumeral(numeral) && NoDigitNext(rest)
    requires Meaning(numeral) < limits.lo <= limits.hi || limits.lo <= limits.hi < Meaning(numeral)
    ensures var s := Stream(space + numeral + rest, false, false);
      && Extract(limits, s) == (None, Stream(rest, rest == [], true))
      && Stored(limits, s) == Some(if Meaning(numeral) < limits.lo then limits.lo else limits.hi)
  {
    hide ScanEnd, ScanValue, SkipSpace, IsNumeral, Meaning;
    var text := numeral + rest;
    assert space + numeral + rest == space + text;
    NumeralScanned(numeral, rest);
    SpaceSkipped(space, text);
    NoSpace(text);
    assert text[|numeral|..] == rest;
  }

  /** Without digits the extraction fails behind the space and the sign, if there is one, and stores zero. */
  lemma NoDigitsRead(limits: Limits, space: string, sign: string, rest: string)
    requires AllSpace(space) && (sign == "-" || sign == "+" || (sign == "" && StartsOther(rest))) && NoDigitNext(rest)
    ensures var s := Stream(space + sign + rest, false, false);
      Extract(limits, s) == (None, Stream(rest, rest == [], true)) && Stored(limits, s) == Some(0)
  {
    hide ScanEnd, ScanValue, SkipSpace, StartsOther;
    var text := sign + rest;
    assert space + sign + rest == space + text;
    SignScanned(sign, rest);
    SpaceSkipped(space, text);
    NoSpace(text);
    assert text[|sign|..] == rest;
  }

  lemma SignScanned(sign: string, rest: string)
    requires (sign == "-" || sign == "+" || (sign == "" && StartsOther(rest))) && NoDigitNext(rest)
    ensures ScanEnd(sign + rest) == |sign| && ScanValue(sign + rest) == None
    ensures sign + rest != "" && !IsSpace((sign + rest)[0])
  {
    var text := sign + rest;
    assert text[|sign|..] == rest && DigitCount(rest) == 0;
    assert text[0] == if sign == "" then rest[0] else sign[0];
  }

  /** With nothing but space left the extraction fails at the end of the input and stores nothing. */
  lemma NothingRead(limits: Limits, space: string)
    requires AllSpace(space)
    ensures var s := Stream(space, false, false);
      Extract(limits, s) == (None, Stream("", true, true)) && Stored(limits, s) == None
  {
    assert space + "" == space;
    SpaceSkipped(space, "");
    assert DigitCount("") == 0;
  }
}

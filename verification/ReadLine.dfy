/** Reading a line of numbers separated by spaces, tabs or commas. */
module ReadLine {
  import opened Text
  import opened Wrappers

  /** A stream and the character that `peek` last returned. */
  datatype Cursor = Cursor(c: Option<char>, s: Stream) {
    /** The character is still the next one; at the end of the stream a state bit is set. */
    predicate Valid() {
      if c.Some? then s.Good() && s.rest != "" && s.rest[0] == c.value else !s.Good()
    }
  }

  function Look(s: Stream): (p: Cursor)
    ensures p.Valid() && p.s.rest == s.rest && (p.c.None? ==> s.rest == "" || !s.Good())
  {
    Cursor(Peek(s).0, Peek(s).1)
  }

  function Next(p: Cursor): (q: Cursor)
    requires p.Valid()
    ensures q.Valid() && |q.s.rest| <= |p.s.rest| && (p.c.Some? ==> q.s.rest == p.s.rest[1..])
    ensures p.c.None? ==> q.s.fail
  {
    Look(Ignore(p.s))
  }

  predicate IsBlank(c: char) { c == ' ' || c == '\t' }

  predicate IsBreak(c: char) { c == '\n' || c == '\r' }

  // ----- what a call reads -----

  function SkipBlanks(p: Cursor): (q: Cursor)
    requires p.Valid()
    ensures q.Valid() && |q.s.rest| <= |p.s.rest| && (q.c.Some? ==> !IsBlank(q.c.value))
    decreases |p.s.rest|
  {
    if p.c.Some? && IsBlank(p.c.value) then SkipBlanks(Next(p)) else p
  }

  function SkipComma(p: Cursor): (q: Cursor)
    requires p.Valid()
    ensures q.Valid() && |q.s.rest| <= |p.s.rest|
  {
    if p.c == Some(',') then Next(p) else p
  }

  /** The characters before the end of the line. */
  function SkipLine(p: Cursor): (q: Cursor)
    requires p.Valid()
    ensures q.Valid() && (q.c.Some? ==> IsBreak(q.c.value)) && (q.c.None? ==> q.s.fail)
    decreases |p.s.rest|, if p.s.fail then 0 else 1
  {
    if !p.s.fail && !(p.c.Some? && IsBreak(p.c.value)) then SkipLine(Next(p)) else p
  }

  /** The end of line that comes next, if any: LF, CR or CR LF. */
  function SkipBreak(p: Cursor): Stream
    requires p.Valid()
  {
    if p.c == Some('\n') then Ignore(p.s)
    else if p.c == Some('\r') then
      var q := Next(p);
      if q.c == Some('\n') then Ignore(q.s) else q.s
    else p.s
  }

  function Finish(p: Cursor, toEndLine: bool): Stream
    requires p.Valid()
  {
    if toEndLine then SkipBreak(SkipLine(p)) else p.s
  }

  /** The numbers of a call, what an extraction that failed has stored after them, and the stream that is left. */
  datatype Reading = Reading(numbers: seq<int>, spare: Option<int>, after: Stream) {
    predicate FitsIn(n: nat) { |numbers| + (if spare.Some? then 1 else 0) <= n }

    /** An array that the call has written to. */
    function Into(before: seq<int>): seq<int>
      requires FitsIn(|before|)
    {
      if spare.Some? then numbers + [spare.value] + before[|numbers| + 1..] else numbers + before[|numbers|..]
    }
  }

  /** What follows the number that comes next, past its separator. */
  function AfterNumber(limits: Limits, s: Stream): (r: Cursor)
    ensures r.Valid()
  {
    SkipComma(SkipBlanks(Look(Extract(limits, s).1)))
  }

  /** Where the call comes to its end: at a comment or at the end of the line. */
  predicate Ends(q: Cursor, toEndLine: bool) {
    q.c == Some('#') || (toEndLine && q.c.Some? && IsBreak(q.c.value))
  }

  /** Up to `left` more numbers after those already read. */
  function Numbers(limits: Limits, p: Cursor, left: nat, toEndLine: bool, got: seq<int>): (r: Reading)
    requires p.Valid()
    ensures r.FitsIn(|got| + left)
    decreases left
  {
    if left == 0 then Reading(got, None, Finish(p, toEndLine))
    else
      var q := SkipBlanks(p);
      if Ends(q, toEndLine) then Reading(got, None, if q.c == Some('#') then Finish(q, toEndLine) else SkipBreak(q))
      else
        var v := Extract(limits, q.s).0;
        if v.None? then Reading(got, Stored(limits, q.s), Extract(limits, q.s).1)
        else Numbers(limits, AfterNumber(limits, q.s), left - 1, toEndLine, got + [v.value])
  }

  function Line(limits: Limits, s: Stream, maxSize: nat, toEndLine: bool): (r: Reading)
    ensures r.FitsIn(maxSize)
  {
    Numbers(limits, Look(s), maxSize, toEndLine, [])
  }

  lemma OneMore(limits: Limits, p: Cursor, left: nat, toEndLine: bool, got: seq<int>)
    requires p.Valid() && left > 0 && !Ends(SkipBlanks(p), toEndLine) && Extract(limits, SkipBlanks(p).s).0.Some?
    ensures Numbers(limits, p, left, toEndLine, got)
         == Numbers(limits, AfterNumber(limits, SkipBlanks(p).s), left - 1, toEndLine,
                    got + [Extract(limits, SkipBlanks(p).s).0.value])
  {
  }

  lemma Begins(limits: Limits, s: Stream, maxSize: nat, toEndLine: bool, before: seq<int>)
    ensures Line(limits, s, maxSize, toEndLine) == Numbers(limits, Cursor(Peek(s).0, Peek(s).1), maxSize, toEndLine, [])
    ensures Cursor(Peek(s).0, Peek(s).1).Valid() && Holds(before, [], before)
  {
  }

  /** Without room for more, or at a comment. */
  lemma NoMore(limits: Limits, p: Cursor, left: nat, toEndLine: bool, got: seq<int>)
    requires p.Valid() && (left == 0 || SkipBlanks(p).c == Some('#'))
    ensures var q := if left == 0 then p else SkipBlanks(p);
      Numbers(limits, p, left, toEndLine, got) == Reading(got, None, if toEndLine then Finish(q, true) else q.s)
  {
  }

  lemma LineEnds(limits: Limits, p: Cursor, left: nat, got: seq<int>)
    requires p.Valid() && left > 0 && SkipBlanks(p).c.Some? && IsBreak(SkipBlanks(p).c.value)
    ensures Numbers(limits, p, left, true, got) == Reading(got, None, SkipBreak(SkipBlanks(p)))
  {
  }

  lemma NotANumber(limits: Limits, p: Cursor, left: nat, toEndLine: bool, got: seq<int>)
    requires p.Valid() && left > 0 && !Ends(SkipBlanks(p), toEndLine) && Extract(limits, SkipBlanks(p).s).0.None?
    ensures Numbers(limits, p, left, toEndLine, got)
         == Reading(got, Stored(limits, SkipBlanks(p).s), Extract(limits, SkipBlanks(p).s).1)
  {
  }

  function Put(values: seq<int>, i: nat, v: Option<int>): (r: seq<int>)
    requires i < |values|
    ensures |r| == |values|
  {
    if v.Some? then values[i := v.value] else values
  }

  /** The numbers got so far have been written over the first ones. */
  ghost predicate Holds(values: seq<int>, got: seq<int>, before: seq<int>) {
    |got| <= |before| && values == got + before[|got|..]
  }

  lemma HoldsAll(values: seq<int>, got: seq<int>, before: seq<int>, after: Stream)
    requires Holds(values, got, before)
    ensures |got| <= |before| && values == Reading(got, None, after).Into(before)
  {
  }

  lemma OneWritten(values: seq<int>, got: seq<int>, before: seq<int>, v: Option<int>, after: Stream)
    requires Holds(values, got, before) && |got| < |values|
    ensures |got| < |before| && Put(values, |got|, v) == Reading(got, v, after).Into(before)
    ensures v.Some? ==> Holds(Put(values, |got|, v), got + [v.value], before)
  {
  }

  class LineReader {
    var stream: Stream

    method ReadLine(limits: Limits, values: array<int>, maxSize: nat, readToEndLine: bool) returns (i: nat)
      requires maxSize <= values.Length
      modifies this, values
      ensures var all := Line(limits, old(stream), maxSize, readToEndLine);
        i == |all.numbers| && stream == all.after && values[..] == all.Into(old(values[..]))
    {
      hide Holds, SkipBlanks, SkipLine, Extract, Stored, Finish, SkipBreak, Numbers, Line, AfterNumber, Put, Reading.Into;
      ghost var before, got, all := values[..], [], Line(limits, stream, maxSize, readToEndLine);
      i := 0;
      var c;
      c, stream := Peek(stream).0, Peek(stream).1;
      Begins(limits, old(stream), maxSize, readToEndLine, before);
      while i < maxSize
        invariant i <= maxSize && Cursor(c, stream).Valid()
        invariant |got| == i && Holds(values[..], got, before)
        invariant Numbers(limits, Cursor(c, stream), maxSize - i, readToEndLine, got) == all
        decreases maxSize - i
      {
        ghost var p, left := Cursor(c, stream), maxSize - i;
        c := SkipSpaces(c);
        if c == Some('#') {
          NoMore(limits, p, left, readToEndLine, got);
          break;
        }
        if readToEndLine && (c == Some('\n') || c == Some('\r')) {
          LineEnds(limits, p, left, got);
          EndLine(c);
          HoldsAll(values[..], got, before, stream);
          return i;
        }
        ghost var v := Stored(limits, stream);
        OneWritten(values[..], got, before, v, Extract(limits, stream).1);
        var ok;
        ok, c := ReadNumber(limits, values, i);
        if !ok {
          NotANumber(limits, p, left, readToEndLine, got);
          return i;
        }
        OneMore(limits, p, left, readToEndLine, got);
        got := got + [v.value];
        i := i + 1;
      }
      if i == maxSize { NoMore(limits, Cursor(c, stream), 0, readToEndLine, got); }
      if readToEndLine { SkipRest(c); }
      HoldsAll(values[..], got, before, stream);
    }

    /** One number, and what separates it from the next: spaces, tabs and a single comma. */
    method ReadNumber(limits: Limits, values: array<int>, i: nat) returns (ok: bool, c: Option<char>)
      requires i < values.Length
      modifies this, values
      ensures values[..] == Put(old(values[..]), i, Stored(limits, old(stream)))
      ensures ok == Extract(limits, old(stream)).0.Some?
      ensures if ok then Cursor(c, stream) == AfterNumber(limits, old(stream)) else stream == Extract(limits, old(stream)).1
    {
      var v;
      v, stream := Stored(limits, stream), Extract(limits, stream).1;
      if v.Some? { values[i] := v.value; }
      ok, c := !stream.fail, None;
      if ok {
        c, stream := Peek(stream).0, Peek(stream).1;
        c := SkipSpaces(c);
        if c == Some(',') {
          stream := Ignore(stream);
          c, stream := Peek(stream).0, Peek(stream).1;
        }
      }
    }

    /** The loop over what the line still holds, and the end of the line. */
    method SkipRest(c: Option<char>)
      requires Cursor(c, stream).Valid()
      modifies this
      ensures stream == Finish(Cursor(c, old(stream)), true)
    {
      var c' := c;
      while !stream.fail && c' != Some('\n') && c' != Some('\r')
        invariant Cursor(c', stream).Valid()
        invariant Finish(Cursor(c', stream), true) == Finish(Cursor(c, old(stream)), true)
        decreases |stream.rest|, if stream.fail then 0 else 1
      {
        stream := Ignore(stream);
        c', stream := Peek(stream).0, Peek(stream).1;
      }
      EndLine(c');
    }

    /** Takes an LF, a CR or a CR LF, if there is one. */
    method EndLine(c: Option<char>)
      requires Cursor(c, stream).Valid()
      modifies this
      ensures stream == SkipBreak(Cursor(c, old(stream)))
    {
      if c == Some('\n') {
        stream := Ignore(stream);
      } else if c == Some('\r') {
        stream := Ignore(stream);
        var c';
        c', stream := Peek(stream).0, Peek(stream).1;
        if c' == Some('\n') { stream := Ignore(stream); }
      }
    }

    /** The loop over spaces and tabs. */
    method SkipSpaces(c: Option<char>) returns (c': Option<char>)
      requires Cursor(c, stream).Valid()
      modifies this
      ensures Cursor(c', stream) == SkipBlanks(Cursor(c, old(stream)))
    {
      c' := c;
      while c' == Some(' ') || c' == Some('\t')
        invariant Cursor(c', stream).Valid() && SkipBlanks(Cursor(c', stream)) == SkipBlanks(Cursor(c, old(stream)))
        decreases |stream.rest|
      {
        stream := Ignore(stream);
        c', stream := Peek(stream).0, Peek(stream).1;
      }
    }
  }

  // ----- well-formed lines -----

  /** A number with the blanks around it and the comma after it. */
  datatype Item = Item(before: string, numeral: string, after: string, comma: bool)

  /** `eol` is LF, CR, CR LF or, at the end of the input, nothing. */
  datatype TextLine = TextLine(items: seq<Item>, pad: string, comment: Option<string>, eol: string)

  /** Spaces and tabs. */
  predicate AllBlank(s: string) { forall i | 0 <= i < |s| :: s[i] == ' ' || s[i] == '\t' }

  /** No line feed and no carriage return. */
  predicate Unbroken(s: string) { forall i | 0 <= i < |s| :: s[i] != '\n' && s[i] != '\r' }

  predicate ItemOk(limits: Limits, item: Item) {
    AllBlank(item.before) && AllBlank(item.after) && IsNumeral(item.numeral) && limits.Has(Meaning(item.numeral))
  }

  /** Between two numbers there is a blank or a comma. */
  predicate ItemsOk(limits: Limits, items: seq<Item>) {
    && (forall i | 0 <= i < |items| :: ItemOk(limits, items[i]))
    && (forall i | 1 <= i < |items| :: items[i - 1].after != "" || items[i - 1].comma || items[i].before != "")
  }

  /** The end of a line is what it claims to be, given the text after the line. */
  predicate EolOk(eol: string, rest: string) {
    || eol == "\n" || eol == "\r\n"
    || (eol == "\r" && (rest != "" ==> rest[0] != '\n'))
    || (eol == "" && rest == "")
  }

  predicate LineOk(limits: Limits, line: TextLine, rest: string) {
    && ItemsOk(limits, line.items) && AllBlank(line.pad) && EolOk(line.eol, rest)
    && (line.comment.Some? ==> Unbroken(line.comment.value))
  }

  function ItemText(item: Item): string {
    item.before + item.numeral + item.after + if item.comma then "," else ""
  }

  function ItemsText(items: seq<Item>): string {
    if items == [] then "" else ItemText(items[0]) + ItemsText(items[1..])
  }

  function CommentText(comment: Option<string>): string {
    if comment.Some? then "#" + comment.value else ""
  }

  function LineText(line: TextLine): string {
    ItemsText(line.items) + (line.pad + CommentText(line.comment) + line.eol)
  }

  function Values(items: seq<Item>): (v: seq<int>)
    requires forall i | 0 <= i < |items| :: IsNumeral(items[i].numeral)
    ensures |v| == |items|
  {
    seq(|items|, i requires 0 <= i < |items| => Meaning(items[i].numeral))
  }

  /** The stream at the start of the next line. Only a search for a missing end of line makes it fail. */
  function AfterLine(eol: string, rest: string): Stream {
    Stream(rest, eol == "" || (eol == "\r" && rest == ""), eol == "")
  }

  function Open(text: string): Cursor { Look(Stream(text, false, false)) }

  // ----- reading them -----

  lemma {:induction false} BlanksSkipped(blanks: string, rest: string)
    requires AllBlank(blanks)
    ensures SkipBlanks(Open(blanks + rest)) == SkipBlanks(Open(rest))
  {
    if blanks == "" {
      assert blanks + rest == rest;
    } else {
      assert (blanks + rest)[1..] == blanks[1..] + rest;
      BlanksSkipped(blanks[1..], rest);
    }
  }

  lemma {:induction false} LineSkipped(text: string, eol: string, rest: string)
    requires Unbroken(text) && EolOk(eol, rest)
    ensures Finish(Open(text + (eol + rest)), true) == AfterLine(eol, rest)
  {
    if text == "" {
      assert text + (eol + rest) == eol + rest;
      BreakTaken(eol, rest);
    } else {
      assert (text + (eol + rest))[1..] == text[1..] + (eol + rest);
      LineSkipped(text[1..], eol, rest);
    }
  }

  lemma BreakTaken(eol: string, rest: string)
    requires EolOk(eol, rest)
    ensures Finish(Open(eol + rest), true) == AfterLine(eol, rest)
    ensures eol != "" ==> SkipBreak(Open(eol + rest)) == AfterLine(eol, rest)
  {
    if eol == "" {
      assert eol + rest == "";
      var end := Next(Open(""));
      assert end == Cursor(None, Stream("", true, true)) && SkipLine(end) == end;
    } else {
      assert (eol + rest)[1..] == eol[1..] + rest;
      if eol == "\r\n" { assert (eol + rest)[1..][1..] == rest; }
    }
  }

  lemma {:induction false} FinishSkips(p: Cursor)
    requires p.Valid()
    ensures Finish(SkipBlanks(p), true) == Finish(p, true)
    decreases |p.s.rest|
  {
    if p.c.Some? && IsBlank(p.c.value) { FinishSkips(Next(p)); }
  }

  /** Blanks before a number, or before whatever else, make no difference. */
  lemma NumbersSkip(limits: Limits, p: Cursor, left: nat, got: seq<int>)
    requires p.Valid()
    ensures Numbers(limits, SkipBlanks(p), left, true, got) == Numbers(limits, p, left, true, got)
  {
    FinishSkips(p);
    assert SkipBlanks(SkipBlanks(p)) == SkipBlanks(p);
  }

  lemma NumbersAtEnd(limits: Limits, s: Stream, left: nat, got: seq<int>)
    requires s.rest == "" && s.eof && (left == 0 ==> s.fail)
    ensures Numbers(limits, Cursor(None, s), left, true, got) == Reading(got, None, Stream("", true, true))
  {
  }

  function TailText(pad: string, comment: Option<string>, eol: string, rest: string): string {
    pad + (CommentText(comment) + (eol + rest))
  }

  predicate TailOk(pad: string, comment: Option<string>, eol: string, rest: string) {
    AllBlank(pad) && EolOk(eol, rest) && (comment.Some? ==> Unbroken(comment.value))
  }

  /** What stops a call, after the blanks: a comment, the end of the line or the end of the input. */
  lemma TailStart(pad: string, comment: Option<string>, eol: string, rest: string)
    requires TailOk(pad, comment, eol, rest)
    ensures var q := Open(CommentText(comment) + (eol + rest));
      && SkipBlanks(Open(TailText(pad, comment, eol, rest))) == q
      && (if comment.Some? then q.c == Some('#') else if eol != "" then q.c == Some(eol[0]) && IsBreak(eol[0]) else q.c == None)
      && (q.c.None? ==> q.s == Stream("", true, false) && rest == "" && eol == "")
  {
    BlanksSkipped(pad, CommentText(comment) + (eol + rest));
    if comment.None? { assert CommentText(comment) + (eol + rest) == eol + rest; }
  }

  lemma TailFinished(pad: string, comment: Option<string>, eol: string, rest: string)
    requires TailOk(pad, comment, eol, rest)
    ensures Finish(Open(TailText(pad, comment, eol, rest)), true) == AfterLine(eol, rest)
    ensures Finish(Open(CommentText(comment) + (eol + rest)), true) == AfterLine(eol, rest)
  {
    assert pad + (CommentText(comment) + (eol + rest)) == (pad + CommentText(comment)) + (eol + rest);
    LineSkipped(pad + CommentText(comment), eol, rest);
    LineSkipped(CommentText(comment), eol, rest);
  }

  /** After the last number nothing more is read, and the rest of the line is skipped. */
  lemma TailRead(limits: Limits, pad: string, comment: Option<string>, eol: string, rest: string, left: nat, got: seq<int>)
    requires TailOk(pad, comment, eol, rest)
    ensures Numbers(limits, Open(TailText(pad, comment, eol, rest)), left, true, got) == Reading(got, None, AfterLine(eol, rest))
  {
    hide SkipBlanks, SkipLine;
    TailStart(pad, comment, eol, rest);
    TailFinished(pad, comment, eol, rest);
    if comment.None? {
      assert CommentText(comment) + (eol + rest) == eol + rest;
      BreakTaken(eol, rest);
    }
  }

  lemma NumberTaken(limits: Limits, numeral: string, more: string)
    requires IsNumeral(numeral) && limits.Has(Meaning(numeral)) && (more != "" ==> !IsDigit(more[0]))
    ensures Open(numeral + more) == Cursor(Some(numeral[0]), Stream(numeral + more, false, false))
    ensures !IsBlank(numeral[0]) && !IsBreak(numeral[0]) && numeral[0] != '#' && numeral[0] != ','
    ensures Extract(limits, Open(numeral + more).s) == (Some(Meaning(numeral)), Stream(more, more == "", false))
  {
    assert "" + numeral + more == numeral + more;
    NumeralRead(limits, "", numeral, more);
  }

  function CommaText(comma: bool): string { if comma then "," else "" }

  /** The text after a number: its blanks and comma, and then `later`. */
  function MoreText(item: Item, later: string): string { item.after + (CommaText(item.comma) + later) }

  lemma ItemTextIs(item: Item, later: string)
    ensures ItemText(item) + later == item.before + (item.numeral + MoreText(item, later))
  {
  }

  /** What separates two numbers is skipped. */
  lemma SeparatorSkipped(item: Item, later: string)
    requires AllBlank(item.after) && MoreText(item, later) != "" && SkipBlanks(Open(later)).c != Some(',')
    ensures SkipComma(SkipBlanks(Look(Stream(MoreText(item, later), false, false))))
         == if item.comma then Open(later) else SkipBlanks(Open(later))
  {
    BlanksSkipped(item.after, CommaText(item.comma) + later);
    if item.comma {
      assert ("," + later)[1..] == later;
    } else {
      assert CommaText(item.comma) + later == later;
    }
  }

  /** The text from the items on. */
  function FromItems(items: seq<Item>, tail: string): string { ItemsText(items) + tail }

  lemma FromItemsStep(items: seq<Item>, tail: string)
    requires items != []
    ensures FromItems(items, tail)
         == items[0].before + (items[0].numeral + MoreText(items[0], FromItems(items[1..], tail)))
  {
    assert ItemsText(items) + tail == ItemText(items[0]) + FromItems(items[1..], tail);
    ItemTextIs(items[0], FromItems(items[1..], tail));
  }

  /** No comma comes before the next number, and no digit right after the last one. */
  lemma NextStart(limits: Limits, items: seq<Item>, pad: string, comment: Option<string>, eol: string, rest: string)
    requires ItemsOk(limits, items) && TailOk(pad, comment, eol, rest)
    ensures var text := FromItems(items, TailText(pad, comment, eol, rest));
      && SkipBlanks(Open(text)).c != Some(',')
      && (items == [] && text != "" ==> !IsDigit(text[0]))
      && (items != [] ==> text != "" && (items[0].before != "" ==> !IsDigit(text[0])))
  {
    var tail := TailText(pad, comment, eol, rest);
    if items == [] {
      assert FromItems(items, tail) == tail;
      TailStart(pad, comment, eol, rest);
      TailNoDigit(pad, comment, eol, rest);
    } else {
      var more := MoreText(items[0], FromItems(items[1..], tail));
      FromItemsStep(items, tail);
      BlanksSkipped(items[0].before, items[0].numeral + more);
    }
  }

  lemma TailNoDigit(pad: string, comment: Option<string>, eol: string, rest: string)
    requires TailOk(pad, comment, eol, rest)
    ensures var tail := TailText(pad, comment, eol, rest); tail != "" ==> !IsDigit(tail[0])
  {
    if pad == "" && comment.None? { assert TailText(pad, comment, eol, rest) == eol + rest; }
  }

  lemma {:induction false} ItemsUnbroken(limits: Limits, items: seq<Item>)
    requires ItemsOk(limits, items)
    ensures Unbroken(ItemsText(items))
  {
    if items != [] { ItemsUnbroken(limits, items[1..]); }
  }

  /** With no room left the rest of the line is skipped, numbers or not. */
  lemma SkipsTheRest(limits: Limits, items: seq<Item>, pad: string, comment: Option<string>, eol: string, rest: string)
    requires ItemsOk(limits, items) && TailOk(pad, comment, eol, rest)
    ensures Finish(Open(FromItems(items, TailText(pad, comment, eol, rest))), true) == AfterLine(eol, rest)
  {
    ItemsUnbroken(limits, items);
    var text := ItemsText(items) + pad + CommentText(comment);
    assert ItemsText(items) + (pad + (CommentText(comment) + (eol + rest))) == text + (eol + rest);
    LineSkipped(text, eol, rest);
  }

  /** One number is taken, and the rest is read from the next one on. */
  lemma ItemRead(limits: Limits, item: Item, later: string, left: nat, got: seq<int>)
    requires ItemOk(limits, item) && left > 0
    requires SkipBlanks(Open(later)).c != Some(',')
    requires var more := MoreText(item, later); more != "" && !IsDigit(more[0])
    ensures Numbers(limits, Open(item.before + (item.numeral + MoreText(item, later))), left, true, got)
         == Numbers(limits, Open(later), left - 1, true, got + [Meaning(item.numeral)])
  {
    hide SkipLine, Extract;
    var more := MoreText(item, later);
    var p := Open(item.before + (item.numeral + more));
    BlanksSkipped(item.before, item.numeral + more);
    NumberTaken(limits, item.numeral, more);
    assert SkipBlanks(p) == Open(item.numeral + more);
    OneMore(limits, p, left, true, got);
    SeparatorSkipped(item, later);
    NumbersSkip(limits, Open(later), left - 1, got + [Meaning(item.numeral)]);
  }

  /** The last number of the input, with nothing after it. */
  lemma LastRead(limits: Limits, item: Item, left: nat, got: seq<int>)
    requires ItemOk(limits, item) && left > 0 && item.after == "" && !item.comma
    ensures Numbers(limits, Open(item.before + (item.numeral + "")), left, true, got)
         == Reading(got + [Meaning(item.numeral)], None, Stream("", true, true))
  {
    hide SkipLine, Extract;
    var p := Open(item.before + (item.numeral + ""));
    BlanksSkipped(item.before, item.numeral + "");
    NumberTaken(limits, item.numeral, "");
    OneMore(limits, p, left, true, got);
    NumbersAtEnd(limits, Stream("", true, true), left - 1, got + [Meaning(item.numeral)]);
  }

  /** The first numbers of a line, as many as there is room for. */
  function First(items: seq<Item>, room: nat): seq<int>
    requires forall i | 0 <= i < |items| :: IsNumeral(items[i].numeral)
  {
    Values(items)[..Min(|items|, room)]
  }

  lemma FirstStep(items: seq<Item>, room: nat, got: seq<int>)
    requires forall i | 0 <= i < |items| :: IsNumeral(items[i].numeral)
    ensures items == [] || room == 0 ==> got + First(items, room) == got
    ensures items != [] && room > 0 ==>
      got + First(items, room) == got + [Meaning(items[0].numeral)] + First(items[1..], room - 1)
  {
  }

  lemma MoreStart(limits: Limits, items: seq<Item>, pad: string, comment: Option<string>, eol: string, rest: string)
    requires items != [] && ItemsOk(limits, items) && TailOk(pad, comment, eol, rest)
    ensures var later := FromItems(items[1..], TailText(pad, comment, eol, rest));
      var more := MoreText(items[0], later);
      && SkipBlanks(Open(later)).c != Some(',')
      && (more != "" ==> !IsDigit(more[0]))
  {
    hide SkipBlanks, TailText;
    NextStart(limits, items[1..], pad, comment, eol, rest);
    assert |items| > 1 ==> items[1..][0] == items[1];
  }

  /** Nothing follows a number only at the end of the input. */
  lemma MoreEnd(limits: Limits, items: seq<Item>, pad: string, comment: Option<string>, eol: string, rest: string)
    requires items != [] && ItemsOk(limits, items)
    requires MoreText(items[0], FromItems(items[1..], TailText(pad, comment, eol, rest))) == ""
    ensures items[0].after == "" && !items[0].comma && items[1..] == [] && eol == "" && rest == ""
  {
  }

  lemma {:induction false} ItemsRead(limits: Limits, items: seq<Item>, pad: string, comment: Option<string>,
                                     eol: string, rest: string, left: nat, got: seq<int>)
    requires ItemsOk(limits, items) && TailOk(pad, comment, eol, rest)
    ensures Numbers(limits, Open(FromItems(items, TailText(pad, comment, eol, rest))), left, true, got)
         == Reading(got + First(items, left), None, AfterLine(eol, rest))
    decreases |items|
  {
    hide SkipBlanks, SkipLine, Extract, TailText, Numbers, First, MoreText, Meaning, IsNumeral;
    var tail := TailText(pad, comment, eol, rest);
    FirstStep(items, left, got);
    if left == 0 {
      SkipsTheRest(limits, items, pad, comment, eol, rest);
      NoMore(limits, Open(FromItems(items, tail)), 0, true, got);
    } else if items == [] {
      assert FromItems(items, tail) == tail;
      TailRead(limits, pad, comment, eol, rest, left, got);
    } else {
      var item, later := items[0], FromItems(items[1..], tail);
      FromItemsStep(items, tail);
      MoreStart(limits, items, pad, comment, eol, rest);
      if MoreText(item, later) == "" {
        MoreEnd(limits, items, pad, comment, eol, rest);
        LastRead(limits, item, left, got);
        FirstStep(items[1..], left - 1, got + [Meaning(item.numeral)]);
      } else {
        ItemRead(limits, item, later, left, got);
        ItemsRead(limits, items[1..], pad, comment, eol, rest, left - 1, got + [Meaning(item.numeral)]);
      }
    }
  }

  /** A call on a well-formed line returns its first numbers, as many as there is room for, and leaves the
      stream at the start of the next line. */
  lemma LineRead(limits: Limits, line: TextLine, rest: string, maxSize: nat)
    requires LineOk(limits, line, rest)
    ensures Line(limits, Stream(LineText(line) + rest, false, false), maxSize, true)
         == Reading(First(line.items, maxSize), None, AfterLine(line.eol, rest))
  {
    hide Numbers;
    assert LineText(line) + rest == FromItems(line.items, TailText(line.pad, line.comment, line.eol, rest));
    ItemsRead(limits, line.items, line.pad, line.comment, line.eol, rest, maxSize, []);
    assert [] + First(line.items, maxSize) == First(line.items, maxSize);
  }

  /** Where no number comes next, and no comment and no end of the line, the call ends with what it has got and the
      stream fails: so a second comma, or a word, stops it for good. */
  lemma StopsAt(limits: Limits, blanks: string, text: string, left: nat, got: seq<int>)
    requires AllBlank(blanks) && StartsOther(text) && text[0] != '#' && left > 0
    ensures Numbers(limits, Open(blanks + text), left, true, got) == Reading(got, Some(0), Stream(text, false, true))
  {
    hide Extract, Stored, StartsOther;
    var p := Open(blanks + text);
    BlanksSkipped(blanks, text);
    OtherStarts(text);
    assert SkipBlanks(p) == Open(text);
    assert "" + "" + text == text;
    NoDigitsRead(limits, "", "", text);
    NotANumber(limits, p, left, true, got);
  }

  lemma OtherStarts(text: string)
    requires StartsOther(text)
    ensures SkipBlanks(Open(text)) == Open(text) && text != "" && !IsBreak(text[0]) && NoDigitNext(text)
  {
  }

  /** A number with two commas after it: the call returns the number and leaves the second comma. */
  lemma DoubleCommaStops(limits: Limits, item: Item, later: string, left: nat)
    requires ItemOk(limits, item) && item.comma && left > 1
    ensures Numbers(limits, Open(item.before + (item.numeral + MoreText(item, "," + later))), left, true, [])
         == Reading([Meaning(item.numeral)], Some(0), Stream("," + later, false, true))
  {
    hide Extract, IsNumeral, Meaning, Numbers;
    CommaTaken(limits, item, "," + later, left, []);
    assert "" + ("," + later) == "," + later;
    StopsAt(limits, "", "," + later, left - 1, [] + [Meaning(item.numeral)]);
  }

  /** A comma after a number is taken, whatever comes next. */
  lemma CommaTaken(limits: Limits, item: Item, later: string, left: nat, got: seq<int>)
    requires ItemOk(limits, item) && item.comma && left > 0
    ensures Numbers(limits, Open(item.before + (item.numeral + MoreText(item, later))), left, true, got)
         == Numbers(limits, Open(later), left - 1, true, got + [Meaning(item.numeral)])
  {
    hide SkipLine, Extract;
    var more := MoreText(item, later);
    var p := Open(item.before + (item.numeral + more));
    BlanksSkipped(item.before, item.numeral + more);
    NumberTaken(limits, item.numeral, more);
    OneMore(limits, p, left, true, got);
    BlanksSkipped(item.after, CommaText(item.comma) + later);
    assert ("," + later)[1..] == later;
  }

  // ----- documents -----

  function DocumentText(lines: seq<TextLine>): string {
    if lines == [] then "" else LineText(lines[0]) + DocumentText(lines[1..])
  }

  /** All lines are well-formed, and all but the last have an end. */
  predicate DocumentOk(limits: Limits, lines: seq<TextLine>) {
    lines == [] || (LineOk(limits, lines[0], DocumentText(lines[1..])) && (|lines| > 1 ==> lines[0].eol != "")
                    && (|lines| > 1 ==> DocumentText(lines[1..]) != "") && DocumentOk(limits, lines[1..]))
  }

  /** What n calls in a row return. */
  function Lines(limits: Limits, s: Stream, n: nat, maxSize: nat): (r: seq<seq<int>>)
    ensures |r| == n
    decreases n
  {
    if n == 0 then []
    else
      var first := Line(limits, s, maxSize, true);
      [first.numbers] + Lines(limits, first.after, n - 1, maxSize)
  }

  function Expected(limits: Limits, lines: seq<TextLine>, maxSize: nat): (r: seq<seq<int>>)
    requires DocumentOk(limits, lines)
    ensures |r| == |lines|
  {
    if lines == [] then [] else [First(lines[0].items, maxSize)] + Expected(limits, lines[1..], maxSize)
  }

  /** Repeated calls recover the lines of a document, in order. */
  lemma {:induction false} DocumentRead(limits: Limits, lines: seq<TextLine>, maxSize: nat)
    requires DocumentOk(limits, lines)
    ensures Lines(limits, Stream(DocumentText(lines), false, false), |lines|, maxSize)
         == Expected(limits, lines, maxSize)
  {
    if lines != [] {
      hide Line;
      LineRead(limits, lines[0], DocumentText(lines[1..]), maxSize);
      if |lines| > 1 {
        DocumentRead(limits, lines[1..], maxSize);
      }
    }
  }
}

/** `read_line` without the search for the end of the line: calls that read on across the lines of a document. */
module ReadAcrossLines {
  import opened Text
  import opened Wrappers
  import opened Arithmetic
  import opened ReadLine

  // ----- a document as one row of numbers -----

  /** As in a line, but with line ends among the space before a number. */
  predicate FieldOk(limits: Limits, item: Item) {
    AllSpace(item.before) && AllBlank(item.after) && IsNumeral(item.numeral) && limits.Has(Meaning(item.numeral))
  }

  predicate FieldsOk(limits: Limits, items: seq<Item>) {
    && (forall i | 0 <= i < |items| :: FieldOk(limits, items[i]))
    && (forall i | 1 <= i < |items| :: items[i - 1].after != "" || items[i - 1].comma || items[i].before != "")
  }

  /** After the last number comes the end, or a comment. */
  predicate EndOk(tail: string) { SkipSpace(tail) == "" || SkipSpace(tail)[0] == '#' }

  /** The numbers before the first comment. */
  function Uncommented(limits: Limits, lines: seq<TextLine>): seq<int>
    requires DocumentOk(limits, lines)
  {
    if lines == [] then []
    else Values(lines[0].items) + if lines[0].comment.Some? then [] else Uncommented(limits, lines[1..])
  }

  lemma ItemsTextStep(items: seq<Item>)
    requires items != []
    ensures ItemsText(items) == ItemText(items[0]) + ItemsText(items[1..])
  {
  }

  lemma {:induction false} ItemsTextAdds(a: seq<Item>, b: seq<Item>)
    ensures ItemsText(a + b) == ItemsText(a) + ItemsText(b)
  {
    hide ItemText, ItemsText;
    if a == [] {
      assert a + b == b;
      NoText();
    } else {
      ItemsTextStep(a);
      ItemsTextStep(a + b);
      assert (a + b)[1..] == a[1..] + b && (a + b)[0] == a[0];
      ItemsTextAdds(a[1..], b);
      Associates(ItemText(a[0]), ItemsText(a[1..]), ItemsText(b));
    }
  }

  lemma NoText()
    ensures ItemsText([]) == ""
  {
  }

  lemma Associates(a: string, b: string, c: string)
    ensures a + (b + c) == (a + b) + c
  {
  }

  lemma NoItems(tail: string)
    ensures FromItems([], tail) == tail
  {
  }

  /** The numbers after some more space. */
  lemma SpaceBefore(limits: Limits, space: string, items: seq<Item>, tail: string) returns (items': seq<Item>, tail': string)
    requires FieldsOk(limits, items) && EndOk(tail) && AllSpace(space)
    ensures FieldsOk(limits, items') && EndOk(tail') && FromItems(items', tail') == space + FromItems(items, tail)
    ensures |items'| == |items| && Values(items') == Values(items)
    ensures items' != [] && space != "" ==> items'[0].before != ""
  {
    hide IsNumeral, Meaning, ItemText, ItemsText;
    if items == [] {
      items', tail' := [], space + tail;
      SpaceSkipped(space, tail);
      NoItems(tail);
      NoItems(tail');
    } else {
      var first := items[0].(before := space + items[0].before);
      items', tail' := [first] + items[1..], tail;
      assert items'[1..] == items[1..];
      FromItemsStep(items, tail);
      FromItemsStep(items', tail);
      assert forall i | 1 <= i < |items| :: items'[i] == items[i];
    }
  }

  lemma FieldsJoined(limits: Limits, a: seq<Item>, b: seq<Item>)
    requires FieldsOk(limits, a) && FieldsOk(limits, b) && (a != [] && b != [] ==> b[0].before != "")
    ensures FieldsOk(limits, a + b) && Values(a + b) == Values(a) + Values(b)
  {
    hide IsNumeral, Meaning;
    var ab := a + b;
    forall i | 1 <= i < |ab| ensures ab[i - 1].after != "" || ab[i - 1].comma || ab[i].before != "" {
      if i < |a| {
        assert ab[i - 1] == a[i - 1];
      } else if i > |a| {
        assert ab[i] == b[i - |a|] && ab[i - 1] == b[i - 1 - |a|];
      }
    }
  }

  lemma TextJoined(a: seq<Item>, b: seq<Item>, tail: string)
    ensures FromItems(a + b, tail) == ItemsText(a) + FromItems(b, tail)
  {
    hide ItemsText;
    ItemsTextAdds(a, b);
    Associates(ItemsText(a), ItemsText(b), tail);
  }

  lemma LineFields(limits: Limits, items: seq<Item>)
    requires ItemsOk(limits, items)
    ensures FieldsOk(limits, items)
  {
    assert forall s: string, i | AllBlank(s) && 0 <= i < |s| :: IsSpace(s[i]);
  }

  lemma LineSplits(line: TextLine, later: string)
    ensures line.comment.None? ==> LineText(line) + later == ItemsText(line.items) + (line.pad + line.eol + later)
    ensures line.comment.Some? ==>
      LineText(line) + later == FromItems(line.items, line.pad + ("#" + line.comment.value + line.eol + later))
  {
    hide ItemsText;
  }

  /** A document is one row of numbers, those before the first comment. */
  lemma {:induction false} Flatten(limits: Limits, lines: seq<TextLine>) returns (items: seq<Item>, tail: string)
    requires DocumentOk(limits, lines)
    ensures FieldsOk(limits, items) && EndOk(tail) && DocumentText(lines) == FromItems(items, tail)
    ensures Values(items) == Uncommented(limits, lines)
    decreases |lines|
  {
    hide FieldsOk, EndOk, LineText, ItemsText, Values, IsNumeral, Meaning;
    if lines == [] {
      items, tail := [], "";
      EmptyDocument(limits);
    } else {
      var line, later := lines[0], DocumentText(lines[1..]);
      LineFields(limits, line.items);
      LineSplits(line, later);
      if line.comment.Some? {
        var comment := "#" + line.comment.value + line.eol + later;
        items, tail := line.items, line.pad + comment;
        CommentEnds(line.pad, comment);
        assert Values(line.items) + [] == Values(line.items);
      } else {
        items, tail := FlattenOn(limits, lines);
      }
    }
  }

  lemma EmptyDocument(limits: Limits)
    ensures FieldsOk(limits, []) && EndOk("") && FromItems([], "") == "" && Values([]) == []
  {
  }

  lemma CommentEnds(pad: string, comment: string)
    requires AllBlank(pad) && comment != "" && comment[0] == '#'
    ensures EndOk(pad + comment)
  {
    SpaceSkipped(pad, comment);
  }

  lemma {:induction false} FlattenOn(limits: Limits, lines: seq<TextLine>) returns (items: seq<Item>, tail: string)
    requires DocumentOk(limits, lines) && lines != [] && lines[0].comment.None?
    ensures FieldsOk(limits, items) && EndOk(tail) && DocumentText(lines) == FromItems(items, tail)
    ensures Values(items) == Values(lines[0].items) + Uncommented(limits, lines[1..])
    decreases |lines|, 0
  {
    hide FieldsOk, EndOk, LineText, ItemsText, FromItems, IsNumeral, Meaning, ItemsOk;
    var line, later := lines[0], DocumentText(lines[1..]);
    var gap := line.pad + line.eol;
    LineFields(limits, line.items);
    LineSplits(line, later);
    var items', tail' := Flatten(limits, lines[1..]);
    items', tail' := SpaceBefore(limits, gap, items', tail');
    items, tail := line.items + items', tail';
    FieldsJoined(limits, line.items, items');
    TextJoined(line.items, items', tail');
  }

  // ----- reading it -----

  lemma {:induction false} BlanksOnce(p: Cursor)
    requires p.Valid()
    ensures SkipBlanks(SkipBlanks(p)) == SkipBlanks(p)
  {
  }

  /** Of the space before a word some may be blanks that are skipped first. */
  lemma {:induction false} BlanksOfSpace(space: string, word: string) returns (space': string)
    requires AllSpace(space) && word != "" && !IsSpace(word[0])
    ensures AllSpace(space') && SkipBlanks(Open(space + word)) == Open(space' + word)
    decreases |space|
  {
    if space == "" || !IsBlank(space[0]) {
      space' := space;
    } else {
      assert (space + word)[1..] == space[1..] + word;
      space' := BlanksOfSpace(space[1..], word);
    }
  }

  /** Where a call starts when the numbers and the tail are left. */
  ghost predicate At(p: Cursor, items: seq<Item>, tail: string) {
    p.Valid() && SkipBlanks(p) == SkipBlanks(Open(FromItems(items, tail)))
  }

  /** No call reads anything any more: a comment is next, or the stream has ended or failed. */
  ghost predicate Spent(s: Stream) { !s.Good() || SkipBlanks(Look(s)).c == Some('#') }

  /** Between two calls. */
  ghost predicate Ready(s: Stream, items: seq<Item>, tail: string) {
    if s.Good() && At(Look(s), items, tail) then true else items == [] && Spent(s)
  }

  lemma FieldStarts(limits: Limits, items: seq<Item>, tail: string) returns (space: string)
    requires items != [] && FieldsOk(limits, items)
    ensures AllSpace(space)
    ensures var more := MoreText(items[0], FromItems(items[1..], tail));
      SkipBlanks(Open(FromItems(items, tail))) == Open(space + (items[0].numeral + more))
    ensures var q := SkipBlanks(Open(FromItems(items, tail)));
      q.c.Some? && q.c != Some('#') && q.c != Some(',')
  {
    var word := items[0].numeral + MoreText(items[0], FromItems(items[1..], tail));
    FromItemsStep(items, tail);
    space := BlanksOfSpace(items[0].before, word);
  }

  lemma EndStarts(tail: string)
    requires EndOk(tail)
    ensures SkipBlanks(Open(tail)).c != Some(',') && (tail != "" ==> !IsDigit(tail[0]))
  {
    TailBlanks(tail);
  }

  lemma {:induction false} TailBlanks(tail: string)
    requires EndOk(tail)
    ensures var q := SkipBlanks(Open(tail));
      && EndOk(q.s.rest) && q.c != Some(',') && (q.c.None? ==> !q.s.Good())
      && (q.c.Some? ==> q.s == Stream(q.s.rest, false, false))
  {
    if tail != "" && IsBlank(tail[0]) { TailBlanks(tail[1..]); }
  }

  /** At the end, or at a comment, nothing is read and nothing will be. */
  lemma EndRead(limits: Limits, p: Cursor, tail: string, left: nat, got: seq<int>)
    requires EndOk(tail) && At(p, [], tail)
    ensures var r := Numbers(limits, p, left, false, got);
      r.numbers == got && Ready(r.after, [], tail)
  {
    NoItems(tail);
    TailBlanks(tail);
    var q := SkipBlanks(p);
    if left == 0 {
      Stopped(p, [], tail);
    } else if q.c == Some('#') {
      assert Look(q.s) == q;
    } else {
      NothingFound(limits, q.s);
    }
  }

  lemma NothingFound(limits: Limits, s: Stream)
    requires !s.Good() || (EndOk(s.rest) && s.rest != "")
    ensures Extract(limits, s).0.None?
  {
  }

  /** A call that had room for no more has left its stream ready for the next one. */
  lemma Stopped(p: Cursor, items: seq<Item>, tail: string)
    requires At(p, items, tail) && (p.c.None? ==> items == [])
    ensures Ready(p.s, items, tail)
  {
    if p.c.Some? { assert Look(p.s) == p; }
  }

  lemma FieldsDropped(limits: Limits, items: seq<Item>, k: nat)
    requires FieldsOk(limits, items) && k <= |items|
    ensures FieldsOk(limits, items[k..])
  {
    assert forall i | 0 <= i < |items| - k :: items[k..][i] == items[k + i];
  }

  /** What comes after the first number: no digit, and the next number without a comma before it. */
  lemma MoreStarts(limits: Limits, items: seq<Item>, tail: string)
    requires items != [] && FieldsOk(limits, items) && EndOk(tail)
    ensures FieldsOk(limits, items[1..])
    ensures var later := FromItems(items[1..], tail);
      var more := MoreText(items[0], later);
      && (more != "" ==> !IsDigit(more[0])) && SkipBlanks(Open(later)).c != Some(',')
      && (items[1..] != [] ==> later != "" && SkipBlanks(Open(later)).c.Some?)
  {
    hide EndOk, SkipBlanks, IsNumeral, Meaning, MoreText, FromItems;
    FieldsDropped(limits, items, 1);
    MoreFirst(items[0], FromItems(items[1..], tail));
    if items[1..] == [] {
      NoItems(tail);
      EndStarts(tail);
    } else {
      var space := FieldStarts(limits, items[1..], tail);
      FieldText(limits, items[1..], tail);
    }
  }

  lemma MoreFirst(item: Item, later: string)
    requires AllBlank(item.after)
    ensures var more := MoreText(item, later);
      more != "" && IsDigit(more[0]) ==> item.after == "" && !item.comma && later != "" && IsDigit(later[0])
  {
  }

  lemma FieldText(limits: Limits, items: seq<Item>, tail: string)
    requires items != [] && FieldsOk(limits, items)
    ensures var text := FromItems(items, tail); text != "" && (items[0].before != "" ==> !IsDigit(text[0]))
  {
    FromItemsStep(items, tail);
  }

  lemma LastTaken(item: Item, later: string)
    requires MoreText(item, later) == ""
    ensures later == "" && SkipComma(SkipBlanks(Look(Stream("", true, false)))) == Cursor(None, Stream("", true, true))
  {
  }

  /** The first number is taken; the call goes on before the others, or at the end of the stream. */
  lemma FieldTaken(limits: Limits, p: Cursor, items: seq<Item>, tail: string, left: nat, got: seq<int>)
    returns (q: Cursor)
    requires items != [] && FieldsOk(limits, items) && EndOk(tail) && At(p, items, tail) && left > 0
    ensures q.Valid() && Numbers(limits, p, left, false, got)
                      == Numbers(limits, q, left - 1, false, got + [Meaning(items[0].numeral)])
    ensures if q.c.Some? then At(q, items[1..], tail) else items[1..] == [] && !q.s.Good()
  {
    hide Extract, SkipSpace, SkipBlanks, Numbers, IsNumeral, Meaning, EndOk, FromItems;
    var item, later := items[0], FromItems(items[1..], tail);
    var more := MoreText(item, later);
    var space := FieldStarts(limits, items, tail);
    MoreStarts(limits, items, tail);
    assert space + item.numeral + more == space + (item.numeral + more);
    NumeralRead(limits, space, item.numeral, more);
    OneMore(limits, p, left, false, got);
    q := AfterNumber(limits, SkipBlanks(p).s);
    if more == "" {
      LastTaken(item, later);
    } else {
      SeparatorSkipped(item, later);
      BlanksOnce(Open(later));
    }
  }

  /** A call returns the next numbers, as many as there are and there is room for, and the next call goes on
      behind them. */
  lemma {:induction false} FieldsRead(limits: Limits, p: Cursor, items: seq<Item>, tail: string, left: nat, got: seq<int>)
    requires FieldsOk(limits, items) && EndOk(tail)
    requires p.Valid() && if p.c.Some? then At(p, items, tail) else items == [] && !p.s.Good()
    ensures var r := Numbers(limits, p, left, false, got);
      r.numbers == got + First(items, left) && Ready(r.after, items[Min(|items|, left)..], tail)
    decreases |items|
  {
    hide Extract, SkipSpace, SkipBlanks, Numbers, IsNumeral, Meaning, EndOk, FromItems, First, Ready, At;
    FirstStep(items, left, got);
    if items == [] || left == 0 {
      CallEnds(limits, p, items, tail, left, got);
    } else {
      var q := FieldTaken(limits, p, items, tail, left, got);
      MoreStarts(limits, items, tail);
      FieldsRead(limits, q, items[1..], tail, left - 1, got + [Meaning(items[0].numeral)]);
      assert items[1..][Min(|items| - 1, left - 1)..] == items[Min(|items|, left)..];
    }
  }

  lemma CallEnds(limits: Limits, p: Cursor, items: seq<Item>, tail: string, left: nat, got: seq<int>)
    requires FieldsOk(limits, items) && EndOk(tail) && (items == [] || left == 0)
    requires p.Valid() && if p.c.Some? then At(p, items, tail) else items == [] && !p.s.Good()
    ensures var r := Numbers(limits, p, left, false, got);
      r.numbers == got && Ready(r.after, items[Min(|items|, left)..], tail)
  {
    hide SkipBlanks;
    assert items[0..] == items;
    if p.c.None? {
      StreamEnded(limits, p, left, got);
    } else if left == 0 {
      NoMore(limits, p, 0, false, got);
      Stopped(p, items, tail);
    } else {
      EndRead(limits, p, tail, left, got);
    }
  }

  lemma StreamEnded(limits: Limits, p: Cursor, left: nat, got: seq<int>)
    requires p.Valid() && p.c.None?
    ensures var r := Numbers(limits, p, left, false, got); r.numbers == got && !r.after.Good()
  {
  }

  /** In front of a comment the call stops, and the stream stays good there. */
  lemma CommentStops(limits: Limits, blanks: string, comment: string, left: nat, got: seq<int>)
    requires AllBlank(blanks) && left > 0
    ensures Numbers(limits, Open(blanks + ("#" + comment)), left, false, got)
         == Reading(got, None, Stream("#" + comment, false, false))
  {
    hide Numbers;
    var p := Open(blanks + ("#" + comment));
    BlanksSkipped(blanks, "#" + comment);
    NoMore(limits, p, left, false, got);
  }

  /** When the last number there is room for has been taken, with its separator, the stream stands right behind that. */
  lemma StandsBehind(limits: Limits, item: Item, later: string)
    requires ItemOk(limits, item) && later != "" && (item.comma || (later[0] != ',' && later[0] != ' ' && later[0] != '\t'))
    requires item.comma || item.after != "" || NoDigitNext(later)
    ensures Numbers(limits, Open(item.before + (item.numeral + MoreText(item, later))), 1, false, [])
         == Reading([Meaning(item.numeral)], None, Stream(later, false, false))
  {
    hide Extract, IsNumeral, Meaning, Numbers;
    var more := MoreText(item, later);
    var p := Open(item.before + (item.numeral + more));
    BlanksSkipped(item.before, item.numeral + more);
    MoreFirst(item, later);
    NumberTaken(limits, item.numeral, more);
    OneMore(limits, p, 1, false, []);
    BlanksSkipped(item.after, CommaText(item.comma) + later);
    if item.comma {
      assert ("," + later)[1..] == later;
    } else {
      assert CommaText(item.comma) + later == later;
    }
    NoMore(limits, AfterNumber(limits, SkipBlanks(p).s), 0, false, [] + [Meaning(item.numeral)]);
  }

  // ----- calls in a row -----

  /** The numbers that n calls in a row return. */
  function Gathered(limits: Limits, s: Stream, n: nat, maxSize: nat): seq<int>
    decreases n
  {
    if n == 0 then []
    else
      var first := Line(limits, s, maxSize, false);
      first.numbers + Gathered(limits, first.after, n - 1, maxSize)
  }

  lemma CallRead(limits: Limits, s: Stream, items: seq<Item>, tail: string, maxSize: nat)
    requires FieldsOk(limits, items) && EndOk(tail) && Ready(s, items, tail)
    ensures var r := Line(limits, s, maxSize, false);
      r.numbers == First(items, maxSize) && Ready(r.after, items[Min(|items|, maxSize)..], tail)
    ensures FieldsOk(limits, items[Min(|items|, maxSize)..])
  {
    FieldsDropped(limits, items, Min(|items|, maxSize));
    if s.Good() && At(Look(s), items, tail) {
      if items != [] { var space := FieldStarts(limits, items, tail); }
      FieldsRead(limits, Look(s), items, tail, maxSize, []);
    } else if !s.Good() {
      StreamEnded(limits, Look(s), maxSize, []);
    } else {
      NoMore(limits, Look(s), maxSize, false, []);
    }
  }

  lemma FirstOfNone(items: seq<Item>)
    requires forall i | 0 <= i < |items| :: IsNumeral(items[i].numeral)
    ensures First(items, 0) == []
  {
  }

  lemma FirstSplits(items: seq<Item>, a: nat, b: nat)
    requires forall i | 0 <= i < |items| :: IsNumeral(items[i].numeral)
    ensures First(items, a + b) == First(items, a) + First(items[Min(|items|, a)..], b)
  {
  }

  lemma {:induction false} CallsRead(limits: Limits, s: Stream, items: seq<Item>, tail: string, n: nat, maxSize: nat)
    requires FieldsOk(limits, items) && EndOk(tail) && Ready(s, items, tail)
    ensures Gathered(limits, s, n, maxSize) == First(items, n * maxSize)
    decreases n
  {
    hide Line, First, Numbers, EndOk, Ready, IsNumeral, Meaning;
    if n == 0 {
      FirstOfNone(items);
    } else {
      CallRead(limits, s, items, tail, maxSize);
      var later := items[Min(|items|, maxSize)..];
      CallsRead(limits, Line(limits, s, maxSize, false).after, later, tail, n - 1, maxSize);
      FirstSplits(items, maxSize, (n - 1) * maxSize);
      MulAdd(n - 1, 1, maxSize);
    }
  }

  /** n calls on a document return its first n * maxSize numbers, lines or not, up to the first comment. */
  lemma DocumentReadAcross(limits: Limits, lines: seq<TextLine>, n: nat, maxSize: nat)
    requires DocumentOk(limits, lines)
    ensures var all := Uncommented(limits, lines);
      Gathered(limits, Stream(DocumentText(lines), false, false), n, maxSize) == all[..Min(|all|, n * maxSize)]
  {
    var items, tail := Flatten(limits, lines);
    CallsRead(limits, Stream(DocumentText(lines), false, false), items, tail, n, maxSize);
  }
}

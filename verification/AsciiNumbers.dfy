/** Arrays of whole numbers as text: rows of limited length on output, space-skipping extraction on input. */
module AsciiNumbers {
  import opened Text
  import opened Wrappers
  import opened Arithmetic

  const MAXIMUM_INDENTATION := 24

  function Spaces(n: nat): (s: string)
    ensures |s| == n && forall i | 0 <= i < n :: s[i] == ' '
  {
    seq(n, _ => ' ')
  }

  // ----- the reference: the numbers in rows -----

  /** A sequence cut into rows of m; the last row takes what is left. */
  function Rows<T>(values: seq<T>, m: nat): (rows: seq<seq<T>>)
    requires m >= 1
    ensures rows != []
    decreases |values|
  {
    if |values| <= m then [values] else [values[..m]] + Rows(values[m..], m)
  }

  /** One row: a space before each number. */
  function Row(texts: seq<string>): string {
    if texts == [] then "" else " " + texts[0] + Row(texts[1..])
  }

  function Joined(rows: seq<seq<string>>, between: string): string
    requires rows != []
  {
    if |rows| == 1 then Row(rows[0]) else Row(rows[0]) + between + Joined(rows[1..], between)
  }

  function Texts(values: seq<int>): (texts: seq<string>)
    ensures |texts| == |values| && forall i | 0 <= i < |values| :: texts[i] == Print(values[i])
  {
    seq(|values|, i requires 0 <= i < |values| => Print(values[i]))
  }

  function Between(indentation: nat): string { "\n" + Spaces(indentation) }

  /** Values in rows of m; zero stands for a single row. */
  function Printed(values: seq<int>, m: nat, indentation: nat): string {
    if m == 0 then Row(Texts(values)) else Joined(Rows(Texts(values), m), Between(indentation))
  }

  // ----- output -----

  class AsciiOutput {
    var output: string
    var indentation: nat
    var maximumNumbersPerLine: nat

    method Indent()
      modifies this`output
      ensures output == old(output) + Spaces(Min(indentation, MAXIMUM_INDENTATION))
    {
      output := output + Spaces(Min(indentation, MAXIMUM_INDENTATION));
    }

    method WriteEndOfLine()
      modifies this`output
      ensures output == old(output) + "\n"
    {
      output := output + "\n";
    }

    method WriteNumber(v: int)
      modifies this`output
      ensures output == WithNumber(old(output), Print(v))
    {
      output := output + " " + Print(v);
    }

    method BreakLine()
      modifies this`output
      ensures output == WithBreak(old(output), Spaces(Min(indentation, MAXIMUM_INDENTATION)))
    {
      WriteEndOfLine();
      Indent();
    }

    /** `_write` of the values of an array, and `_write_withcast` to a wider type, which keeps the values. */
    method Write(values: seq<int>)
      modifies this`output
      ensures output == old(output)
                      + Printed(values, maximumNumbersPerLine, Min(indentation, MAXIMUM_INDENTATION))
    {
      ghost var m, i := maximumNumbersPerLine, Min(indentation, MAXIMUM_INDENTATION);
      if |values| == 1 {
        RowOfOne(Texts(values));
        WriteNumber(values[0]);
      } else {
        WriteMany(values);
        WrittenIsPrinted(old(output), values, m, i);
      }
    }

    /** The loop of `_write`. */
    method WriteMany(values: seq<int>)
      modifies this`output
      ensures output == Written(old(output), Texts(values), 1, maximumNumbersPerLine,
                                Spaces(Min(indentation, MAXIMUM_INDENTATION)))
    {
      hide LeadsTo, Written, Print, Texts, Spaces, WithNumber, WithBreak, Min;
      ghost var texts, m, spaces := Texts(values), maximumNumbersPerLine, Spaces(Min(indentation, MAXIMUM_INDENTATION));
      ghost var all := Written(output, texts, 1, m, spaces);
      NothingWritten(output, texts, m, spaces);
      var num: nat, k: nat, numInRow: nat := |values|, 0, 1;
      while num > 0
        invariant k + num == |values|
        invariant LeadsTo(output, texts, k, numInRow, m, spaces, all)
      {
        NumberLeads(output, texts, k, numInRow, m, spaces, all);
        WriteNumber(values[k]);
        if numInRow == maximumNumbersPerLine && num > 1 {
          numInRow := 0;
          BreakLine();
        }
        num, k, numInRow := num - 1, k + 1, numInRow + 1;
      }
      EndReached(output, texts, numInRow, m, spaces, all);
    }
  }

  function WithNumber(output: string, text: string): string { output + " " + text }

  function WithBreak(output: string, spaces: string): string { output + "\n" + spaces }

  /** The output after the rest of the numbers, the first of which is number `numInRow` in its row. */
  function Written(output: string, texts: seq<string>, numInRow: nat, m: nat, spaces: string): string
    decreases |texts|
  {
    if texts == [] then output
    else
      var now := WithNumber(output, texts[0]);
      if numInRow == m && |texts| > 1 then Written(WithBreak(now, spaces), texts[1..], 1, m, spaces)
      else Written(now, texts[1..], numInRow + 1, m, spaces)
  }

  /** With the first k numbers written, the rest leads to `all`. */
  ghost predicate LeadsTo(output: string, texts: seq<string>, k: nat, numInRow: nat, m: nat, spaces: string, all: string) {
    k <= |texts| && Written(output, texts[k..], numInRow, m, spaces) == all
  }

  lemma NothingWritten(output: string, texts: seq<string>, m: nat, spaces: string)
    ensures LeadsTo(output, texts, 0, 1, m, spaces, Written(output, texts, 1, m, spaces))
  {
    assert texts[0..] == texts;
  }

  lemma NumberLeads(output: string, texts: seq<string>, k: nat, numInRow: nat, m: nat, spaces: string, all: string)
    requires k < |texts| && LeadsTo(output, texts, k, numInRow, m, spaces, all)
    ensures var now := WithNumber(output, texts[k]);
      if numInRow == m && k + 1 < |texts| then LeadsTo(WithBreak(now, spaces), texts, k + 1, 1, m, spaces, all)
      else LeadsTo(now, texts, k + 1, numInRow + 1, m, spaces, all)
  {
    hide WithNumber, WithBreak;
    assert texts[k..][1..] == texts[k + 1..];
  }

  lemma EndReached(output: string, texts: seq<string>, numInRow: nat, m: nat, spaces: string, all: string)
    requires LeadsTo(output, texts, |texts|, numInRow, m, spaces, all)
    ensures output == all
  {
    assert texts[|texts|..] == [];
  }

  /** What is still printed when the current row has room for `room` numbers. */
  function Remaining(texts: seq<string>, room: nat, m: nat, between: string): string
    requires 1 <= room <= m
    decreases |texts|
  {
    if texts == [] then "" else " " + texts[0] + Left(texts, room, m, between)
  }

  /** What is printed after the first of them. */
  function Left(texts: seq<string>, room: nat, m: nat, between: string): string
    requires 1 <= room <= m && texts != []
    decreases |texts|, 0
  {
    if |texts| == 1 then ""
    else if room == 1 then between + Remaining(texts[1..], m, m, between)
    else Remaining(texts[1..], room - 1, m, between)
  }

  lemma Appended(a: string, b: string, c: string, d: string)
    ensures a + (b + c + d) == a + b + c + d
  {
  }

  lemma {:induction false} WrittenIsRemaining(output: string, texts: seq<string>, numInRow: nat, m: nat, spaces: string)
    requires 1 <= numInRow <= m
    ensures Written(output, texts, numInRow, m, spaces)
         == output + Remaining(texts, m + 1 - numInRow, m, "\n" + spaces)
    decreases |texts|
  {
    if texts == [] {
    } else {
      var between, now := "\n" + spaces, output + " " + texts[0];
      Appended(output, " ", texts[0], Left(texts, m + 1 - numInRow, m, between));
      if |texts| == 1 {
        assert texts[1..] == [];
      } else if numInRow == m {
        WrittenIsRemaining(now + "\n" + spaces, texts[1..], 1, m, spaces);
        Appended(now, "\n", spaces, Remaining(texts[1..], m, m, between));
      } else {
        WrittenIsRemaining(now, texts[1..], numInRow + 1, m, spaces);
      }
    }
  }

  lemma RowOfOne(texts: seq<string>)
    requires texts != []
    ensures Row(texts[..1]) == " " + texts[0]
    ensures |texts| == 1 ==> Row(texts) == " " + texts[0]
  {
    assert texts[..1][1..] == [];
    assert Row([]) == "";
    if |texts| == 1 { assert texts[1..] == []; }
  }

  lemma RowSplits(texts: seq<string>, n: nat)
    requires 1 <= n <= |texts|
    ensures Row(texts[..n]) == " " + texts[0] + Row(texts[1..][..n - 1])
  {
    assert texts[..n][1..] == texts[1..][..n - 1];
  }

  lemma Joins(all: string, row: string, later: string, a: string, b: string, c: string, d: string)
    requires all == a + later && later == b + c + d && row == a + b
    ensures all == row + c + d
  {
  }

  lemma {:induction false} RemainingShort(texts: seq<string>, room: nat, m: nat, between: string)
    requires 1 <= room <= m && |texts| <= room
    ensures Remaining(texts, room, m, between) == Row(texts)
    decreases |texts|
  {
    if |texts| == 1 {
      RowOfOne(texts);
    } else if |texts| > 1 {
      RemainingShort(texts[1..], room - 1, m, between);
    }
  }

  lemma RowGoesOn(texts: seq<string>, room: nat, m: nat, between: string)
    requires 1 < room <= m && |texts| > room
    requires Remaining(texts[1..], room - 1, m, between)
          == Row(texts[1..][..room - 1]) + between + Remaining(texts[1..][room - 1..], m, m, between)
    ensures Remaining(texts, room, m, between)
         == Row(texts[..room]) + between + Remaining(texts[room..], m, m, between)
  {
    RowSplits(texts, room);
    assert Left(texts, room, m, between) == Remaining(texts[1..], room - 1, m, between);
    assert texts[1..][room - 1..] == texts[room..];
    Joins(Remaining(texts, room, m, between), Row(texts[..room]), Remaining(texts[1..], room - 1, m, between),
          " " + texts[0], Row(texts[1..][..room - 1]), between, Remaining(texts[room..], m, m, between));
  }

  lemma {:induction false} RemainingLong(texts: seq<string>, room: nat, m: nat, between: string)
    requires 1 <= room <= m && |texts| > room
    ensures Remaining(texts, room, m, between)
         == Row(texts[..room]) + between + Remaining(texts[room..], m, m, between)
    decreases |texts|
  {
    if room == 1 {
      RowOfOne(texts);
    } else {
      RemainingLong(texts[1..], room - 1, m, between);
      RowGoesOn(texts, room, m, between);
    }
  }

  lemma {:induction false} RemainingIsJoined(texts: seq<string>, m: nat, between: string)
    requires m >= 1
    ensures Remaining(texts, m, m, between) == Joined(Rows(texts, m), between)
    decreases |texts|
  {
    if |texts| <= m {
      RemainingShort(texts, m, m, between);
    } else {
      RemainingLong(texts, m, m, between);
      RemainingIsJoined(texts[m..], m, between);
      assert Rows(texts, m)[1..] == Rows(texts[m..], m);
    }
  }

  /** With no maximum there is no break, as with one that is not reached. */
  lemma {:induction false} WrittenInOneRow(output: string, texts: seq<string>, numInRow: nat, m: nat, spaces: string)
    requires numInRow >= 1 && numInRow + |texts| <= m + 1
    ensures Written(output, texts, numInRow, 0, spaces) == Written(output, texts, numInRow, m, spaces)
    decreases |texts|
  {
    if texts != [] { WrittenInOneRow(output + " " + texts[0], texts[1..], numInRow + 1, m, spaces); }
  }

  lemma PrintedInOneRow(values: seq<int>, m: nat, indentation: nat)
    requires |values| <= m && m >= 1
    ensures Printed(values, 0, indentation) == Printed(values, m, indentation)
  {
  }

  lemma WrittenIsPrinted(output: string, values: seq<int>, m: nat, indentation: nat)
    ensures Written(output, Texts(values), 1, m, Spaces(indentation)) == output + Printed(values, m, indentation)
  {
    hide Written, Rows, Joined, Row, Remaining, Texts;
    var m', texts := if m == 0 then |values| + 1 else m, Texts(values);
    if m == 0 {
      WrittenInOneRow(output, texts, 1, m', Spaces(indentation));
      PrintedInOneRow(values, m', indentation);
    }
    WrittenIsRemaining(output, texts, 1, m', Spaces(indentation));
    RemainingIsJoined(texts, m', Between(indentation));
  }

  // ----- rows -----

  function Concat<T>(rows: seq<seq<T>>): seq<T> {
    if rows == [] then [] else rows[0] + Concat(rows[1..])
  }

  /** The rows hold the values in order, at most m each, and n values take (n - 1) / m + 1 rows. */
  lemma {:induction false} RowsHold<T>(values: seq<T>, m: nat)
    requires m >= 1
    ensures Concat(Rows(values, m)) == values
    ensures forall i | 0 <= i < |Rows(values, m)| :: |Rows(values, m)[i]| <= m
    ensures forall i | 0 <= i < |Rows(values, m)| - 1 :: |Rows(values, m)[i]| == m
    ensures values != [] ==> |Rows(values, m)| == (|values| - 1) / m + 1
    decreases |values|
  {
    var rows := Rows(values, m);
    if |values| <= m {
      assert rows[1..] == [];
      if values != [] { DivMod(0, |values| - 1, m); }
    } else {
      RowsHold(values[m..], m);
      assert rows == [values[..m]] + Rows(values[m..], m) && rows[1..] == Rows(values[m..], m);
      OneRowMore(|values| - 1 - m, m);
    }
  }

  lemma OneRowMore(n: nat, m: nat)
    requires m >= 1
    ensures (n + m) / m == n / m + 1
  {
    var q, r := Division(n, m);
    MulAdd(q, 1, m);
    QuotientIs(n + m, q + 1, r, m);
  }

  /** Two numbers in one row, and in two. */
  lemma TwoPrinted(a: int, b: int, indentation: nat)
    ensures Printed([a, b], 0, indentation) == Printed([a, b], 2, indentation) == " " + Print(a) + " " + Print(b)
    ensures Printed([a, b], 1, indentation) == " " + Print(a) + "\n" + Spaces(indentation) + " " + Print(b)
  {
    hide Print;
    var texts := Texts([a, b]);
    assert texts == [Print(a), Print(b)];
    RowOfOne([Print(a)]);
    RowOfOne([Print(b)]);
    assert texts[1..] == [Print(b)] && texts[..1] == [Print(a)];
    assert Rows(texts, 2) == [texts];
    assert Rows(texts[1..], 1) == [texts[1..]];
    assert Rows(texts, 1) == [texts[..1], texts[1..]];
    assert Joined([texts[1..]], Between(indentation)) == Row(texts[1..]);
    assert [texts[..1], texts[1..]][1..] == [texts[1..]];
  }

  function Breaks(s: string): (n: nat) {
    if s == [] then 0 else Breaks(s[..|s| - 1]) + if s[|s| - 1] == '\n' then 1 else 0
  }

  lemma {:induction false} BreaksAdd(a: string, b: string)
    ensures Breaks(a + b) == Breaks(a) + Breaks(b)
  {
    if b == [] {
      assert a + b == a;
    } else {
      assert (a + b)[..|a + b| - 1] == a + b[..|b| - 1];
      BreaksAdd(a, b[..|b| - 1]);
    }
  }

  lemma {:induction false} NoBreaks(s: string)
    requires '\n' !in s
    ensures Breaks(s) == 0
  {
    if s != [] { NoBreaks(s[..|s| - 1]); }
  }

  predicate Unbroken(texts: seq<string>) { forall i | 0 <= i < |texts| :: '\n' !in texts[i] }

  lemma {:induction false} RowWithoutBreak(texts: seq<string>)
    requires Unbroken(texts)
    ensures Breaks(Row(texts)) == 0
  {
    if texts != [] {
      RowWithoutBreak(texts[1..]);
      NoBreaks(" " + texts[0]);
      BreaksAdd(" " + texts[0], Row(texts[1..]));
    }
  }

  lemma {:induction false} JoinedBreaks(rows: seq<seq<string>>, between: string)
    requires rows != [] && Breaks(between) == 1 && forall i | 0 <= i < |rows| :: Unbroken(rows[i])
    ensures Breaks(Joined(rows, between)) == |rows| - 1
  {
    RowWithoutBreak(rows[0]);
    if |rows| > 1 {
      JoinedBreaks(rows[1..], between);
      BreaksAdd(Row(rows[0]), between);
      BreaksAdd(Row(rows[0]) + between, Joined(rows[1..], between));
    }
  }

  lemma OneBreak(indentation: nat)
    ensures Breaks(Between(indentation)) == 1
  {
    NoBreaks(Spaces(indentation));
    BreaksAdd("\n", Spaces(indentation));
    assert "\n"[..0] == "";
    assert Breaks("") == 0;
  }

  lemma {:induction false} UnbrokenRows(texts: seq<string>, m: nat)
    requires m >= 1 && Unbroken(texts)
    ensures forall i | 0 <= i < |Rows(texts, m)| :: Unbroken(Rows(texts, m)[i])
    decreases |texts|
  {
    if |texts| > m { UnbrokenRows(texts[m..], m); }
  }

  /** n >= 1 values are printed with exactly (n - 1) / m line breaks, and with none without a maximum. */
  lemma BreaksPrinted(values: seq<int>, m: nat, indentation: nat)
    requires values != []
    ensures Breaks(Printed(values, m, indentation)) == if m == 0 then 0 else (|values| - 1) / m
  {
    hide Breaks, Rows, Joined, Row, Unbroken;
    TextsUnbroken(values);
    if m == 0 {
      RowWithoutBreak(Texts(values));
    } else {
      RowsHold(Texts(values), m);
      UnbrokenRows(Texts(values), m);
      OneBreak(indentation);
      JoinedBreaks(Rows(Texts(values), m), Between(indentation));
    }
  }

  lemma TextsUnbroken(values: seq<int>)
    ensures Unbroken(Texts(values))
  {
    forall i | 0 <= i < |values| ensures '\n' !in Texts(values)[i] {
      if values[i] < 0 { assert Print(values[i])[1..] == Digits(-values[i]); }
    }
  }

  // ----- input -----

  /** The conversion from the type that is read to the type that is stored. */
  datatype Cast = TO_INT8 | TO_UINT8

  function Apply(cast: Cast, v: int): int {
    match cast
    case TO_INT8 => (v + 128) % 256 - 128
    case TO_UINT8 => v % 256
  }

  /** `num` extractions; none where one fails. */
  function Extracted(limits: Limits, s: Stream, num: nat): (r: (seq<Option<int>>, Stream))
    ensures |r.0| == num
    decreases num
  {
    if num == 0 then ([], s)
    else
      var first := Extract(limits, s);
      var later := Extracted(limits, first.1, num - 1);
      ([first.0] + later.0, later.1)
  }

  /** What `num` extractions store. */
  function Stores(limits: Limits, s: Stream, num: nat): (r: seq<Option<int>>)
    ensures |r| == num
    decreases num
  {
    if num == 0 then [] else [Stored(limits, s)] + Stores(limits, Extract(limits, s).1, num - 1)
  }

  /** What a variable holds after some extractions into it. */
  function Latest(stores: seq<Option<int>>, v: int): int {
    if stores == [] then v
    else if stores[|stores| - 1].Some? then stores[|stores| - 1].value
    else Latest(stores[..|stores| - 1], v)
  }

  lemma NextStored(limits: Limits, s: Stream, num: nat)
    requires num > 0
    ensures var (v, later) := Extract(limits, s);
      && Extracted(limits, s, num) == ([v] + Extracted(limits, later, num - 1).0, Extracted(limits, later, num - 1).1)
      && Stores(limits, s, num) == [Stored(limits, s)] + Stores(limits, later, num - 1)
  {
  }

  lemma NoneLeft(limits: Limits, s: Stream, v: int)
    ensures Extracted(limits, s, 0) == ([], s) && Latest([], v) == v
  {
  }

  lemma LatestNext(stores: seq<Option<int>>, k: nat, v: int)
    requires k < |stores|
    ensures Latest(stores[..k + 1], v) == if stores[k].Some? then stores[k].value else Latest(stores[..k], v)
  {
    assert stores[..k + 1][..k] == stores[..k];
  }

  /** A variable holds what was stored last, and what it held at first if nothing was. */
  lemma {:induction false} LatestIs(stores: seq<Option<int>>, i: nat, v: int)
    requires i < |stores| && forall j | i < j < |stores| :: stores[j].None?
    ensures stores[i].Some? ==> Latest(stores, v) == stores[i].value
    ensures (forall j | 0 <= j <= i :: stores[j].None?) ==> Latest(stores, v) == v
    decreases |stores|
  {
    var n := |stores| - 1;
    if i < n {
      LatestIs(stores[..n], i, v);
    } else if stores[n].None? && n > 0 {
      LatestIs(stores[..n], n - 1, v);
    }
  }

  lemma {:induction false} NothingStored(limits: Limits, s: Stream, num: nat)
    requires s.fail
    ensures forall i | 0 <= i < num :: Stores(limits, s, num)[i] == Extracted(limits, s, num).0[i] == None
    decreases num
  {
    if num > 0 {
      NextStored(limits, s, num);
      NothingStored(limits, Extract(limits, s).1, num - 1);
    }
  }

  /** What is extracted is stored; an extraction that fails may store something, and none after it does. */
  lemma {:induction false} StoresUpToFailure(limits: Limits, s: Stream, num: nat)
    ensures var e, stores := Extracted(limits, s, num).0, Stores(limits, s, num);
      && (forall i | 0 <= i < num :: e[i].Some? ==> stores[i] == e[i])
      && (forall i, j | 0 <= i < j < num :: e[i].None? ==> stores[j].None?)
    decreases num
  {
    hide Extract, Extracted, Stores, Stored;
    if num > 0 {
      var first := Extract(limits, s);
      NextStored(limits, s, num);
      StoresUpToFailure(limits, first.1, num - 1);
      if first.0.None? { NothingStored(limits, first.1, num - 1); }
    }
  }

  class AsciiInput {
    var input: Stream

    method ReadNumber(limits: Limits) returns (v: Option<int>)
      modifies this
      ensures v == Stored(limits, old(input)) && input == Extract(limits, old(input)).1
    {
      v, input := Stored(limits, input), Extract(limits, input).1;
    }

    /** `_read`: fills the first `num` elements of the destination; what is not stored keeps its value. */
    method Read(limits: Limits, num: nat, dest: array<int>)
      requires num <= dest.Length
      modifies this, dest
      ensures input == Extracted(limits, old(input), num).1
      ensures var stores := Stores(limits, old(input), num);
        forall k | 0 <= k < num :: dest[k] == if stores[k].Some? then stores[k].value else old(dest[k])
      ensures forall k | num <= k < dest.Length :: dest[k] == old(dest[k])
    {
      hide Extract, Extracted, Stores, Stored, Latest;
      ghost var stores, end := Stores(limits, input, num), Extracted(limits, input, num).1;
      for k := 0 to num
        invariant Extracted(limits, input, num - k).1 == end && Stores(limits, input, num - k) == stores[k..]
        invariant forall i | 0 <= i < k :: dest[i] == if stores[i].Some? then stores[i].value else old(dest[i])
        invariant forall i | k <= i < dest.Length :: dest[i] == old(dest[i])
      {
        NextStored(limits, input, num - k);
        assert stores[k] == Stored(limits, input) && stores[k..][1..] == stores[k + 1..];
        var v := ReadNumber(limits);
        if v.Some? { dest[k] := v.value; }
      }
      NoneLeft(limits, input, 0);
    }

    /** `_read_withcast`: reads through a variable of another type, which nothing has set at first. */
    method ReadWithCast(limits: Limits, cast: Cast, num: nat, dest: array<int>, unset: int)
      requires num <= dest.Length
      modifies this, dest
      ensures input == Extracted(limits, old(input), num).1
      ensures forall k | 0 <= k < num :: dest[k] == Apply(cast, Latest(Stores(limits, old(input), num)[..k + 1], unset))
      ensures forall k | num <= k < dest.Length :: dest[k] == old(dest[k])
    {
      hide Extract, Extracted, Stores, Stored, Latest;
      ghost var stores, end := Stores(limits, input, num), Extracted(limits, input, num).1;
      var v := unset;
      NoneLeft(limits, input, unset);
      for k := 0 to num
        invariant Extracted(limits, input, num - k).1 == end && Stores(limits, input, num - k) == stores[k..]
        invariant v == Latest(stores[..k], unset)
        invariant forall i | 0 <= i < k :: dest[i] == Apply(cast, Latest(stores[..i + 1], unset))
        invariant forall i | k <= i < dest.Length :: dest[i] == old(dest[i])
      {
        NextStored(limits, input, num - k);
        LatestNext(stores, k, unset);
        assert stores[k] == Stored(limits, input) && stores[k..][1..] == stores[k + 1..];
        var r := ReadNumber(limits);
        if r.Some? { v := r.value; }
        dest[k] := Apply(cast, v);
      }
      NoneLeft(limits, input, 0);
    }
  }

  /** Numbers, each after some space. */
  function Spaced(gaps: seq<string>, texts: seq<string>): string
    requires |gaps| == |texts|
  {
    if texts == [] then "" else gaps[0] + texts[0] + Spaced(gaps[1..], texts[1..])
  }

  predicate AreGaps(gaps: seq<string>) { forall i | 0 <= i < |gaps| :: gaps[i] != "" && AllSpace(gaps[i]) }

  predicate AreNumerals(limits: Limits, texts: seq<string>) {
    forall i | 0 <= i < |texts| :: IsNumeral(texts[i]) && limits.Has(Meaning(texts[i]))
  }

  function Meanings(texts: seq<string>): (r: seq<Option<int>>)
    requires forall i | 0 <= i < |texts| :: IsNumeral(texts[i])
    ensures |r| == |texts| && forall i | 0 <= i < |texts| :: r[i] == Some(Meaning(texts[i]))
  {
    seq(|texts|, i requires 0 <= i < |texts| => Some(Meaning(texts[i])))
  }

  lemma LaterStarts(gaps: seq<string>, texts: seq<string>, rest: string)
    requires |gaps| == |texts| && AreGaps(gaps) && (rest != "" ==> !IsDigit(rest[0]))
    ensures var later := Spaced(gaps, texts) + rest; later != "" ==> !IsDigit(later[0])
    ensures texts != [] ==> Spaced(gaps, texts) + rest != ""
  {
    if texts != [] {
      assert (Spaced(gaps, texts) + rest)[0] == gaps[0][0];
    } else {
      assert Spaced(gaps, texts) + rest == rest;
    }
  }

  lemma ReadOneMore(limits: Limits, s: Stream, texts: seq<string>, next: Stream, end: Stream)
    requires texts != [] && AreNumerals(limits, texts) && Extract(limits, s) == (Some(Meaning(texts[0])), next)
    requires Extracted(limits, next, |texts| - 1) == (Meanings(texts[1..]), end)
    ensures Extracted(limits, s, |texts|) == (Meanings(texts), end)
  {
    hide Extract, IsNumeral, Meaning;
    assert Meanings(texts) == [Some(Meaning(texts[0]))] + Meanings(texts[1..]);
  }

  lemma SpacedFirst(gaps: seq<string>, texts: seq<string>, rest: string)
    requires |gaps| == |texts| > 0
    ensures Spaced(gaps, texts) + rest == gaps[0] + texts[0] + (Spaced(gaps[1..], texts[1..]) + rest)
  {
  }

  /** Numbers in range are extracted one by one, and the stream stops after the last. */
  lemma {:induction false} SpacedRead(limits: Limits, gaps: seq<string>, texts: seq<string>, rest: string)
    requires |gaps| == |texts| > 0 && AreGaps(gaps) && AreNumerals(limits, texts)
    requires rest != "" ==> !IsDigit(rest[0])
    ensures Extracted(limits, Stream(Spaced(gaps, texts) + rest, false, false), |texts|)
         == (Meanings(texts), Stream(rest, rest == "", false))
    decreases |texts|
  {
    hide Extract, IsNumeral, Meaning;
    var later := Spaced(gaps[1..], texts[1..]) + rest;
    var next := Stream(later, later == "", false);
    SpacedFirst(gaps, texts, rest);
    LaterStarts(gaps[1..], texts[1..], rest);
    NumeralRead(limits, gaps[0], texts[0], later);
    if |texts| == 1 {
      assert later == rest && Meanings(texts[1..]) == [];
      NoneLeft(limits, next, 0);
    } else {
      SpacedRead(limits, gaps[1..], texts[1..], rest);
    }
    ReadOneMore(limits, Stream(Spaced(gaps, texts) + rest, false, false), texts, next, Stream(rest, rest == "", false));
  }

  /** The space before each number: one character, after the end of the row before it where there is one. */
  function Gaps(n: nat, room: nat, m: nat, between: string): (gaps: seq<string>)
    requires 1 <= room <= m
    ensures |gaps| == n && (n > 0 ==> gaps[0] == " ")
  {
    if n == 0 then []
    else if n == 1 then [" "]
    else if room > 1 then [" "] + Gaps(n - 1, room - 1, m, between)
    else [" ", between + " "] + Gaps(n - 1, m, m, between)[1..]
  }

  lemma {:induction false} GapsAreGaps(n: nat, room: nat, m: nat, between: string)
    requires 1 <= room <= m && AllSpace(between)
    ensures AreGaps(Gaps(n, room, m, between))
  {
    if n > 1 { GapsAreGaps(n - 1, if room > 1 then room - 1 else m, m, between); }
  }

  lemma GapBefore(gaps: seq<string>, gaps': seq<string>, texts: seq<string>, between: string)
    requires |gaps| == |gaps'| == |texts| > 0 && gaps' == [between + gaps[0]] + gaps[1..]
    ensures Spaced(gaps', texts) == between + Spaced(gaps, texts)
  {
    assert gaps'[1..] == gaps[1..];
    Joins(between + Spaced(gaps, texts), between + gaps[0], Spaced(gaps, texts), between, gaps[0],
          texts[0], Spaced(gaps[1..], texts[1..]));
  }

  lemma SpacedNext(texts: seq<string>, room: nat, m: nat, between: string, gaps: seq<string>)
    requires 1 <= room <= m && |gaps| == |texts| > 0 && gaps[0] == " "
    requires Left(texts, room, m, between) == Spaced(gaps[1..], texts[1..])
    ensures Remaining(texts, room, m, between) == Spaced(gaps, texts)
  {
    hide Left;
  }

  lemma {:induction false} RemainingIsSpaced(texts: seq<string>, room: nat, m: nat, between: string)
    requires 1 <= room <= m
    ensures Remaining(texts, room, m, between) == Spaced(Gaps(|texts|, room, m, between), texts)
    decreases |texts|
  {
    var gaps := Gaps(|texts|, room, m, between);
    if texts != [] {
      LeftIsSpaced(texts, room, m, between);
      SpacedNext(texts, room, m, between, gaps);
    }
  }

  lemma {:induction false} LeftIsSpaced(texts: seq<string>, room: nat, m: nat, between: string)
    requires 1 <= room <= m && texts != []
    ensures Left(texts, room, m, between) == Spaced(Gaps(|texts|, room, m, between)[1..], texts[1..])
    decreases |texts|, 0
  {
    hide Remaining;
    var gaps := Gaps(|texts|, room, m, between);
    if |texts| == 1 {
      assert gaps[1..] == [] && texts[1..] == [];
    } else if room > 1 {
      RemainingIsSpaced(texts[1..], room - 1, m, between);
      assert gaps[1..] == Gaps(|texts| - 1, room - 1, m, between);
    } else {
      RemainingIsSpaced(texts[1..], m, m, between);
      GapBefore(Gaps(|texts| - 1, m, m, between), gaps[1..], texts[1..], between);
    }
  }

  predicate AllIn(limits: Limits, values: seq<int>) { forall i | 0 <= i < |values| :: limits.Has(values[i]) }

  function Somes(values: seq<int>): (r: seq<Option<int>>)
    ensures |r| == |values| && forall i | 0 <= i < |values| :: r[i] == Some(values[i])
  {
    seq(|values|, i requires 0 <= i < |values| => Some(values[i]))
  }

  lemma TextsAreNumerals(limits: Limits, values: seq<int>)
    requires AllIn(limits, values)
    ensures AreNumerals(limits, Texts(values)) && Meanings(Texts(values)) == Somes(values)
  {
    forall i | 0 <= i < |values| ensures IsNumeral(Texts(values)[i]) && Meaning(Texts(values)[i]) == values[i] {
      PrintedNumeral(values[i]);
    }
  }

  /** What is printed is read back: the same numbers, and nothing beyond them. */
  lemma PrintedRead(limits: Limits, values: seq<int>, m: nat, indentation: nat, rest: string)
    requires values != [] && AllIn(limits, values) && NoDigitNext(rest)
    ensures Extracted(limits, Stream(Printed(values, m, indentation) + rest, false, false), |values|)
         == (Somes(values), Stream(rest, rest == "", false))
  {
    hide Extract, Extracted, Remaining, Rows, Joined, Row, Texts, Spaced, Gaps, AreGaps;
    if m == 0 {
      PrintedInOneRow(values, |values|, indentation);
    }
    var m := if m == 0 then |values| else m;
    var texts, between := Texts(values), Between(indentation);
    RemainingIsJoined(texts, m, between);
    RemainingIsSpaced(texts, m, m, between);
    GapsAreGaps(|texts|, m, m, between);
    TextsAreNumerals(limits, values);
    SpacedRead(limits, Gaps(|texts|, m, m, between), texts, rest);
  }

  /** The 16-bit type that stands in for an 8-bit one on output and input. */
  function Wide(cast: Cast): Limits {
    if cast == TO_INT8 then Limits(-0x8000, 0x7fff) else Limits(0, 0xffff)
  }

  predicate EightBits(cast: Cast, v: int) {
    if cast == TO_INT8 then -128 <= v <= 127 else 0 <= v <= 255
  }

  /** Numbers of 8 bits survive the way through 16 bits: written as numbers, read and cast back. */
  lemma EightBitsRead(cast: Cast, values: seq<int>, m: nat, indentation: nat, rest: string)
    requires values != [] && NoDigitNext(rest)
    requires forall i | 0 <= i < |values| :: EightBits(cast, values[i])
    ensures var r := Extracted(Wide(cast), Stream(Printed(values, m, indentation) + rest, false, false), |values|);
      && r.1 == Stream(rest, rest == "", false)
      && forall k | 0 <= k < |values| :: r.0[k].Some? && Apply(cast, r.0[k].value) == values[k]
  {
    PrintedRead(Wide(cast), values, m, indentation, rest);
    forall k | 0 <= k < |values| ensures Apply(cast, values[k]) == values[k] {
      CastKeeps(cast, values[k]);
    }
  }

  /** A cast to eight bits keeps the value modulo 256, in the range of its type. */
  lemma CastWraps(cast: Cast, v: int) returns (k: int)
    ensures EightBits(cast, Apply(cast, v)) && Apply(cast, v) == v + 256 * k
  {
    k := if cast == TO_INT8 then -((v + 128) / 256) else -(v / 256);
  }

  lemma CastKeeps(cast: Cast, v: int)
    requires EightBits(cast, v)
    ensures Apply(cast, v) == v
  {
  }
}

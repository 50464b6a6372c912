/** Strings as quoted text: what is escaped on output, what input takes them for. */
module AsciiStrings {
  import opened Text
  import opened Wrappers

  // ----- output -----

  function EscapedChar(c: char): string { if c == '"' then "\\\"" else [c] }

  /** Quotes get a backslash; backslashes do not. */
  function Escaped(s: string): string {
    if s == "" then "" else EscapedChar(s[0]) + Escaped(s[1..])
  }

  function Quoted(s: string): string { "\"" + Escaped(s) + "\"" }

  lemma {:induction false} EscapedAppend(a: string, b: string)
    ensures Escaped(a + b) == Escaped(a) + Escaped(b)
  {
    if a == "" {
      assert a + b == b;
    } else {
      assert (a + b)[1..] == a[1..] + b;
      EscapedAppend(a[1..], b);
    }
  }

  /** `_write` of a string. */
  method Write(output: string, str: string) returns (output': string)
    ensures output' == output + Quoted(str)
  {
    output' := output + "\"";
    for i := 0 to |str|
      invariant output' == output + "\"" + Escaped(str[..i])
    {
      assert str[..i + 1] == str[..i] + [str[i]];
      EscapedAppend(str[..i], [str[i]]);
      assert [str[i]][1..] == "";
      if str[i] == '"' {
        output' := output' + "\\\"";
      } else {
        output' := output' + [str[i]];
      }
    }
    assert str[..|str|] == str;
    output' := output' + "\"";
  }

  // ----- input -----

  /** What the text after an opening quote is taken for: the string, the text after it, and whether the closing
      quote was found before the end of the input. */
  datatype Taken = Taken(value: string, rest: string, closed: bool)

  function Body(text: string, got: string): Taken
    decreases |text|
  {
    if text == "" then Taken(got, "", false)
    else if text[0] == '"' then Taken(got, text[1..], true)
    else if text[0] != '\\' then Body(text[1..], got + [text[0]])
    else if |text| == 1 then Taken(got + ['\\'] + ['\\'], "", false)
    else if text[1] == '"' then Body(text[2..], got + ['"'])
    else Body(text[2..], got + ['\\'] + [text[1]])
  }

  /** The characters before the next space. */
  function Word(text: string): (w: string)
    ensures w <= text && (|w| < |text| ==> IsSpace(text[|w|]))
  {
    if text == "" || IsSpace(text[0]) then "" else [text[0]] + Word(text[1..])
  }

  /** `>>` into a string. */
  function ExtractWord(s: Stream): (string, Stream) {
    if !s.Good() then ("", s.(fail := true))
    else
      var text := SkipSpace(s.rest);
      var word := Word(text);
      (word, Stream(text[|word|..], |word| == |text|, word == ""))
  }

  /** The string and the stream after `_read`. */
  function Read(s: Stream): (string, Stream) {
    if !s.Good() then ("", s.(fail := true))
    else
      var text := SkipSpace(s.rest);
      if text == "" then ("", Stream("", true, true))
      else if text[0] == '"' then
        var t := Body(text[1..], "");
        (t.value, Stream(t.rest, !t.closed, !t.closed))
      else ExtractWord(Stream(text[1..], false, false))
  }

  /** `get`: at the end of the input the character stays as it was. */
  function Get(s: Stream, c: char): (char, Stream) {
    if !s.Good() then (c, s.(fail := true))
    else if s.rest == "" then (c, Stream("", true, true))
    else (s.rest[0], s.(rest := s.rest[1..]))
  }

  class AsciiInput {
    var input: Stream

    /** `_read` of a string. */
    method ReadString() returns (value: string)
      modifies this
      ensures (value, input) == Read(old(input))
    {
      value := "";
      if !input.Good() {
        input := input.(fail := true);
        return;
      }
      var text := SkipSpace(input.rest);
      if text == "" {
        input := Stream("", true, true);
        return;
      }
      var c := text[0];
      input := Stream(text[1..], false, false);
      if c == '"' {
        ghost var all := Body(input.rest, "");
        assert input.rest != "" ==> [input.rest[0]] + input.rest[1..] == input.rest;
        c, input := Get(input, c).0, Get(input, c).1;
        while input.Good()
          invariant input.eof == input.fail
          invariant input.Good() ==> all == Body([c] + input.rest, value)
          invariant !input.Good() ==> all == Taken(value, "", false) && input.rest == ""
          decreases |input.rest|, if input.fail then 0 else 1
        {
          assert ([c] + input.rest)[1..] == input.rest;
          assert input.rest != "" ==> ([c] + input.rest)[2..] == input.rest[1..];
          if c == '\\' {
            c, input := Get(input, c).0, Get(input, c).1;
            if c == '"' {
              value := value + [c];
            } else {
              value := value + ['\\'];
              value := value + [c];
            }
          } else if c != '"' {
            value := value + [c];
          } else {
            break;
          }
          assert input.rest != "" ==> [input.rest[0]] + input.rest[1..] == input.rest;
          c, input := Get(input, c).0, Get(input, c).1;
        }
      } else {
        value, input := ExtractWord(input).0, ExtractWord(input).1;
      }
    }
  }

  // ----- which strings come back -----

  /** The number of backslashes right before position i. */
  function RunBefore(s: string, i: nat): nat
    requires i <= |s|
  {
    if i > 0 && s[i - 1] == '\\' then RunBefore(s, i - 1) + 1 else 0
  }

  /** Before every quote and before the end the number of backslashes is even. */
  predicate EvenRuns(s: string) {
    forall i | 0 <= i <= |s| :: (i == |s| || s[i] == '"') ==> RunBefore(s, i) % 2 == 0
  }

  /** The same, told by taking each backslash with the character after it, as the reader does. */
  predicate Pairs(s: string)
    decreases |s|
  {
    if s == "" then true
    else if s[0] != '\\' then Pairs(s[1..])
    else |s| > 1 && s[1] != '"' && Pairs(s[2..])
  }

  lemma {:induction false} RunAfterFirst(s: string, i: nat)
    requires 1 <= i <= |s| && s[0] != '\\'
    ensures RunBefore(s, i) == RunBefore(s[1..], i - 1)
  {
    if i > 1 { RunAfterFirst(s, i - 1); }
  }

  lemma {:induction false} RunAfterPair(s: string, i: nat)
    requires 2 <= i <= |s| && s[0] == '\\'
    ensures RunBefore(s, i) % 2 == RunBefore(s[2..], i - 2) % 2
  {
    if i > 2 {
      RunAfterPair(s, i - 1);
    } else if s[1] == '\\' {
      assert RunBefore(s, 1) == RunBefore(s, 0) + 1;
    }
  }

  lemma {:induction false} PairsIffEvenRuns(s: string)
    ensures Pairs(s) <==> EvenRuns(s)
    decreases |s|
  {
    if s == "" {
    } else if s[0] != '\\' {
      PairsIffEvenRuns(s[1..]);
      assert RunBefore(s, 0) == 0;
      forall i | 1 <= i <= |s| ensures RunBefore(s, i) == RunBefore(s[1..], i - 1) { RunAfterFirst(s, i); }
      if EvenRuns(s) {
        forall i | 0 <= i <= |s[1..]| && (i == |s[1..]| || s[1..][i] == '"') ensures RunBefore(s[1..], i) % 2 == 0 {
          assert RunBefore(s, i + 1) == RunBefore(s[1..], i + 1 - 1);
        }
      }
    } else if |s| == 1 || s[1] == '"' {
      assert RunBefore(s, 1) == RunBefore(s, 0) + 1 == 1;
    } else {
      PairsIffEvenRuns(s[2..]);
      forall i | 2 <= i <= |s| ensures RunBefore(s, i) % 2 == RunBefore(s[2..], i - 2) % 2 { RunAfterPair(s, i); }
      if EvenRuns(s) {
        forall i | 0 <= i <= |s[2..]| && (i == |s[2..]| || s[2..][i] == '"') ensures RunBefore(s[2..], i) % 2 == 0 {
          assert RunBefore(s, i + 2) % 2 == RunBefore(s[2..], i + 2 - 2) % 2;
        }
      }
    }
  }

  lemma {:induction false} BodyKeeps(text: string, got: string)
    ensures got <= Body(text, got).value && |Body(text, got).rest| <= |text|
    decreases |text|
  {
    if text == "" || text[0] == '"' {
    } else if text[0] != '\\' {
      BodyKeeps(text[1..], got + [text[0]]);
    } else if |text| > 1 {
      BodyKeeps(text[2..], if text[1] == '"' then got + ['"'] else got + ['\\'] + [text[1]]);
    }
  }

  /** The text of the rest of a string, up to and beyond the closing quote. */
  function Encoded(s: string, rest: string): string { Escaped(s) + "\"" + rest }

  lemma EncodedStep(s: string, rest: string)
    requires s != ""
    ensures Encoded(s, rest) == EscapedChar(s[0]) + Encoded(s[1..], rest)
  {
  }

  lemma {:induction false} BodyBack(s: string, rest: string, got: string)
    ensures Body(Encoded(s, rest), got) == Taken(got + s, rest, true) <==> Pairs(s)
    decreases |s|
  {
    var text := Encoded(s, rest);
    if s == "" {
      assert text == "\"" + rest && text[1..] == rest && got + s == got;
    } else {
      var later := Encoded(s[1..], rest);
      EncodedStep(s, rest);
      if s[0] == '"' {
        assert text == "\\\"" + later && text[2..] == later;
        BodyBack(s[1..], rest, got + ['"']);
        assert got + ['"'] + s[1..] == got + s;
      } else if s[0] != '\\' {
        assert text == [s[0]] + later && text[1..] == later;
        BodyBack(s[1..], rest, got + [s[0]]);
        assert got + [s[0]] + s[1..] == got + s;
      } else if |s| == 1 {
        assert text == "\\\"" + rest && text[2..] == rest;
        BodyKeeps(rest, got + ['"']);
        assert (got + s)[|got|] == '\\';
      } else {
        BodyBackPair(s, rest, got);
        if s[1] != '"' { BodyBack(s[2..], rest, got + ['\\'] + [s[1]]); }
      }
    }
  }

  lemma BodyBackPair(s: string, rest: string, got: string)
    requires |s| > 1 && s[0] == '\\'
    ensures got + ['\\'] + [s[1]] + s[2..] == got + s
    ensures s[1] != '"' ==> Body(Encoded(s, rest), got) == Body(Encoded(s[2..], rest), got + ['\\'] + [s[1]])
    ensures s[1] == '"' ==> |Body(Encoded(s, rest), got).rest| > |rest|
  {
    var text, last := Encoded(s, rest), Encoded(s[2..], rest);
    EncodedStep(s, rest);
    EncodedStep(s[1..], rest);
    assert s[1..][1..] == s[2..];
    if s[1] != '"' {
      assert text == ['\\'] + [s[1]] + last && text[2..] == last;
    } else {
      assert text == ['\\'] + "\\\"" + last && text[2..] == "\"" + last && text[2..][1..] == last;
    }
  }

  /** A string that was written is read back, and nothing beyond it, exactly when no odd number of backslashes
      stands right before a quote or at the end. */
  lemma ReadsBackIff(s: string, rest: string)
    ensures Read(Stream(" " + Quoted(s) + rest, false, false)) == (s, Stream(rest, false, false)) <==> EvenRuns(s)
  {
    var text := "\"" + Encoded(s, rest);
    assert " " + Quoted(s) + rest == " " + text && text[1..] == Encoded(s, rest);
    SpaceSkipped(" ", text);
    BodyBack(s, rest, "");
    assert "" + s == s;
    PairsIffEvenRuns(s);
    BodyEnds(Encoded(s, rest), "");
  }

  /** A directory name with a backslash at its end is not read back. */
  lemma TrailingBackslashFails(rest: string)
    ensures Read(Stream(" " + Quoted("dir\\") + rest, false, false)) != ("dir\\", Stream(rest, false, false))
  {
    var s := "dir\\";
    ReadsBackIff(s, rest);
    assert RunBefore(s, 3) == 0 && RunBefore(s, 4) == 1;
  }

  lemma {:induction false} BodyEnds(text: string, got: string)
    ensures !Body(text, got).closed ==> Body(text, got).rest == ""
    decreases |text|
  {
    if text == "" || text[0] == '"' {
    } else if text[0] != '\\' {
      BodyEnds(text[1..], got + [text[0]]);
    } else if |text| > 1 {
      BodyEnds(text[2..], if text[1] == '"' then got + ['"'] else got + ['\\'] + [text[1]]);
    }
  }

  /** A word without quotes loses its first character: it is taken off before the word is extracted. */
  lemma UnquotedLosesFirst(word: string, rest: string)
    requires |word| > 1 && word[0] != '"' && (forall i | 0 <= i < |word| :: !IsSpace(word[i]))
    requires rest != "" ==> IsSpace(rest[0])
    ensures Read(Stream(word + rest, false, false)) == (word[1..], Stream(rest, rest == "", false))
  {
    var text := word + rest;
    SpaceSkipped("", text);
    assert "" + text == text && text[1..] == word[1..] + rest;
    SpaceSkipped("", text[1..]);
    assert "" + text[1..] == text[1..];
    WordIs(word[1..], rest);
  }

  /** A word of one character is not read at all: the next word is, without the first being noticed. */
  lemma SingleCharacterSkipped(c: char, word: string, rest: string)
    requires c != '"' && c !in " \t\n\U{0B}\U{0C}\r" && word != "" && forall i | 0 <= i < |word| :: !IsSpace(word[i])
    requires rest != "" ==> IsSpace(rest[0])
    ensures Read(Stream([c] + " " + word + rest, false, false)) == (word, Stream(rest, rest == "", false))
  {
    var text := [c] + " " + word + rest;
    NoSpace(text);
    assert text[1..] == " " + (word + rest);
    SpaceSkipped(" ", word + rest);
    NoSpace(word + rest);
    WordIs(word, rest);
  }

  /** Without a closing quote everything up to the end of the input is taken, and the stream fails there. */
  lemma UnclosedTakesAll(space: string, text: string)
    requires AllSpace(space) && '"' !in text && '\\' !in text
    ensures Read(Stream(space + "\"" + text, false, false)) == (text, Stream("", true, true))
  {
    var quoted := "\"" + text;
    assert space + "\"" + text == space + quoted && quoted[1..] == text;
    SpaceSkipped(space, quoted);
    NoSpace(quoted);
    PlainBody(text, "");
    assert "" + text == text;
  }

  lemma {:induction false} PlainBody(text: string, got: string)
    requires '"' !in text && '\\' !in text
    ensures Body(text, got) == Taken(got + text, "", false)
  {
    if text == "" {
      assert got + text == got;
    } else {
      PlainBody(text[1..], got + [text[0]]);
      assert got + [text[0]] + text[1..] == got + text;
    }
  }

  lemma {:induction false} WordIs(word: string, rest: string)
    requires (forall i | 0 <= i < |word| :: !IsSpace(word[i])) && (rest != "" ==> IsSpace(rest[0]))
    ensures Word(word + rest) == word
  {
    if word == "" {
      assert word + rest == rest;
    } else {
      assert (word + rest)[1..] == word[1..] + rest;
      WordIs(word[1..], rest);
    }
  }
}

/**
 * Lines of delimited fields: the parser of the file readers and the escaping of the file writers
 * (packages/core/src/io/file-readers.ts:161-191, packages/core/src/io/file-writers.ts:88-99).
 */
module Csv {
  const QUOTE := '"'

  // ---------------------------------------------------------------- parsing

  /** The fields of the rest of a line, when `field` has been read and `quoted` says whether quotes are open. */
  function ParseFrom(rest: string, delimiter: string, field: string, quoted: bool): (fields: seq<string>)
    ensures |fields| > 0
    decreases |rest|
  {
    if rest == "" then [field]
    else if quoted then
      if rest[0] == QUOTE && |rest| > 1 && rest[1] == QUOTE then ParseFrom(rest[2..], delimiter, field + [QUOTE], true)
      else if rest[0] == QUOTE then ParseFrom(rest[1..], delimiter, field, false)
      else ParseFrom(rest[1..], delimiter, field + [rest[0]], true)
    else if rest[0] == QUOTE then ParseFrom(rest[1..], delimiter, field, true)
    else if [rest[0]] == delimiter then [field] + ParseFrom(rest[1..], delimiter, "", false)
    else ParseFrom(rest[1..], delimiter, field + [rest[0]], false)
  }

  function Parse(line: string, delimiter: string): (fields: seq<string>)
    ensures |fields| > 0
  {
    ParseFrom(line, delimiter, "", false)
  }

  /** The loop of the parser; it compares single characters, so a longer delimiter never matches. */
  method ParseDelimitedLine(line: string, delimiter: string) returns (out: seq<string>)
    ensures out == Parse(line, delimiter)
  {
    out := [];
    var field, quoted, i := "", false, 0;
    while i < |line|
      invariant 0 <= i <= |line|
      invariant out + ParseFrom(line[i..], delimiter, field, quoted) == Parse(line, delimiter)
    {
      var ch := line[i];
      ghost var rest := line[i..];
      assert rest[0] == ch && rest[1..] == line[i + 1..];
      assert i + 1 < |line| ==> rest[1] == line[i + 1] && rest[2..] == line[i + 2..];
      if quoted {
        if ch == QUOTE && i + 1 < |line| && line[i + 1] == QUOTE {
          field := field + [QUOTE];
          i := i + 1;
        } else if ch == QUOTE {
          quoted := false;
        } else {
          field := field + [ch];
        }
      } else if ch == QUOTE {
        quoted := true;
      } else if [ch] == delimiter {
        out := out + [field];
        field := "";
      } else {
        field := field + [ch];
      }
      i := i + 1;
    }
    out := out + [field];
  }

  // ---------------------------------------------------------------- what parsing means, character by character

  /** As many quotes stand before the i-th character as leave it outside of a quotation. */
  ghost predicate Outside(line: string, i: nat)
    requires i <= |line|
  {
    multiset(line[..i])['"'] % 2 == 0
  }

  /** A delimiter outside of a quotation ends a field. */
  ghost predicate Separator(line: string, delimiter: string, i: nat)
    requires i < |line|
  {
    [line[i]] == delimiter && line[i] != '"' && Outside(line, i)
  }

  /** Of the quotes only the second of a pair within a quotation is text. */
  ghost predicate IsText(line: string, i: nat)
    requires i < |line|
  {
    line[i] == '"' ==> i > 0 && line[i - 1] == '"' && Outside(line, i)
  }

  /** The fields of the first n characters: separators end them, and the text between is theirs. */
  ghost function FieldsOf(line: string, delimiter: string, n: nat): (fields: seq<string>)
    requires n <= |line|
    ensures |fields| > 0
  {
    if n == 0 then [""] else
    var before := FieldsOf(line, delimiter, n - 1);
    if Separator(line, delimiter, n - 1) then before + [""]
    else if IsText(line, n - 1) then before[..|before| - 1] + [before[|before| - 1] + [line[n - 1]]]
    else before
  }

  lemma OutsideNext(line: string, i: nat)
    requires i < |line|
    ensures Outside(line, i + 1) <==> (Outside(line, i) <==> line[i] != '"')
  {
    assert line[..i + 1] == line[..i] + [line[i]];
  }

  ghost function Done(fields: seq<string>): seq<string>
    requires fields != []
  {
    fields[..|fields| - 1]
  }

  ghost function Last(fields: seq<string>): string
    requires fields != []
  {
    fields[|fields| - 1]
  }

  lemma FieldsNext(line: string, delimiter: string, n: nat)
    requires n < |line|
    ensures var (before, after) := (FieldsOf(line, delimiter, n), FieldsOf(line, delimiter, n + 1));
      && Done(before) + [Last(before)] == before
      && (Separator(line, delimiter, n) ==> Done(after) == before && Last(after) == "")
      && (!Separator(line, delimiter, n) && IsText(line, n) ==> Done(after) == Done(before) && Last(after) == Last(before) + [line[n]])
      && (!Separator(line, delimiter, n) && !IsText(line, n) ==> after == before)
  {
    hide Separator, IsText;
  }

  /** The parser, started at the n-th character in the state in which it gets there, ends with the fields of the whole line. */
  lemma {:induction false} ParsedFrom(line: string, delimiter: string, n: nat, quoted: bool)
    requires n <= |line| && (quoted <==> !Outside(line, n))
    requires !quoted && 0 < n < |line| && line[n - 1] == '"' ==> line[n] != '"'
    ensures var fields := FieldsOf(line, delimiter, n);
            Done(fields) + ParseFrom(line[n..], delimiter, Last(fields), quoted) == FieldsOf(line, delimiter, |line|)
    decreases |line| - n
  {
    hide FieldsOf, Outside;
    var (fields, rest) := (FieldsOf(line, delimiter, n), line[n..]);
    if n == |line| {
      assert Done(fields) + [Last(fields)] == fields;
    } else {
      hide Done, Last;
      OutsideNext(line, n);
      FieldsNext(line, delimiter, n);
      assert rest[0] == line[n] && rest[1..] == line[n + 1..];
      if quoted && n + 1 < |line| && line[n] == '"' && line[n + 1] == '"' {
        OutsideNext(line, n + 1);
        FieldsNext(line, delimiter, n + 1);
        assert rest[1] == line[n + 1] && rest[2..] == line[n + 2..];
        ParsedFrom(line, delimiter, n + 2, true);
      } else {
        ParsedFrom(line, delimiter, n + 1, !Outside(line, n + 1));
        if Separator(line, delimiter, n) {
          var after := ParseFrom(rest[1..], delimiter, "", false);
          assert Done(fields) + ([Last(fields)] + after) == fields + after;
        }
      }
    }
  }

  /** For every line and delimiter the parser gives these fields. */
  lemma ParseMeaning(line: string, delimiter: string)
    ensures Parse(line, delimiter) == FieldsOf(line, delimiter, |line|)
  {
    ParsedFrom(line, delimiter, 0, false);
    assert line[0..] == line;
  }

  // ---------------------------------------------------------------- printing

  function Doubled(text: string): string {
    if text == "" then "" else (if text[0] == QUOTE then [QUOTE, QUOTE] else [text[0]]) + Doubled(text[1..])
  }

  predicate NeedsQuotes(text: string, delimiter: string) {
    QUOTE in text || '\n' in text || '\r' in text || |Parse(text, delimiter)| > 1
  }

  function Escape(text: string, delimiter: string): string {
    if NeedsQuotes(text, delimiter) then [QUOTE] + Doubled(text) + [QUOTE] else text
  }

  /**
   * A text is left alone exactly if it has no quote, no line break and no delimiter in it; else it stands
   * between quotes.  Only a delimiter of one character is one the parser finds.
   */
  lemma EscapeMeaning(text: string, delimiter: string)
    ensures var escaped := Escape(text, delimiter);
      && (escaped == text <==>
            '"' !in text && '\n' !in text && '\r' !in text && forall i :: 0 <= i < |text| ==> [text[i]] != delimiter)
      && (escaped != text ==> |escaped| >= 2 && escaped[0] == '"' && escaped[|escaped| - 1] == '"')
  {
    if '"' !in text {
      SplitsUnquoted(text, delimiter, "");
    }
    if NeedsQuotes(text, delimiter) {
      DoubledLength(text);
    }
  }

  lemma {:induction false} SplitsUnquoted(text: string, delimiter: string, field: string)
    requires '"' !in text
    ensures |ParseFrom(text, delimiter, field, false)| == 1 <==> forall i :: 0 <= i < |text| ==> [text[i]] != delimiter
    decreases |text|
  {
    if text != "" {
      SplitsUnquoted(text[1..], delimiter, if [text[0]] == delimiter then "" else field + [text[0]]);
      assert forall i :: 0 < i < |text| ==> text[i] == text[1..][i - 1];
    }
  }

  lemma {:induction false} DoubledLength(text: string)
    ensures |Doubled(text)| >= |text|
  {
    if text != "" { DoubledLength(text[1..]); }
  }

  function Join(parts: seq<string>, separator: string): string {
    if parts == [] then "" else if |parts| == 1 then parts[0] else parts[0] + separator + Join(parts[1..], separator)
  }

  function Escaped(fields: seq<string>, delimiter: string): (texts: seq<string>)
    ensures |texts| == |fields|
    ensures forall i :: 0 <= i < |fields| ==> texts[i] == Escape(fields[i], delimiter)
  {
    if fields == [] then [] else [Escape(fields[0], delimiter)] + Escaped(fields[1..], delimiter)
  }

  /** A line of the file: the escaped fields, joined. */
  function Line(fields: seq<string>, delimiter: string): string {
    Join(Escaped(fields, delimiter), delimiter)
  }

  // ---------------------------------------------------------------- the round trip

  /** The delimiters the parser can recognise. */
  predicate Splits(delimiter: string) {
    |delimiter| == 1 && delimiter[0] != QUOTE
  }

  lemma {:induction false} QuotedText(text: string, after: string, delimiter: string, field: string)
    requires after == "" || after[0] != QUOTE
    ensures ParseFrom(Doubled(text) + [QUOTE] + after, delimiter, field, true) == ParseFrom(after, delimiter, field + text, false)
    decreases |text|
  {
    var rest := Doubled(text) + [QUOTE] + after;
    if text == "" {
      assert rest[1..] == after && field + text == field;
    } else {
      var one := if text[0] == QUOTE then [QUOTE, QUOTE] else [text[0]];
      assert rest == one + (Doubled(text[1..]) + [QUOTE] + after);
      assert rest[|one|..] == Doubled(text[1..]) + [QUOTE] + after;
      QuotedText(text[1..], after, delimiter, field + [text[0]]);
      assert field + [text[0]] + text[1..] == field + text;
    }
  }

  lemma {:induction false} PlainText(text: string, after: string, delimiter: string, field: string)
    requires QUOTE !in text
    requires forall i :: 0 <= i < |text| ==> [text[i]] != delimiter
    ensures ParseFrom(text + after, delimiter, field, false) == ParseFrom(after, delimiter, field + text, false)
    decreases |text|
  {
    if text == "" {
      assert text + after == after && field + text == field;
    } else {
      assert (text + after)[1..] == text[1..] + after;
      assert [text[0]] != delimiter;
      PlainText(text[1..], after, delimiter, field + [text[0]]);
      assert field + [text[0]] + text[1..] == field + text;
    }
  }

  /** A text that needs no quotes has no delimiter in it. */
  lemma {:induction false} UnquotedHasNoDelimiter(text: string, delimiter: string, field: string)
    requires QUOTE !in text && |ParseFrom(text, delimiter, field, false)| == 1
    ensures forall i :: 0 <= i < |text| ==> [text[i]] != delimiter
    decreases |text|
  {
    if text != "" {
      UnquotedHasNoDelimiter(text[1..], delimiter, field + [text[0]]);
      forall i | 0 <= i < |text| ensures [text[i]] != delimiter {
        if i > 0 { assert text[i] == text[1..][i - 1]; }
      }
    }
  }

  lemma QuotedField(text: string, after: string, delimiter: string)
    requires after == "" || after[0] != QUOTE
    ensures ParseFrom([QUOTE] + Doubled(text) + [QUOTE] + after, delimiter, "", false) == ParseFrom(after, delimiter, text, false)
  {
    hide Doubled;
    QuotedText(text, after, delimiter, "");
    var quoted := Doubled(text) + [QUOTE] + after;
    assert [QUOTE] + Doubled(text) + [QUOTE] + after == [QUOTE] + quoted;
    assert ([QUOTE] + quoted)[1..] == quoted && "" + text == text;
  }

  lemma FieldParsed(text: string, after: string, delimiter: string)
    requires after == "" || after[0] != QUOTE
    ensures ParseFrom(Escape(text, delimiter) + after, delimiter, "", false) == ParseFrom(after, delimiter, text, false)
  {
    hide ParseFrom, Doubled;
    if NeedsQuotes(text, delimiter) {
      QuotedField(text, after, delimiter);
    } else {
      UnquotedHasNoDelimiter(text, delimiter, "");
      PlainText(text, after, delimiter, "");
      assert "" + text == text;
    }
  }

  lemma {:induction false} LineParsed(fields: seq<string>, delimiter: string)
    requires |fields| > 0 && (|fields| == 1 || Splits(delimiter))
    ensures Parse(Line(fields, delimiter), delimiter) == fields
    decreases |fields|
  {
    var first := Escape(fields[0], delimiter);
    if |fields| == 1 {
      FieldParsed(fields[0], "", delimiter);
      assert first + "" == first;
    } else {
      var after := delimiter + Line(fields[1..], delimiter);
      assert Escaped(fields, delimiter)[1..] == Escaped(fields[1..], delimiter);
      assert Line(fields, delimiter) == first + after;
      FieldParsed(fields[0], after, delimiter);
      assert after[1..] == Line(fields[1..], delimiter) && [after[0]] == delimiter;
      LineParsed(fields[1..], delimiter);
      assert [fields[0]] + fields[1..] == fields;
    }
  }

  lemma {:induction false} NeverSplit(rest: string, delimiter: string, field: string, quoted: bool)
    requires !Splits(delimiter)
    ensures |ParseFrom(rest, delimiter, field, quoted)| == 1
    decreases |rest|
  {
    if rest != "" {
      if quoted && rest[0] == QUOTE && |rest| > 1 && rest[1] == QUOTE {
        NeverSplit(rest[2..], delimiter, field + [QUOTE], true);
      } else if rest[0] == QUOTE {
        NeverSplit(rest[1..], delimiter, field, !quoted);
      } else {
        assert Splits([rest[0]]);
        NeverSplit(rest[1..], delimiter, field + [rest[0]], quoted);
      }
    }
  }

  /**
   * The round trip of a line, for every list of texts and every delimiter: one field always comes back,
   * several do exactly when the delimiter is a single character other than the quote, none never does.
   */
  lemma LineRoundTripIff(fields: seq<string>, delimiter: string)
    ensures Parse(Line(fields, delimiter), delimiter) == fields
       <==> |fields| == 1 || (|fields| > 1 && Splits(delimiter))
  {
    if |fields| == 1 || (|fields| > 1 && Splits(delimiter)) {
      LineParsed(fields, delimiter);
    } else if |fields| > 1 {
      NeverSplit(Line(fields, delimiter), delimiter, "", false);
    }
  }

  // ---------------------------------------------------------------- where characters come from

  /** The parser invents no characters. */
  lemma {:induction false} ParsedCharacters(rest: string, delimiter: string, field: string, quoted: bool, i: nat, c: char)
    requires i < |ParseFrom(rest, delimiter, field, quoted)| && c in ParseFrom(rest, delimiter, field, quoted)[i]
    ensures c in field || c in rest
    decreases |rest|
  {
    if rest != "" {
      if quoted && rest[0] == QUOTE && |rest| > 1 && rest[1] == QUOTE {
        ParsedCharacters(rest[2..], delimiter, field + [QUOTE], true, i, c);
      } else if rest[0] == QUOTE {
        ParsedCharacters(rest[1..], delimiter, field, !quoted, i, c);
      } else if !quoted && [rest[0]] == delimiter {
        if i > 0 { ParsedCharacters(rest[1..], delimiter, "", false, i - 1, c); }
      } else {
        ParsedCharacters(rest[1..], delimiter, field + [rest[0]], quoted, i, c);
      }
    }
  }

  lemma {:induction false} DoubledCharacters(text: string, c: char)
    ensures c in Doubled(text) <==> c in text
    decreases |text|
  {
    if text != "" {
      DoubledCharacters(text[1..], c);
      assert text == [text[0]] + text[1..];
    }
  }

  /** A line holds the characters of its fields, the delimiter and quotes. */
  lemma {:induction false} LineCharacters(fields: seq<string>, delimiter: string, c: char)
    requires c in Line(fields, delimiter) && c != QUOTE && c !in delimiter
    ensures exists i :: 0 <= i < |fields| && c in fields[i]
    decreases |fields|
  {
    if fields != [] {
      DoubledCharacters(fields[0], c);
      if c !in fields[0] {
        assert Escaped(fields, delimiter)[1..] == Escaped(fields[1..], delimiter);
        assert c in Line(fields[1..], delimiter);
        LineCharacters(fields[1..], delimiter, c);
        var i :| 0 <= i < |fields[1..]| && c in fields[1..][i];
        assert c in fields[i + 1];
      }
    }
  }
}

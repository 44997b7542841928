/**
 * The hashed text is JSON (packages/core/src/execution/job-key.ts:31-35): the literals, separators and strings
 * of RFC 8259 sections 3 to 7, without white space and with the shortest escapes.
 */
module JobKeyJson {
  import opened Common
  import Csv
  import opened JobKey
  import opened JobKeyText

  // ---------------------------------------------------------------- strings

  function HexValue(c: char): nat {
    if '0' <= c <= '9' then c as nat - '0' as nat
    else if 'a' <= c <= 'f' then c as nat - 'a' as nat + 10
    else 16
  }

  /** What the letter after a backslash stands for. */
  const SHORT := map['"' := '"', '\\' := '\\', 'b' := '\U{0008}', 'f' := '\U{000C}', 'n' := '\n', 'r' := '\r', 't' := '\t']

  /** The character that one piece of a string stands for; of the long escapes, those of the control characters. */
  function Denoted(piece: string): Option<char> {
    if |piece| == 1 && piece[0] != '"' && piece[0] != '\\' && piece[0] as int >= 32 then Some(piece[0])
    else if |piece| == 2 && piece[0] == '\\' && piece[1] in SHORT then Some(SHORT[piece[1]])
    else if |piece| == 6 && piece[..4] == "\\u00" && HexValue(piece[4]) < 2 && HexValue(piece[5]) < 16
    then Some((16 * HexValue(piece[4]) + HexValue(piece[5])) as char)
    else None
  }

  ghost predicate Shortest(piece: string, c: char) {
    Denoted(piece) == Some(c) && forall other :: Denoted(other) == Some(c) ==> |piece| <= |other|
  }

  lemma HexOfDigit(n: nat)
    requires n < 16
    ensures HexValue(HexDigit(n)) == n
  {
  }

  lemma PieceDenotes(c: char)
    ensures Denoted(EscapeChar(c)) == Some(c)
  {
    if |EscapeChar(c)| == 6 {
      HexOfDigit(c as int / 16);
      HexOfDigit(c as int % 16);
      assert EscapeChar(c)[..4] == "\\u00";
    }
  }

  /** Every character is written as the shortest piece that stands for it. */
  lemma PieceShortest(c: char)
    ensures Shortest(EscapeChar(c), c)
  {
    PieceDenotes(c);
    forall other | Denoted(other) == Some(c) ensures |EscapeChar(c)| <= |other| {
    }
  }

  function Pieces(s: string): seq<string> {
    if s == "" then [] else [EscapeChar(s[0])] + Pieces(s[1..])
  }

  function Quoted(s: string): string {
    "\"" + Csv.Join(Pieces(s), "") + "\""
  }

  lemma JoinFirst(parts: seq<string>, separator: string)
    requires |parts| > 1
    ensures Csv.Join(parts, separator) == parts[0] + separator + Csv.Join(parts[1..], separator)
  {
  }

  lemma PiecesNext(s: string, tail: string)
    requires s != ""
    ensures Escape(s, tail) == EscapeChar(s[0]) + Escape(s[1..], tail)
    ensures Csv.Join(Pieces(s), "") == EscapeChar(s[0]) + Csv.Join(Pieces(s[1..]), "")
  {
    hide EscapeChar;
    assert Pieces(s)[1..] == Pieces(s[1..]);
    if s[1..] == "" {
      assert Csv.Join(Pieces(s[1..]), "") == "";
    } else {
      JoinFirst(Pieces(s), "");
    }
  }

  lemma {:induction false} EscapeJoins(s: string, tail: string)
    ensures Escape(s, tail) == Csv.Join(Pieces(s), "") + "\"" + tail
  {
    hide EscapeChar;
    if s != "" {
      PiecesNext(s, tail);
      EscapeJoins(s[1..], tail);
      hide *;
      Regroup(EscapeChar(s[0]), "", Csv.Join(Pieces(s[1..]), ""), "\"", tail);
    }
  }

  lemma QuoteJoins(s: string, tail: string)
    ensures Quote(s, tail) == Quoted(s) + tail
  {
    EscapeJoins(s, tail);
  }

  // ---------------------------------------------------------------- values

  function Json(v: Value): string
    decreases v, 0
  {
    match v
    case Bool(b) => if b then "true" else "false"
    case Number(text) => if IsNumeral(text) then text else "null"
    case Str(s) => Quoted(s)
    case Array(elements) => "[" + Csv.Join(Texts(elements), ",") + "]"
    case Object(fields) => "{" + Csv.Join(Members(fields), ",") + "}"
    case _ => "null"
  }

  function Texts(elements: seq<Value>): seq<string>
    decreases elements, 1
  {
    if elements == [] then [] else [Json(elements[0])] + Texts(elements[1..])
  }

  function Members(fields: seq<Field>): seq<string>
    decreases fields, 1
  {
    if fields == [] then [] else [Quoted(fields[0].key) + ":" + Json(fields[0].value)] + Members(fields[1..])
  }

  lemma {:induction false} PrintIsJson(v: Value, tail: string)
    ensures Print(v, tail) == Json(v) + tail
    decreases v, 0
  {
    hide Quote, Quoted, IsNumeral;
    match v
    case Str(s) => QuoteJoins(s, tail);
    case Array(elements) => if elements != [] { ElementsAreJson(elements, tail); }
    case Object(fields) => if fields != [] { FieldsAreJson(fields, tail); }
    case _ =>
  }

  lemma Regroup(first: string, comma: string, rest: string, close: string, tail: string)
    ensures first + (comma + (rest + close + tail)) == first + comma + rest + close + tail
  {
  }

  lemma TextsNext(elements: seq<Value>, tail: string)
    requires elements != []
    ensures PrintElements(elements, tail) == "," + Print(elements[0], PrintElements(elements[1..], tail))
    ensures |elements| == 1 ==> Csv.Join(Texts(elements), ",") == Json(elements[0]) && PrintElements(elements[1..], tail) == "]" + tail
    ensures |elements| > 1 ==> Csv.Join(Texts(elements), ",") == Json(elements[0]) + "," + Csv.Join(Texts(elements[1..]), ",")
  {
    hide Print, Json;
    assert Texts(elements)[1..] == Texts(elements[1..]);
    if |elements| > 1 { JoinFirst(Texts(elements), ","); }
  }

  lemma {:induction false} ElementsAreJson(elements: seq<Value>, tail: string)
    requires elements != []
    ensures Print(elements[0], PrintElements(elements[1..], tail)) == Csv.Join(Texts(elements), ",") + "]" + tail
    decreases elements, 1
  {
    hide *;
    var after := PrintElements(elements[1..], tail);
    PrintIsJson(elements[0], after);
    TextsNext(elements, tail);
    if |elements| > 1 {
      ElementsAreJson(elements[1..], tail);
      TextsNext(elements[1..], tail);
      Regroup(Json(elements[0]), ",", Csv.Join(Texts(elements[1..]), ","), "]", tail);
    } else {
      Regroup(Json(elements[0]), "", "", "]", tail);
    }
  }

  lemma MembersNext(fields: seq<Field>, tail: string)
    requires fields != []
    ensures PrintFields(fields, tail) == "," + PrintField(fields[0], PrintFields(fields[1..], tail))
    ensures |fields| == 1 ==> PrintFields(fields[1..], tail) == "}" + tail
    ensures var member := Quoted(fields[0].key) + ":" + Json(fields[0].value);
            Csv.Join(Members(fields), ",") == if |fields| == 1 then member else member + "," + Csv.Join(Members(fields[1..]), ",")
  {
    hide PrintField, Json, Quoted;
    assert Members(fields)[1..] == Members(fields[1..]);
    if |fields| > 1 { JoinFirst(Members(fields), ","); }
  }

  lemma FieldIsJson(f: Field, after: string)
    requires Print(f.value, after) == Json(f.value) + after
    ensures PrintField(f, after) == Quoted(f.key) + ":" + Json(f.value) + after
  {
    QuoteJoins(f.key, ":" + Print(f.value, after));
    hide Print, Json, Quote, Quoted;
    Regroup(Quoted(f.key), ":", Json(f.value), "", after);
    assert Json(f.value) + "" == Json(f.value);
  }

  lemma {:induction false} FieldsAreJson(fields: seq<Field>, tail: string)
    requires fields != []
    ensures PrintField(fields[0], PrintFields(fields[1..], tail)) == Csv.Join(Members(fields), ",") + "}" + tail
    decreases fields, 1
  {
    hide *;
    var after := PrintFields(fields[1..], tail);
    var member := Quoted(fields[0].key) + ":" + Json(fields[0].value);
    PrintIsJson(fields[0].value, after);
    FieldIsJson(fields[0], after);
    MembersNext(fields, tail);
    if |fields| > 1 {
      FieldsAreJson(fields[1..], tail);
      MembersNext(fields[1..], tail);
      Regroup(member, ",", Csv.Join(Members(fields[1..]), ","), "}", tail);
    } else {
      Regroup(member, "", "", "}", tail);
    }
  }

  /** The text that is hashed is the JSON of the canonical parameters. */
  lemma PreHashIsJson(params: Value)
    requires PreHash(params).Ok?
    ensures PreHash(params).value == Json(Canonicalize(params))
  {
    PrintIsJson(Canonicalize(params), "");
    hide Print, Json;
    assert Json(Canonicalize(params)) + "" == Json(Canonicalize(params));
  }
}

/**
 * The text that is hashed: JSON.stringify of the canonical parameters
 * (packages/core/src/execution/job-key.ts:31-35).  Printing is in continuation style: each function
 * prints its argument in front of the text that follows.
 */
module JobKeyText {
  import opened Common
  import opened JobKey

  function HexDigit(n: nat): char
    requires n < 16
  {
    "0123456789abcdef"[n]
  }

  /** The JSON escape of one character. */
  function EscapeChar(c: char): string {
    if c == '\"' then "\\\""
    else if c == '\\' then "\\\\"
    else if c == '\U{0008}' then "\\b"
    else if c == '\U{000C}' then "\\f"
    else if c == '\n' then "\\n"
    else if c == '\r' then "\\r"
    else if c == '\t' then "\\t"
    else if c as int < 0x20 then "\\u00" + [HexDigit(c as int / 16), HexDigit(c as int % 16)]
    else [c]
  }

  function Escape(s: string, tail: string): string {
    if s == "" then "\"" + tail else EscapeChar(s[0]) + Escape(s[1..], tail)
  }

  function Quote(s: string, tail: string): string {
    "\"" + Escape(s, tail)
  }

  predicate NumeralChar(c: char) {
    '0' <= c <= '9' || c == '-' || c == '+' || c == '.' || c == 'e'
  }

  /** The text of a finite number; NaN and the infinities have other texts. */
  predicate IsNumeral(text: string) {
    && text != "" && (text[0] == '-' || '0' <= text[0] <= '9')
    && forall i :: 0 <= i < |text| ==> NumeralChar(text[i])
  }

  function Print(v: Value, tail: string): string
    decreases v, 0
  {
    match v
    case Bool(b) => (if b then "true" else "false") + tail
    case Number(text) => (if IsNumeral(text) then text else "null") + tail
    case Str(s) => Quote(s, tail)
    case Array(elements) => "[" + (if elements == [] then "]" + tail else Print(elements[0], PrintElements(elements[1..], tail)))
    case Object(fields) => "{" + (if fields == [] then "}" + tail else PrintField(fields[0], PrintFields(fields[1..], tail)))
    case _ => "null" + tail
  }

  function PrintElements(elements: seq<Value>, tail: string): string
    decreases elements, 1
  {
    if elements == [] then "]" + tail else "," + Print(elements[0], PrintElements(elements[1..], tail))
  }

  function PrintField(f: Field, tail: string): string
    decreases f, 1
  {
    Quote(f.key, ":" + Print(f.value, tail))
  }

  function PrintFields(fields: seq<Field>, tail: string): string
    decreases fields, 1
  {
    if fields == [] then "}" + tail else "," + PrintField(fields[0], PrintFields(fields[1..], tail))
  }

  /** canonicalJobKey up to the hash; a BigInt anywhere throws, and so does hashing the text of nothing. */
  function PreHash(params: Value): Result<string, ()> {
    if HasBigInt(params) || Canonicalize(params).Undefined? then Thrown(()) else Ok(Print(Canonicalize(params), ""))
  }

  // ---------------------------------------------------------------- printing is unambiguous

  /** Stands for whatever is printed as null. */
  const NAN := "NaN"

  /** What canonicalize produces when everything printed as null is one value. */
  ghost predicate Canonical(v: Value) {
    match v
    case Bool(_) => true
    case Number(text) => IsNumeral(text) || text == NAN
    case Str(_) => true
    case Array(elements) => forall i :: 0 <= i < |elements| ==> Canonical(elements[i])
    case Object(fields) => forall i :: 0 <= i < |fields| ==> Canonical(fields[i].value)
    case _ => false
  }

  /** Text that can follow a printed value. */
  ghost predicate Follows(tail: string) {
    tail == "" || tail[0] == ',' || tail[0] == ']' || tail[0] == '}'
  }

  lemma EscapeCharInjective(c: char, d: char, x: string, y: string)
    requires EscapeChar(c) + x == EscapeChar(d) + y
    ensures c == d && x == y
  {
    var (a, b) := (EscapeChar(c) + x, EscapeChar(d) + y);
    assert a[0] == EscapeChar(c)[0] && b[0] == EscapeChar(d)[0];
    if |EscapeChar(c)| > 1 && |EscapeChar(d)| > 1 {
      assert a[1] == EscapeChar(c)[1] && b[1] == EscapeChar(d)[1];
      if |EscapeChar(c)| == 6 && |EscapeChar(d)| == 6 {
        assert a[4] == EscapeChar(c)[4] && b[4] == EscapeChar(d)[4];
        assert a[5] == EscapeChar(c)[5] && b[5] == EscapeChar(d)[5];
        HexInjective(c as int / 16, d as int / 16);
        HexInjective(c as int % 16, d as int % 16);
        assert c as int == d as int;
      }
    }
    assert c == d;
    assert x == a[|EscapeChar(c)|..] && y == b[|EscapeChar(d)|..];
  }

  lemma HexInjective(m: nat, n: nat)
    requires m < 16 && n < 16 && HexDigit(m) == HexDigit(n)
    ensures m == n
  {
  }

  lemma EscapeStarts(s: string, tail: string)
    ensures Escape(s, tail) != "" && (Escape(s, tail)[0] == '\"' <==> s == "")
  {
  }

  lemma {:induction false} EscapeInjective(s: string, t: string, x: string, y: string)
    requires Escape(s, x) == Escape(t, y)
    ensures s == t && x == y
  {
    EscapeStarts(s, x);
    EscapeStarts(t, y);
    if s != "" {
      EscapeCharInjective(s[0], t[0], Escape(s[1..], x), Escape(t[1..], y));
      EscapeInjective(s[1..], t[1..], x, y);
      assert s == [s[0]] + s[1..] && t == [t[0]] + t[1..];
    } else {
      assert x == ("\"" + x)[1..] && y == ("\"" + y)[1..];
    }
  }

  lemma QuoteInjective(s: string, t: string, x: string, y: string)
    requires Quote(s, x) == Quote(t, y)
    ensures s == t && x == y
  {
    assert Escape(s, x) == Quote(s, x)[1..] && Escape(t, y) == Quote(t, y)[1..];
    EscapeInjective(s, t, x, y);
  }

  lemma NumeralInjective(a: string, b: string, x: string, y: string)
    requires IsNumeral(a) && IsNumeral(b) && a + x == b + y && Follows(x) && Follows(y)
    ensures a == b && x == y
  {
    var s := a + x;
    assert forall i :: 0 <= i < |a| ==> NumeralChar(s[i]);
    assert forall i :: 0 <= i < |b| ==> NumeralChar(s[i]);
    assert |a| < |s| ==> s[|a|] == x[0] && !NumeralChar(s[|a|]);
    assert |b| < |s| ==> s[|b|] == y[0] && !NumeralChar(s[|b|]);
    assert a == s[..|a|] && b == s[..|b|] && x == s[|a|..] && y == s[|b|..];
  }

  lemma PrintStarts(v: Value, tail: string)
    requires Canonical(v)
    ensures Print(v, tail) != ""
    ensures match v
            case Bool(b) => Print(v, tail)[0] == (if b then 't' else 'f')
            case Number(text) =>
              if IsNumeral(text) then Print(v, tail)[0] == '-' || '0' <= Print(v, tail)[0] <= '9' else Print(v, tail)[0] == 'n'
            case Str(_) => Print(v, tail)[0] == '\"'
            case Array(_) => Print(v, tail)[0] == '['
            case Object(_) => Print(v, tail)[0] == '{'
            case _ => true
  {
  }

  lemma ListsFollow(elements: seq<Value>, fields: seq<Field>, tail: string)
    ensures Follows(PrintElements(elements, tail)) && PrintElements(elements, tail) != ""
    ensures Follows(PrintFields(fields, tail)) && PrintFields(fields, tail) != ""
    ensures PrintElements(elements, tail)[0] == (if elements == [] then ']' else ',')
    ensures PrintFields(fields, tail)[0] == (if fields == [] then '}' else ',')
  {
  }

  /** Equal printed texts come from equal values followed by equal text. */
  lemma {:induction false} PrintInjective(v: Value, w: Value, x: string, y: string)
    requires Canonical(v) && Canonical(w) && Follows(x) && Follows(y) && Print(v, x) == Print(w, y)
    ensures v == w && x == y
    decreases v, 0
  {
    PrintStarts(v, x);
    PrintStarts(w, y);
    match v
    case Bool(b) =>
      var n := if b then 4 else 5;
      assert x == Print(v, x)[n..] && y == Print(w, y)[n..];
    case Number(text) =>
      if IsNumeral(text) {
        NumeralInjective(text, w.text, x, y);
      } else {
        assert x == Print(v, x)[4..] && y == Print(w, y)[4..];
      }
    case Str(s) => QuoteInjective(s, w.s, x, y);
    case Array(a) => ArraysInjective(a, w.elements, x, y);
    case Object(a) => ObjectsInjective(a, w.fields, x, y);
  }

  lemma {:induction false} ArraysInjective(a: seq<Value>, b: seq<Value>, x: string, y: string)
    requires Canonical(Array(a)) && Canonical(Array(b)) && Follows(x) && Follows(y) && Print(Array(a), x) == Print(Array(b), y)
    ensures a == b && x == y
    decreases a, 1
  {
    var (s, t) := (Print(Array(a), x)[1..], Print(Array(b), y)[1..]);
    assert s == if a == [] then "]" + x else Print(a[0], PrintElements(a[1..], x));
    assert t == if b == [] then "]" + y else Print(b[0], PrintElements(b[1..], y));
    if a != [] { PrintStarts(a[0], PrintElements(a[1..], x)); }
    if b != [] { PrintStarts(b[0], PrintElements(b[1..], y)); }
    if a == [] {
      assert b == [];
      assert x == s[1..] && y == t[1..];
    } else {
      assert b != [];
      ListsFollow(a[1..], [], x);
      ListsFollow(b[1..], [], y);
      PrintInjective(a[0], b[0], PrintElements(a[1..], x), PrintElements(b[1..], y));
      ElementsInjective(a[1..], b[1..], x, y);
      assert a == [a[0]] + a[1..] && b == [b[0]] + b[1..];
    }
  }

  lemma {:induction false} ElementsInjective(a: seq<Value>, b: seq<Value>, x: string, y: string)
    requires forall i :: 0 <= i < |a| ==> Canonical(a[i])
    requires forall i :: 0 <= i < |b| ==> Canonical(b[i])
    requires Follows(x) && Follows(y) && PrintElements(a, x) == PrintElements(b, y)
    ensures a == b && x == y
    decreases a, 1
  {
    ListsFollow(a, [], x);
    ListsFollow(b, [], y);
    var (s, t) := (PrintElements(a, x)[1..], PrintElements(b, y)[1..]);
    if a == [] {
      assert x == s && y == t;
    } else {
      assert s == Print(a[0], PrintElements(a[1..], x)) && t == Print(b[0], PrintElements(b[1..], y));
      ListsFollow(a[1..], [], x);
      ListsFollow(b[1..], [], y);
      PrintInjective(a[0], b[0], PrintElements(a[1..], x), PrintElements(b[1..], y));
      ElementsInjective(a[1..], b[1..], x, y);
      assert a == [a[0]] + a[1..] && b == [b[0]] + b[1..];
    }
  }

  lemma {:induction false} FieldInjective(f: Field, g: Field, x: string, y: string)
    requires Canonical(f.value) && Canonical(g.value) && Follows(x) && Follows(y) && PrintField(f, x) == PrintField(g, y)
    ensures f == g && x == y
    decreases f, 1
  {
    var (s, t) := (":" + Print(f.value, x), ":" + Print(g.value, y));
    QuoteInjective(f.key, g.key, s, t);
    assert s[1..] == Print(f.value, x) && t[1..] == Print(g.value, y);
    PrintInjective(f.value, g.value, x, y);
  }

  lemma {:induction false} ObjectsInjective(a: seq<Field>, b: seq<Field>, x: string, y: string)
    requires Canonical(Object(a)) && Canonical(Object(b)) && Follows(x) && Follows(y) && Print(Object(a), x) == Print(Object(b), y)
    ensures a == b && x == y
    decreases a, 2
  {
    var (s, t) := (Print(Object(a), x)[1..], Print(Object(b), y)[1..]);
    assert s == if a == [] then "}" + x else PrintField(a[0], PrintFields(a[1..], x));
    assert t == if b == [] then "}" + y else PrintField(b[0], PrintFields(b[1..], y));
    assert a != [] ==> s[0] == '\"';
    assert b != [] ==> t[0] == '\"';
    if a == [] {
      assert x == s[1..] && y == t[1..];
    } else {
      ListsFollow([], a[1..], x);
      ListsFollow([], b[1..], y);
      FieldInjective(a[0], b[0], PrintFields(a[1..], x), PrintFields(b[1..], y));
      FieldsInjective(a[1..], b[1..], x, y);
      assert a == [a[0]] + a[1..] && b == [b[0]] + b[1..];
    }
  }

  lemma {:induction false} FieldsInjective(a: seq<Field>, b: seq<Field>, x: string, y: string)
    requires forall i :: 0 <= i < |a| ==> Canonical(a[i].value)
    requires forall i :: 0 <= i < |b| ==> Canonical(b[i].value)
    requires Follows(x) && Follows(y) && PrintFields(a, x) == PrintFields(b, y)
    ensures a == b && x == y
    decreases a, 2
  {
    ListsFollow([], a, x);
    ListsFollow([], b, y);
    var (s, t) := (PrintFields(a, x)[1..], PrintFields(b, y)[1..]);
    if a == [] {
      assert x == s && y == t;
    } else {
      assert s == PrintField(a[0], PrintFields(a[1..], x)) && t == PrintField(b[0], PrintFields(b[1..], y));
      ListsFollow([], a[1..], x);
      ListsFollow([], b[1..], y);
      FieldInjective(a[0], b[0], PrintFields(a[1..], x), PrintFields(b[1..], y));
      FieldsInjective(a[1..], b[1..], x, y);
      assert a == [a[0]] + a[1..] && b == [b[0]] + b[1..];
    }
  }

  // ---------------------------------------------------------------- what is printed as null

  predicate IsNothing(v: Value) {
    v.Undefined? || v.Null?
  }

  /** The value with everything that is printed as null turned into one non-finite number. */
  ghost function AsPrinted(v: Value, nan: string): Value
    decreases v, 0
  {
    match v
    case Number(text) => if IsNumeral(text) then v else Number(nan)
    case Array(elements) => Array(ElementsAsPrinted(elements, nan))
    case Object(fields) => Object(FieldsAsPrinted(fields, nan))
    case _ => v
  }

  /** In a list nothing is printed as null. */
  ghost function ElementsAsPrinted(elements: seq<Value>, nan: string): (printed: seq<Value>)
    ensures |printed| == |elements|
    ensures forall i :: 0 <= i < |elements| ==>
      printed[i] == if IsNothing(elements[i]) then Number(nan) else AsPrinted(elements[i], nan)
    decreases elements, 1
  {
    if elements == [] then [] else
    [if IsNothing(elements[0]) then Number(nan) else AsPrinted(elements[0], nan)] + ElementsAsPrinted(elements[1..], nan)
  }

  /** A field with nothing in it is not printed at all. */
  ghost function FieldsAsPrinted(fields: seq<Field>, nan: string): (printed: seq<Field>)
    ensures |printed| == |fields|
    ensures forall i :: 0 <= i < |fields| ==> printed[i] == Field(fields[i].key, AsPrinted(fields[i].value, nan))
    decreases fields, 1
  {
    if fields == [] then [] else [Field(fields[0].key, AsPrinted(fields[0].value, nan))] + FieldsAsPrinted(fields[1..], nan)
  }

  ghost predicate SamePrint(a: Value, b: Value) {
    forall tail :: Print(a, tail) == Print(b, tail)
  }

  ghost predicate Alike(a: seq<Field>, b: seq<Field>) {
    |a| == |b| && forall i :: 0 <= i < |a| ==> a[i].key == b[i].key && SamePrint(a[i].value, b[i].value)
  }

  lemma {:induction false} InsertAlike(f: Field, g: Field, a: seq<Field>, b: seq<Field>)
    requires f.key == g.key && SamePrint(f.value, g.value) && Alike(a, b)
    ensures Alike(InsertSorted(f, a), InsertSorted(g, b))
    decreases |a|
  {
    hide SamePrint, Less;
    if a != [] && !Less(f.key, a[0].key) { InsertAlike(f, g, a[1..], b[1..]); }
  }

  lemma {:induction false} SortAlike(a: seq<Field>, b: seq<Field>)
    requires Alike(a, b)
    ensures Alike(SortFields(a), SortFields(b))
    decreases |a|
  {
    hide SamePrint;
    if a != [] {
      SortAlike(a[1..], b[1..]);
      InsertAlike(a[0], b[0], SortFields(a[1..]), SortFields(b[1..]));
    }
  }

  lemma {:induction false} AddAlike(a: seq<Field>, b: seq<Field>, f: Field, g: Field)
    requires f.key == g.key && SamePrint(f.value, g.value) && Alike(a, b)
    ensures Alike(AddProperty(a, f), AddProperty(b, g))
    decreases |a|
  {
    hide SamePrint, IsIndex, IndexBefore;
    if IsIndex(f.key) && a != [] && IsIndex(a[0].key) && !IndexBefore(f.key, a[0].key) { AddAlike(a[1..], b[1..], f, g); }
  }

  lemma {:induction false} AddAllAlike(own: seq<Field>, own': seq<Field>, a: seq<Field>, b: seq<Field>)
    requires Alike(own, own') && Alike(a, b)
    ensures Alike(AddAll(own, a), AddAll(own', b))
    decreases |a|
  {
    hide SamePrint;
    if a != [] {
      AddAlike(own, own', a[0], b[0]);
      AddAllAlike(AddProperty(own, a[0]), AddProperty(own', b[0]), a[1..], b[1..]);
    }
  }

  lemma FieldPrintsAlike(f: Field, g: Field, tail: string)
    requires f.key == g.key && SamePrint(f.value, g.value)
    ensures PrintField(f, tail) == PrintField(g, tail)
  {
    hide Quote;
    assert Print(f.value, tail) == Print(g.value, tail);
  }

  lemma {:induction false} FieldsPrintAlike(a: seq<Field>, b: seq<Field>, tail: string)
    requires Alike(a, b)
    ensures PrintFields(a, tail) == PrintFields(b, tail)
    decreases |a|
  {
    hide PrintField, SamePrint;
    if a != [] {
      FieldsPrintAlike(a[1..], b[1..], tail);
      FieldPrintsAlike(a[0], b[0], PrintFields(a[1..], tail));
    }
  }

  lemma ObjectsPrintAlike(a: seq<Field>, b: seq<Field>)
    requires Alike(a, b)
    ensures SamePrint(Object(a), Object(b))
  {
    hide PrintField, PrintFields;
    forall tail ensures Print(Object(a), tail) == Print(Object(b), tail) {
      if a != [] {
        FieldsPrintAlike(a[1..], b[1..], tail);
        FieldPrintsAlike(a[0], b[0], PrintFields(a[1..], tail));
      }
    }
  }

  lemma {:induction false} ElementsPrintAlike(a: seq<Value>, b: seq<Value>, tail: string)
    requires |a| == |b| && forall i :: 0 <= i < |a| ==> SamePrint(a[i], b[i])
    ensures PrintElements(a, tail) == PrintElements(b, tail)
    decreases |a|
  {
    if a != [] {
      ElementsPrintAlike(a[1..], b[1..], tail);
      assert SamePrint(a[0], b[0]);
    }
  }

  lemma ArraysPrintAlike(a: seq<Value>, b: seq<Value>)
    requires |a| == |b| && forall i :: 0 <= i < |a| ==> SamePrint(a[i], b[i])
    ensures SamePrint(Array(a), Array(b))
  {
    hide PrintElements;
    forall tail ensures Print(Array(a), tail) == Print(Array(b), tail) {
      if a != [] {
        ElementsPrintAlike(a[1..], b[1..], tail);
        assert SamePrint(a[0], b[0]);
      }
    }
  }

  lemma NullPrintsAlike(text: string, nan: string)
    requires !IsNumeral(text) && !IsNumeral(nan)
    ensures SamePrint(Number(text), Number(nan)) && SamePrint(Undefined, Number(nan))
  {
  }

  /** The one number in place of everything printed as null does not show in the text. */
  lemma {:induction false} PrintedAlike(v: Value, nan: string)
    requires !IsNumeral(nan)
    ensures SamePrint(Canonicalize(v), Canonicalize(AsPrinted(v, nan)))
    ensures Canonicalize(v).Undefined? <==> Canonicalize(AsPrinted(v, nan)).Undefined?
    ensures HasBigInt(AsPrinted(v, nan)) == HasBigInt(v)
    decreases v
  {
    match v
    case Number(text) => if !IsNumeral(text) { NullPrintsAlike(text, nan); }
    case Array(elements) =>
      var printed := ElementsAsPrinted(elements, nan);
      forall i | 0 <= i < |elements|
        ensures SamePrint(Canonicalize(elements[i]), Canonicalize(printed[i])) && HasBigInt(printed[i]) == HasBigInt(elements[i])
      {
        PrintedAlike(elements[i], nan);
        NullPrintsAlike(nan, nan);
      }
      ElementsAlike(elements, printed);
    case Object(fields) =>
      var printed := FieldsAsPrinted(fields, nan);
      forall i | 0 <= i < |fields|
        ensures SamePrint(Canonicalize(fields[i].value), Canonicalize(printed[i].value))
        ensures Canonicalize(fields[i].value).Undefined? <==> Canonicalize(printed[i].value).Undefined?
        ensures HasBigInt(printed[i].value) == HasBigInt(fields[i].value)
      {
        PrintedAlike(fields[i].value, nan);
      }
      FieldsAlike(fields, printed);
    case _ =>
  }

  lemma ElementsAlike(a: seq<Value>, b: seq<Value>)
    requires |a| == |b| && forall i :: 0 <= i < |a| ==> SamePrint(Canonicalize(a[i]), Canonicalize(b[i]))
    requires forall i :: 0 <= i < |a| ==> HasBigInt(b[i]) == HasBigInt(a[i])
    ensures SamePrint(Canonicalize(Array(a)), Canonicalize(Array(b))) && HasBigInt(Array(a)) == HasBigInt(Array(b))
  {
    hide SamePrint, Print;
    CanonicalEach(a);
    CanonicalEach(b);
    ArraysPrintAlike(CanonicalElements(a), CanonicalElements(b));
  }

  lemma FieldsAlike(a: seq<Field>, b: seq<Field>)
    requires |a| == |b| && forall i :: 0 <= i < |a| ==> a[i].key == b[i].key
    requires forall i :: 0 <= i < |a| ==> SamePrint(Canonicalize(a[i].value), Canonicalize(b[i].value))
    requires forall i :: 0 <= i < |a| ==> (Canonicalize(a[i].value).Undefined? <==> Canonicalize(b[i].value).Undefined?)
    requires forall i :: 0 <= i < |a| ==> HasBigInt(b[i].value) == HasBigInt(a[i].value)
    ensures SamePrint(Canonicalize(Object(a)), Canonicalize(Object(b))) && HasBigInt(Object(a)) == HasBigInt(Object(b))
  {
    hide SamePrint, Print, Alike, Kept, SortFields, AddAll;
    KeptAlike(a, b);
    SortAlike(Kept(a), Kept(b));
    NoneAlike();
    AddAllAlike([], [], SortFields(Kept(a)), SortFields(Kept(b)));
    ObjectsPrintAlike(AddAll([], SortFields(Kept(a))), AddAll([], SortFields(Kept(b))));
  }

  lemma NoneAlike()
    ensures Alike([], [])
  {
  }

  lemma {:induction false} CanonicalEach(elements: seq<Value>)
    ensures |CanonicalElements(elements)| == |elements|
    ensures forall i :: 0 <= i < |elements| ==> CanonicalElements(elements)[i] == Canonicalize(elements[i])
  {
    hide Canonicalize;
    if elements != [] { CanonicalEach(elements[1..]); }
  }

  lemma {:induction false} KeptAlike(a: seq<Field>, b: seq<Field>)
    requires |a| == |b| && forall i :: 0 <= i < |a| ==> a[i].key == b[i].key
    requires forall i :: 0 <= i < |a| ==> SamePrint(Canonicalize(a[i].value), Canonicalize(b[i].value))
    requires forall i :: 0 <= i < |a| ==> (Canonicalize(a[i].value).Undefined? <==> Canonicalize(b[i].value).Undefined?)
    ensures Alike(Kept(a), Kept(b))
    decreases |a|
  {
    hide SamePrint, Canonicalize;
    if a != [] { KeptAlike(a[1..], b[1..]); }
  }

  // ---------------------------------------------------------------- the key

  lemma {:induction false} PrintedKeysDistinct(v: Value, nan: string)
    requires KeysDistinct(v)
    ensures KeysDistinct(AsPrinted(v, nan))
    decreases v
  {
    match v
    case Array(elements) =>
      forall i | 0 <= i < |elements| ensures KeysDistinct(ElementsAsPrinted(elements, nan)[i]) {
        PrintedKeysDistinct(elements[i], nan);
      }
    case Object(fields) =>
      forall i | 0 <= i < |fields| ensures KeysDistinct(FieldsAsPrinted(fields, nan)[i].value) {
        PrintedKeysDistinct(fields[i].value, nan);
      }
    case _ =>
  }

  lemma {:induction false} PrintedCanonical(v: Value)
    requires KeysDistinct(v) && !HasBigInt(v) && !IsNothing(v)
    ensures Canonical(Canonicalize(AsPrinted(v, NAN)))
    decreases v
  {
    match v
    case Array(elements) =>
      forall i | 0 <= i < |elements| && !IsNothing(elements[i]) ensures Canonical(Canonicalize(AsPrinted(elements[i], NAN))) {
        PrintedCanonical(elements[i]);
      }
      PrintedListCanonical(elements);
    case Object(fields) =>
      forall i | 0 <= i < |fields| && !IsNothing(fields[i].value)
        ensures Canonical(Canonicalize(AsPrinted(fields[i].value, NAN)))
      {
        PrintedCanonical(fields[i].value);
      }
      PrintedKeysDistinct(v, NAN);
      PrintedRecordCanonical(fields);
    case _ =>
  }

  lemma PrintedListCanonical(elements: seq<Value>)
    requires forall i :: 0 <= i < |elements| && !IsNothing(elements[i]) ==> Canonical(Canonicalize(AsPrinted(elements[i], NAN)))
    ensures Canonical(Canonicalize(AsPrinted(Array(elements), NAN)))
  {
    var printed := ElementsAsPrinted(elements, NAN);
    CanonicalEach(printed);
    hide AsPrinted;
    forall i | 0 <= i < |elements| ensures Canonical(Canonicalize(printed[i])) {
    }
    PrintedArray(elements);
  }

  lemma PrintedArray(elements: seq<Value>)
    ensures AsPrinted(Array(elements), NAN) == Array(ElementsAsPrinted(elements, NAN))
  {
  }

  lemma PrintedRecordCanonical(fields: seq<Field>)
    requires KeysDistinct(AsPrinted(Object(fields), NAN))
    requires forall i :: 0 <= i < |fields| && !IsNothing(fields[i].value) ==> Canonical(Canonicalize(AsPrinted(fields[i].value, NAN)))
    ensures Canonical(Canonicalize(AsPrinted(Object(fields), NAN)))
  {
    var printed := FieldsAsPrinted(fields, NAN);
    var own := AddAll([], SortFields(Kept(printed)));
    CanonicalFields(printed);
    KeptMembers(printed);
    hide SortFields, Kept, AddAll;
    forall k | 0 <= k < |own| ensures Canonical(own[k].value) {
      assert own[k] in Kept(printed);
      var i :| 0 <= i < |printed| && KeptAs(printed[i], own[k]);
    }
  }

  /** What the hashed text says: the meaning, but that everything printed as null is told from nothing only. */
  ghost function PrintedMeaning(v: Value): Meaning {
    Means(AsPrinted(v, NAN))
  }

  lemma NanIsNoNumeral()
    ensures !IsNumeral(NAN) && !IsNumeral("Infinity")
  {
  }

  /**
   * For all parameters: there is no text exactly for a BigInt at any depth, and for null or undefined itself;
   * and two parameter values are hashed from the same text exactly if what is printed of them means the same.
   * Keys count in any order, fields with null or undefined count as absent, dates as their ISO texts, and a
   * non-finite number, or a null in a list, as a printed null.
   */
  lemma PreHashPrintedMeaning(v: Value, w: Value)
    requires KeysDistinct(v) && KeysDistinct(w)
    ensures PreHash(v).Ok? <==> !HasBigInt(v) && !IsNothing(v)
    ensures PreHash(v).Ok? && PreHash(w).Ok? ==> (PreHash(v) == PreHash(w) <==> PrintedMeaning(v) == PrintedMeaning(w))
  {
    NothingCanonical(v);
    NothingCanonical(w);
    NanIsNoNumeral();
    if PreHash(v).Ok? && PreHash(w).Ok? {
      PrintedAlike(v, NAN);
      PrintedAlike(w, NAN);
      var (a, b) := (AsPrinted(v, NAN), AsPrinted(w, NAN));
      PrintedKeysDistinct(v, NAN);
      PrintedKeysDistinct(w, NAN);
      PrintedCanonical(v);
      PrintedCanonical(w);
      hide Print, AsPrinted, Canonicalize;
      assert Print(Canonicalize(v), "") == Print(Canonicalize(a), "") && Print(Canonicalize(w), "") == Print(Canonicalize(b), "");
      if PreHash(v) == PreHash(w) {
        PrintInjective(Canonicalize(a), Canonicalize(b), "", "");
        CanonicalKeepsMeaning(a);
        CanonicalKeepsMeaning(b);
      }
      if Means(a) == Means(b) {
        MeaningFixesCanonical(a, b);
      }
    }
  }

  lemma NothingCanonical(v: Value)
    ensures Canonicalize(v).Undefined? <==> IsNothing(v)
  {
  }

  // ---------------------------------------------------------------- which values collide

  /** Something in the value is printed as null: a non-finite number anywhere, or nothing in a list. */
  ghost predicate PrintsNull(v: Value) {
    match v
    case Number(text) => !IsNumeral(text)
    case Array(elements) => exists i :: 0 <= i < |elements| && (IsNothing(elements[i]) || PrintsNull(elements[i]))
    case Object(fields) => exists i :: 0 <= i < |fields| && PrintsNull(fields[i].value)
    case _ => false
  }

  /** The number is said somewhere in the meaning. */
  ghost predicate SaysNumber(m: Meaning, text: string) {
    match m
    case Numeral(t) => t == text
    case List(elements) => exists i :: 0 <= i < |elements| && SaysNumber(elements[i], text)
    case Record(fields) => exists key :: key in fields && SaysNumber(fields[key], text)
    case _ => false
  }

  /** A printed null is said by the number put in its place, and that number is said nowhere else. */
  lemma {:induction false} PrintedNullSaid(v: Value, nan: string, text: string)
    requires KeysDistinct(v) && !IsNumeral(nan) && !IsNumeral(text)
    ensures SaysNumber(Means(AsPrinted(v, nan)), text) <==> text == nan && PrintsNull(v)
    decreases v
  {
    match v
    case Array(elements) =>
      forall i | 0 <= i < |elements|
        ensures SaysNumber(Means(AsPrinted(elements[i], nan)), text) <==> text == nan && PrintsNull(elements[i])
      {
        PrintedNullSaid(elements[i], nan, text);
      }
      SaidInList(elements, nan, text);
    case Object(fields) =>
      PrintedKeysDistinct(v, nan);
      forall i | 0 <= i < |fields|
        ensures SaysNumber(Means(AsPrinted(fields[i].value, nan)), text) <==> text == nan && PrintsNull(fields[i].value)
      {
        PrintedNullSaid(fields[i].value, nan, text);
      }
      SaidInFields(FieldsAsPrinted(fields, nan), text);
    case _ =>
  }

  lemma SaidInList(elements: seq<Value>, nan: string, text: string)
    requires forall i :: 0 <= i < |elements| ==>
      (SaysNumber(Means(AsPrinted(elements[i], nan)), text) <==> text == nan && PrintsNull(elements[i]))
    ensures SaysNumber(Means(Array(ElementsAsPrinted(elements, nan))), text) <==> text == nan && PrintsNull(Array(elements))
  {
    var printed := ElementsAsPrinted(elements, nan);
    var m := Means(Array(printed)).elements;
    hide AsPrinted;
    forall i | 0 <= i < |elements|
      ensures SaysNumber(m[i], text) <==> text == nan && (IsNothing(elements[i]) || PrintsNull(elements[i]))
    {
      assert m[i] == Means(printed[i]);
      if IsNothing(elements[i]) { assert m[i] == Numeral(nan); }
    }
  }

  lemma SaidInFields(fields: seq<Field>, text: string)
    requires Distinct(fields)
    ensures SaysNumber(Record(MeansFields(fields)), text) <==>
      exists i :: 0 <= i < |fields| && SaysNumber(Means(fields[i].value), text)
  {
    FieldsMean(fields);
    hide MeansFields, Means;
    var m := MeansFields(fields);
    if key :| key in m && SaysNumber(m[key], text) {
      var i :| Says(fields, i, key);
    }
    if i :| 0 <= i < |fields| && SaysNumber(Means(fields[i].value), text) {
      assert Says(fields, i, fields[i].key);
      assert SaysNumber(m[fields[i].key], text);
    }
  }

  lemma {:induction false} NothingPrintedAsNull(v: Value, nan: string)
    requires !PrintsNull(v)
    ensures AsPrinted(v, nan) == v
    decreases v
  {
    match v
    case Array(elements) =>
      forall i | 0 <= i < |elements| ensures ElementsAsPrinted(elements, nan)[i] == elements[i] {
        NothingPrintedAsNull(elements[i], nan);
      }
      assert ElementsAsPrinted(elements, nan) == elements;
    case Object(fields) =>
      forall i | 0 <= i < |fields| ensures FieldsAsPrinted(fields, nan)[i] == fields[i] {
        NothingPrintedAsNull(fields[i].value, nan);
      }
      assert FieldsAsPrinted(fields, nan) == fields;
    case _ =>
  }

  /** Where nothing is printed as null on one side, the same text means the same. */
  lemma PreHashMeaning(v: Value, w: Value)
    requires KeysDistinct(v) && KeysDistinct(w) && PreHash(v).Ok? && PreHash(w).Ok? && !PrintsNull(v)
    ensures PreHash(v) == PreHash(w) <==> Means(v) == Means(w)
  {
    hide Means, AsPrinted, PreHash, PrintsNull;
    NanIsNoNumeral();
    PreHashPrintedMeaning(v, w);
    NothingPrintedAsNull(v, NAN);
    PrintedNullSaid(v, NAN, NAN);
    PrintedNullSaid(w, NAN, NAN);
    if !PrintsNull(w) {
      NothingPrintedAsNull(w, NAN);
    } else {
      PrintsNullMeans(v);
      PrintsNullMeans(w);
    }
  }

  /** The same read off the meaning. */
  ghost predicate MeansNull(m: Meaning) {
    match m
    case Numeral(text) => !IsNumeral(text)
    case List(elements) => exists i :: 0 <= i < |elements| && (elements[i].Nothing? || MeansNull(elements[i]))
    case Record(fields) => exists key :: key in fields && MeansNull(fields[key])
    case _ => false
  }

  lemma {:induction false} PrintsNullMeans(v: Value)
    requires KeysDistinct(v)
    ensures PrintsNull(v) <==> MeansNull(Means(v))
    decreases v
  {
    match v
    case Array(elements) =>
      var m := Means(v);
      forall i | 0 <= i < |elements|
        ensures IsNothing(elements[i]) || PrintsNull(elements[i]) <==> m.elements[i].Nothing? || MeansNull(m.elements[i])
      {
        assert m.elements[i] == Means(elements[i]);
        PrintsNullMeans(elements[i]);
      }
    case Object(fields) =>
      FieldsMean(fields);
      forall i | 0 <= i < |fields| ensures PrintsNull(fields[i].value) <==> MeansNull(Means(fields[i].value)) {
        PrintsNullMeans(fields[i].value);
      }
      NullInFields(fields);
    case _ =>
  }

  lemma NullInFields(fields: seq<Field>)
    requires Distinct(fields)
    ensures MeansNull(Record(MeansFields(fields))) <==> exists i :: 0 <= i < |fields| && MeansNull(Means(fields[i].value))
  {
    FieldsMean(fields);
    hide MeansFields, Means;
    var m := MeansFields(fields);
    if key :| key in m && MeansNull(m[key]) {
      var i :| Says(fields, i, key);
    }
    if i :| 0 <= i < |fields| && MeansNull(Means(fields[i].value)) {
      assert Says(fields, i, fields[i].key);
      assert MeansNull(m[fields[i].key]);
    }
  }

  /** Another value with the same text and another meaning. */
  ghost predicate CollidesWith(v: Value, w: Value) {
    KeysDistinct(w) && PreHash(w) == PreHash(v) && Means(w) != Means(v)
  }

  lemma SameTextAsPrinted(v: Value, nan: string)
    requires KeysDistinct(v) && PreHash(v).Ok? && !IsNumeral(nan)
    ensures KeysDistinct(AsPrinted(v, nan)) && PreHash(AsPrinted(v, nan)) == PreHash(v)
  {
    PrintedAlike(v, nan);
    PrintedKeysDistinct(v, nan);
    hide Print, AsPrinted, Canonicalize, HasBigInt;
    assert Print(Canonicalize(v), "") == Print(Canonicalize(AsPrinted(v, nan)), "");
  }

  /**
   * Exactly the values that print a null share their key with a value of another meaning: a non-finite number
   * is hashed like any other one, and in a list like null.
   */
  lemma NonFiniteCollides(v: Value)
    requires KeysDistinct(v) && PreHash(v).Ok?
    ensures (exists w :: CollidesWith(v, w)) <==> PrintsNull(v)
  {
    hide Means, AsPrinted, PreHash, PrintsNull;
    if PrintsNull(v) {
      NanIsNoNumeral();
      var (a, b) := (AsPrinted(v, NAN), AsPrinted(v, "Infinity"));
      SameTextAsPrinted(v, NAN);
      SameTextAsPrinted(v, "Infinity");
      PrintedNullSaid(v, NAN, NAN);
      PrintedNullSaid(v, "Infinity", NAN);
      assert Means(a) != Means(b);
      assert CollidesWith(v, a) || CollidesWith(v, b);
    } else if w :| CollidesWith(v, w) {
      PreHashMeaning(v, w);
    }
  }

  /** A list with NaN is hashed like a list with null. */
  lemma NanInListCollides()
    ensures CollidesWith(Array([Number(NAN)]), Array([Null]))
  {
    var (v, w) := (Array([Number(NAN)]), Array([Null]));
    NanIsNoNumeral();
    NullPrintsAlike(NAN, NAN);
    assert !HasBigInt(v.elements[0]) && !HasBigInt(w.elements[0]);
    ElementsAlike(w.elements, v.elements);
    assert |Means(v).elements| == 1 && Means(v).elements[0] == Means(v.elements[0]) == Numeral(NAN);
    assert |Means(w).elements| == 1 && Means(w).elements[0] == Means(w.elements[0]) == Nothing;
    hide Print, Means;
    assert Print(Canonicalize(w), "") == Print(Canonicalize(v), "");
  }
}

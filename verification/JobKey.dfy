/**
 * The canonical job key before hashing (packages/core/src/execution/job-key.ts).
 *
 * An object is the list of its own properties in enumeration order, keys distinct.  A number is its
 * decimal text, as JavaScript prints it; a date is its ISO text.  Strings are sequences of characters
 * compared by code point.
 */
module JobKey {

  datatype Value =
    | Undefined
    | Null
    | Bool(b: bool)
    | Number(text: string)
    | Str(s: string)
    | Date(iso: string)
    | BigInt
    | Array(elements: seq<Value>)
    | Object(fields: seq<Field>)

  datatype Field = Field(key: string, value: Value)

  // ---------------------------------------------------------------- order of keys

  predicate Less(a: string, b: string) {
    b != "" && (a == "" || a[0] < b[0] || (a[0] == b[0] && Less(a[1..], b[1..])))
  }

  lemma {:induction false} LessTotal(a: string, b: string)
    ensures Less(a, b) || a == b || Less(b, a)
    ensures !(Less(a, b) && Less(b, a)) && (a == b ==> !Less(a, b))
  {
    if a != "" && b != "" {
      LessTotal(a[1..], b[1..]);
      assert a == [a[0]] + a[1..] && b == [b[0]] + b[1..];
    }
  }

  lemma {:induction false} LessTransitive(a: string, b: string, c: string)
    requires Less(a, b) && Less(b, c)
    ensures Less(a, c)
  {
    if a != "" && a[0] == b[0] == c[0] {
      LessTransitive(a[1..], b[1..], c[1..]);
    }
  }

  /** A property name the engine treats as an array index: enumerated first, in numeric order. */
  predicate IsIndex(key: string) {
    && 0 < |key| <= 10
    && (forall i :: 0 <= i < |key| ==> '0' <= key[i] <= '9')
    && (key[0] == '0' ==> |key| == 1)
    && (|key| == 10 ==> Less(key, "4294967295"))
  }

  predicate IndexBefore(a: string, b: string) {
    |a| < |b| || (|a| == |b| && Less(a, b))
  }

  /** Adding a new property to an object: an index goes to its numeric place, any other name to the end. */
  function AddProperty(fields: seq<Field>, f: Field): seq<Field> {
    if !IsIndex(f.key) then fields + [f]
    else if fields == [] || !IsIndex(fields[0].key) || IndexBefore(f.key, fields[0].key) then [f] + fields
    else [fields[0]] + AddProperty(fields[1..], f)
  }

  function AddAll(own: seq<Field>, fields: seq<Field>): seq<Field>
    decreases fields
  {
    if fields == [] then own else AddAll(AddProperty(own, fields[0]), fields[1..])
  }

  /** Array.prototype.sort on the keys. */
  function InsertSorted(f: Field, fields: seq<Field>): seq<Field> {
    if fields == [] || Less(f.key, fields[0].key) then [f] + fields
    else [fields[0]] + InsertSorted(f, fields[1..])
  }

  function SortFields(fields: seq<Field>): seq<Field> {
    if fields == [] then [] else InsertSorted(fields[0], SortFields(fields[1..]))
  }

  // ---------------------------------------------------------------- canonicalize

  function Canonicalize(v: Value): Value {
    match v
    case Undefined => Undefined
    case Null => Undefined
    case Date(iso) => Str(iso)
    case Array(elements) => Array(CanonicalElements(elements))
    case Object(fields) => Object(AddAll([], SortFields(Kept(fields))))
    case _ => v
  }

  function CanonicalElements(elements: seq<Value>): seq<Value> {
    if elements == [] then [] else [Canonicalize(elements[0])] + CanonicalElements(elements[1..])
  }

  /** The canonical fields, without those that canonicalize to undefined. */
  function Kept(fields: seq<Field>): seq<Field> {
    if fields == [] then []
    else
      var c := Canonicalize(fields[0].value);
      (if c.Undefined? then [] else [Field(fields[0].key, c)]) + Kept(fields[1..])
  }

  predicate HasBigInt(v: Value) {
    match v
    case BigInt => true
    case Array(elements) => exists i :: 0 <= i < |elements| && HasBigInt(elements[i])
    case Object(fields) => exists i :: 0 <= i < |fields| && HasBigInt(fields[i].value)
    case _ => false
  }

  /** The recursion with its loops: keys sorted, each kept property added to the new object in turn. */
  method CanonicalizeInLoops(v: Value) returns (c: Value)
    requires KeysDistinct(v)
    ensures c == Canonicalize(v)
    decreases v
  {
    match v
    case Array(elements) =>
      var out := [];
      for i := 0 to |elements|
        invariant out + CanonicalElements(elements[i..]) == CanonicalElements(elements)
      {
        var x := CanonicalizeInLoops(elements[i]);
        out := out + [x];
        assert elements[i..][0] == elements[i] && elements[i..][1..] == elements[i + 1..];
      }
      assert elements[|elements|..] == [];
      c := Array(out);
    case Object(fields) =>
      var keys := SortFields(fields);
      SortMembers(fields);
      SortKeepsKept(fields);
      var sorted := [];
      for i := 0 to |keys|
        invariant AddAll(sorted, Kept(keys[i..])) == AddAll([], Kept(keys))
      {
        assert keys[i] in fields;
        var x := CanonicalizeInLoops(keys[i].value);
        assert keys[i..][0] == keys[i] && keys[i..][1..] == keys[i + 1..];
        if !x.Undefined? {
          var f := Field(keys[i].key, x);
          assert Kept(keys[i..]) == [f] + Kept(keys[i + 1..]);
          assert ([f] + Kept(keys[i + 1..]))[1..] == Kept(keys[i + 1..]);
          sorted := AddProperty(sorted, f);
        } else {
          assert Kept(keys[i..]) == Kept(keys[i + 1..]);
        }
      }
      assert keys[|keys|..] == [];
      c := Object(sorted);
    case Null => c := Undefined;
    case Date(iso) => c := Str(iso);
    case _ => c := v;
  }

  // ---------------------------------------------------------------- sorted lists of fields

  ghost predicate Distinct(fields: seq<Field>) {
    forall i, j :: 0 <= i < j < |fields| ==> fields[i].key != fields[j].key
  }

  ghost predicate Ascending(fields: seq<Field>) {
    forall i, j :: 0 <= i < j < |fields| ==> Less(fields[i].key, fields[j].key)
  }

  /** No object anywhere has the same key twice. */
  ghost predicate KeysDistinct(v: Value) {
    match v
    case Array(elements) => forall i :: 0 <= i < |elements| ==> KeysDistinct(elements[i])
    case Object(fields) => Distinct(fields) && forall i :: 0 <= i < |fields| ==> KeysDistinct(fields[i].value)
    case _ => true
  }

  lemma {:induction false} InsertMembers(f: Field, fields: seq<Field>)
    ensures forall g :: g in InsertSorted(f, fields) <==> g == f || g in fields
  {
    if fields != [] && !Less(f.key, fields[0].key) { InsertMembers(f, fields[1..]); }
  }

  lemma {:induction false} SortMembers(fields: seq<Field>)
    ensures forall g :: g in SortFields(fields) <==> g in fields
  {
    if fields != [] {
      SortMembers(fields[1..]);
      InsertMembers(fields[0], SortFields(fields[1..]));
    }
  }

  lemma {:induction false} InsertAscending(f: Field, fields: seq<Field>)
    requires Ascending(fields) && forall g :: g in fields ==> g.key != f.key
    ensures Ascending(InsertSorted(f, fields))
  {
    if fields != [] {
      LessTotal(f.key, fields[0].key);
      var r := InsertSorted(f, fields);
      if Less(f.key, fields[0].key) {
        forall i, j | 0 <= i < j < |r| ensures Less(r[i].key, r[j].key) {
          if i == 0 && j > 1 { LessTransitive(f.key, fields[0].key, fields[j - 1].key); }
        }
      } else {
        InsertAscending(f, fields[1..]);
        InsertMembers(f, fields[1..]);
        var rest := InsertSorted(f, fields[1..]);
        forall i, j | 0 <= i < j < |r| ensures Less(r[i].key, r[j].key) {
          assert r[j] == rest[j - 1];
          if i == 0 {
            assert rest[j - 1] in rest;
            if rest[j - 1] != f { var k :| 0 <= k < |fields[1..]| && fields[1..][k] == rest[j - 1]; assert fields[k + 1] == rest[j - 1]; }
          } else {
            assert r[i] == rest[i - 1];
          }
        }
      }
    }
  }

  lemma {:induction false} SortAscending(fields: seq<Field>)
    requires Distinct(fields)
    ensures Ascending(SortFields(fields))
  {
    if fields != [] {
      var rest := fields[1..];
      assert Distinct(rest);
      SortAscending(rest);
      SortMembers(rest);
      forall g | g in SortFields(rest) ensures g.key != fields[0].key {
        var k :| 0 <= k < |rest| && rest[k] == g;
        assert fields[k + 1] == g;
      }
      InsertAscending(fields[0], SortFields(rest));
    }
  }

  /** A list in strictly ascending order is determined by its members. */
  lemma {:induction false} AscendingUnique(a: seq<Field>, b: seq<Field>)
    requires Ascending(a) && Ascending(b) && forall f :: f in a <==> f in b
    ensures a == b
  {
    if b != [] { assert b[0] in b; }
    if a != [] {
      assert a[0] in b && b != [] && b[0] in a;
      var i :| 0 <= i < |b| && b[i] == a[0];
      var j :| 0 <= j < |a| && a[j] == b[0];
      if i > 0 && j > 0 {
        LessTotal(a[0].key, b[0].key);
        assert false;
      }
      assert a[0] == b[0] by {
        if j > 0 { assert Less(a[0].key, a[j].key); LessTotal(a[0].key, b[0].key); }
      }
      forall f ensures f in a[1..] <==> f in b[1..] {
        LessTotal(a[0].key, a[0].key);
        if f in a[1..] { var k :| 0 <= k < |a[1..]| && a[1..][k] == f; assert Less(a[0].key, a[k + 1].key); assert f in a; var m :| 0 <= m < |b| && b[m] == f; assert m > 0; assert b[1..][m - 1] == f; }
        if f in b[1..] { var k :| 0 <= k < |b[1..]| && b[1..][k] == f; assert Less(b[0].key, b[k + 1].key); assert f in b; var m :| 0 <= m < |a| && a[m] == f; assert m > 0; assert a[1..][m - 1] == f; }
      }
      AscendingUnique(a[1..], b[1..]);
      assert a == [a[0]] + a[1..] && b == [b[0]] + b[1..];
    }
  }

  lemma {:induction false} KeptMembers(fields: seq<Field>)
    ensures forall f :: f in Kept(fields) <==>
      exists i :: 0 <= i < |fields| && KeptAs(fields[i], f)
  {
    if fields != [] {
      KeptMembers(fields[1..]);
      forall f ensures f in Kept(fields) <==> exists i :: 0 <= i < |fields| && KeptAs(fields[i], f) {
        if exists i :: 0 <= i < |fields| && KeptAs(fields[i], f) {
          var i :| 0 <= i < |fields| && KeptAs(fields[i], f);
          if i > 0 { assert fields[1..][i - 1] == fields[i]; }
        }
        if f in Kept(fields[1..]) {
          var i :| 0 <= i < |fields[1..]| && KeptAs(fields[1..][i], f);
          assert fields[i + 1] == fields[1..][i];
        } else if f in Kept(fields) {
          assert KeptAs(fields[0], f);
        }
      }
    }
  }

  ghost predicate KeptAs(f: Field, g: Field) {
    g.key == f.key && g.value == Canonicalize(f.value) && !g.value.Undefined?
  }

  lemma {:induction false} KeptOrder(fields: seq<Field>)
    ensures Ascending(fields) ==> Ascending(Kept(fields))
    ensures Distinct(fields) ==> Distinct(Kept(fields))
  {
    if fields != [] {
      var rest := fields[1..];
      KeptOrder(rest);
      KeptMembers(rest);
      var r := Kept(fields);
      forall i, j | 0 <= i < j < |r|
        ensures Ascending(fields) ==> Less(r[i].key, r[j].key)
        ensures Distinct(fields) ==> r[i].key != r[j].key
      {
        var d := |r| - |Kept(rest)|;
        assert j >= d && r[j] == Kept(rest)[j - d];
        if i >= d {
          assert r[i] == Kept(rest)[i - d];
        } else {
          assert Kept(rest)[j - d] in Kept(rest);
          var k :| 0 <= k < |rest| && KeptAs(rest[k], Kept(rest)[j - d]);
          assert fields[k + 1] == rest[k];
        }
      }
      assert Ascending(fields) ==> Ascending(rest);
      assert Distinct(fields) ==> Distinct(rest);
    }
  }

  /** Sorting first and canonicalizing after, as the loop does, is canonicalizing first and sorting after. */
  lemma SortKeepsKept(fields: seq<Field>)
    requires Distinct(fields)
    ensures Kept(SortFields(fields)) == SortFields(Kept(fields))
  {
    var (a, b) := (Kept(SortFields(fields)), SortFields(Kept(fields)));
    SortAscending(fields);
    KeptOrder(SortFields(fields));
    KeptOrder(fields);
    SortAscending(Kept(fields));
    forall f ensures f in a <==> f in b {
      KeptMembers(SortFields(fields));
      KeptMembers(fields);
      SortMembers(fields);
      SortMembers(Kept(fields));
      if f in a {
        var i :| 0 <= i < |SortFields(fields)| && KeptAs(SortFields(fields)[i], f);
        assert SortFields(fields)[i] in fields;
      }
      if f in b {
        var i :| 0 <= i < |fields| && KeptAs(fields[i], f);
        assert fields[i] in SortFields(fields);
      }
    }
    AscendingUnique(a, b);
  }

  // ---------------------------------------------------------------- meaning

  /** What a parameter value says, objects being maps and null saying nothing. */
  datatype Meaning =
    | Nothing
    | Truth(b: bool)
    | Numeral(text: string)
    | Words(s: string)
    | Big
    | List(elements: seq<Meaning>)
    | Record(fields: map<string, Meaning>)

  ghost function Means(v: Value): Meaning {
    match v
    case Undefined => Nothing
    case Null => Nothing
    case Bool(b) => Truth(b)
    case Number(text) => Numeral(text)
    case Str(s) => Words(s)
    case Date(iso) => Words(iso)
    case BigInt => Big
    case Array(elements) => List(seq(|elements|, i requires 0 <= i < |elements| => Means(elements[i])))
    case Object(fields) => Record(MeansFields(fields))
  }

  ghost function MeansFields(fields: seq<Field>): map<string, Meaning> {
    if fields == [] then map[]
    else
      var rest := MeansFields(fields[1..]);
      var m := Means(fields[0].value);
      if m.Nothing? then rest else rest[fields[0].key := m]
  }

  ghost predicate Says(fields: seq<Field>, i: int, key: string) {
    0 <= i < |fields| && fields[i].key == key && !Means(fields[i].value).Nothing?
  }

  lemma {:induction false} FieldsMean(fields: seq<Field>)
    requires Distinct(fields)
    ensures forall key :: key in MeansFields(fields) <==> exists i :: Says(fields, i, key)
    ensures forall i, key :: Says(fields, i, key) ==> key in MeansFields(fields) && MeansFields(fields)[key] == Means(fields[i].value)
  {
    if fields != [] {
      var rest := fields[1..];
      assert Distinct(rest);
      FieldsMean(rest);
      forall key ensures key in MeansFields(fields) <==> exists i :: Says(fields, i, key) {
        if key in MeansFields(fields) {
          if key in MeansFields(rest) { var i :| Says(rest, i, key); assert Says(fields, i + 1, key); }
          else { assert Says(fields, 0, key); }
        }
        if exists i :: Says(fields, i, key) {
          var i :| Says(fields, i, key);
          if i > 0 { assert Says(rest, i - 1, key); }
        }
      }
      forall i, key | Says(fields, i, key) ensures MeansFields(fields)[key] == Means(fields[i].value) {
        if i > 0 { assert Says(rest, i - 1, key); }
      }
    }
  }

  // ---------------------------------------------------------------- canonicalize keeps the meaning

  lemma {:induction false} AddPropertyMembers(fields: seq<Field>, f: Field)
    ensures forall g :: g in AddProperty(fields, f) <==> g == f || g in fields
    ensures Distinct(fields) && (forall g :: g in fields ==> g.key != f.key) ==> Distinct(AddProperty(fields, f))
  {
    if IsIndex(f.key) && fields != [] && IsIndex(fields[0].key) && !IndexBefore(f.key, fields[0].key) {
      AddPropertyMembers(fields[1..], f);
      if Distinct(fields) && forall g :: g in fields ==> g.key != f.key {
        var rest := AddProperty(fields[1..], f);
        assert Distinct(fields[1..]);
        forall j | 0 <= j < |rest| ensures rest[j].key != fields[0].key {
          assert rest[j] in rest;
          if rest[j] != f { var k :| 0 <= k < |fields[1..]| && fields[1..][k] == rest[j]; assert fields[k + 1] == rest[j]; }
        }
      }
    }
  }

  lemma {:induction false} AddAllMembers(own: seq<Field>, fields: seq<Field>)
    requires Distinct(own) && Distinct(fields) && forall f, g :: f in own && g in fields ==> f.key != g.key
    ensures Distinct(AddAll(own, fields))
    ensures forall g :: g in AddAll(own, fields) <==> g in own || g in fields
    decreases fields
  {
    if fields != [] {
      var rest := fields[1..];
      AddPropertyMembers(own, fields[0]);
      var own' := AddProperty(own, fields[0]);
      assert Distinct(rest);
      forall f, g | f in own' && g in rest ensures f.key != g.key {
        var k :| 0 <= k < |rest| && rest[k] == g;
        assert fields[k + 1] == g;
      }
      AddAllMembers(own', rest);
    }
  }

  lemma AscendingDistinct(fields: seq<Field>)
    requires Ascending(fields)
    ensures Distinct(fields)
  {
    forall i, j | 0 <= i < j < |fields| ensures fields[i].key != fields[j].key {
      LessTotal(fields[i].key, fields[j].key);
    }
  }

  /** The fields of a canonical object are the kept ones, each key once. */
  lemma CanonicalFields(fields: seq<Field>)
    requires Distinct(fields)
    ensures var own := AddAll([], SortFields(Kept(fields)));
            Distinct(own) && forall g :: g in own <==> g in Kept(fields)
  {
    KeptOrder(fields);
    SortAscending(Kept(fields));
    SortMembers(Kept(fields));
    AscendingDistinct(SortFields(Kept(fields)));
    AddAllMembers([], SortFields(Kept(fields)));
  }

  lemma {:induction false} CanonicalKeepsMeaning(v: Value)
    requires KeysDistinct(v)
    ensures Means(Canonicalize(v)) == Means(v)
    ensures Canonicalize(v).Undefined? <==> Means(v).Nothing?
    ensures KeysDistinct(Canonicalize(v))
    decreases v
  {
    match v
    case Array(elements) => ElementsKeepMeaning(elements);
    case Object(fields) =>
      forall i | 0 <= i < |fields|
        ensures Means(Canonicalize(fields[i].value)) == Means(fields[i].value)
        ensures Canonicalize(fields[i].value).Undefined? <==> Means(fields[i].value).Nothing?
        ensures KeysDistinct(Canonicalize(fields[i].value))
      {
        CanonicalKeepsMeaning(fields[i].value);
      }
      RecordKeepsMeaning(fields);
    case _ =>
  }

  lemma RecordKeepsMeaning(fields: seq<Field>)
    requires Distinct(fields)
    requires forall i :: 0 <= i < |fields| ==>
      && Means(Canonicalize(fields[i].value)) == Means(fields[i].value)
      && (Canonicalize(fields[i].value).Undefined? <==> Means(fields[i].value).Nothing?)
      && KeysDistinct(Canonicalize(fields[i].value))
    ensures var own := AddAll([], SortFields(Kept(fields)));
      MeansFields(own) == MeansFields(fields) && Distinct(own) && forall k :: 0 <= k < |own| ==> KeysDistinct(own[k].value)
  {
    hide Means, MeansFields, Canonicalize, KeysDistinct, AddAll, SortFields, Kept;
    var own := AddAll([], SortFields(Kept(fields)));
    CanonicalFields(fields);
    KeptMembers(fields);
    SameSayings(fields, own);
    forall k | 0 <= k < |own| ensures KeysDistinct(own[k].value) {
      assert own[k] in Kept(fields);
      var i :| 0 <= i < |fields| && KeptAs(fields[i], own[k]);
    }
  }

  lemma {:induction false} ElementsKeepMeaning(elements: seq<Value>)
    requires forall i :: 0 <= i < |elements| ==> KeysDistinct(elements[i])
    ensures |CanonicalElements(elements)| == |elements|
    ensures forall i :: 0 <= i < |elements| ==>
      && CanonicalElements(elements)[i] == Canonicalize(elements[i])
      && Means(CanonicalElements(elements)[i]) == Means(elements[i]) && KeysDistinct(CanonicalElements(elements)[i])
    decreases elements
  {
    if elements != [] {
      CanonicalKeepsMeaning(elements[0]);
      ElementsKeepMeaning(elements[1..]);
    }
  }

  lemma SameSayings(fields: seq<Field>, own: seq<Field>)
    requires Distinct(fields) && Distinct(own)
    requires forall i :: 0 <= i < |fields| ==> Means(Canonicalize(fields[i].value)) == Means(fields[i].value)
    requires forall i :: 0 <= i < |fields| ==> (Canonicalize(fields[i].value).Undefined? <==> Means(fields[i].value).Nothing?)
    requires forall g :: g in own <==> exists i :: 0 <= i < |fields| && KeptAs(fields[i], g)
    ensures MeansFields(own) == MeansFields(fields)
  {
    FieldsMean(fields);
    FieldsMean(own);
    hide MeansFields, Canonicalize;
    var (a, b) := (MeansFields(own), MeansFields(fields));
    forall key ensures key in a <==> key in b
      ensures key in a ==> a[key] == b[key]
    {
      if key in a {
        var k :| Says(own, k, key);
        assert own[k] in own;
        var i :| 0 <= i < |fields| && KeptAs(fields[i], own[k]);
        assert Says(fields, i, key);
      }
      if key in b {
        var i :| Says(fields, i, key);
        var g := Field(key, Canonicalize(fields[i].value));
        assert KeptAs(fields[i], g);
        assert g in own;
        var k :| 0 <= k < |own| && own[k] == g;
        assert Says(own, k, key);
      }
    }
  }

  // ---------------------------------------------------------------- the meaning fixes the canonical form

  lemma {:induction false} MeaningFixesCanonical(v: Value, w: Value)
    requires KeysDistinct(v) && KeysDistinct(w) && Means(v) == Means(w)
    ensures Canonicalize(v) == Canonicalize(w)
    decreases v
  {
    match v
    case Array(elements) =>
      assert Means(v).List? && w.Array?;
      ElementsFixed(elements, w.elements);
    case Object(fields) =>
      assert w.Object?;
      KeptFixed(fields, w.fields);
      KeptOrder(fields);
      KeptOrder(w.fields);
      SortAscending(Kept(fields));
      SortAscending(Kept(w.fields));
      SortMembers(Kept(fields));
      SortMembers(Kept(w.fields));
      AscendingUnique(SortFields(Kept(fields)), SortFields(Kept(w.fields)));
    case _ =>
  }

  lemma {:induction false} ElementsFixed(a: seq<Value>, b: seq<Value>)
    requires forall i :: 0 <= i < |a| ==> KeysDistinct(a[i])
    requires forall i :: 0 <= i < |b| ==> KeysDistinct(b[i])
    requires Means(Array(a)) == Means(Array(b))
    ensures CanonicalElements(a) == CanonicalElements(b)
    decreases a
  {
    var (ma, mb) := (Means(Array(a)).elements, Means(Array(b)).elements);
    assert |a| == |ma| == |mb| == |b|;
    if a != [] {
      assert ma[0] == Means(a[0]) && mb[0] == Means(b[0]);
      MeaningFixesCanonical(a[0], b[0]);
      assert Means(Array(a[1..])) == List(ma[1..]) && Means(Array(b[1..])) == List(mb[1..]);
      ElementsFixed(a[1..], b[1..]);
    }
  }

  lemma {:induction false} KeptFixed(a: seq<Field>, b: seq<Field>)
    requires Distinct(a) && Distinct(b) && MeansFields(a) == MeansFields(b)
    requires forall i :: 0 <= i < |a| ==> KeysDistinct(a[i].value)
    requires forall i :: 0 <= i < |b| ==> KeysDistinct(b[i].value)
    ensures forall f :: f in Kept(a) <==> f in Kept(b)
    decreases a, 1
  {
    KeptMembers(a);
    KeptMembers(b);
    FieldsMean(a);
    FieldsMean(b);
    forall i, j | 0 <= i < |a| && 0 <= j < |b| && Means(a[i].value) == Means(b[j].value)
      ensures Canonicalize(a[i].value) == Canonicalize(b[j].value)
    {
      MeaningFixesCanonical(a[i].value, b[j].value);
    }
    forall f ensures f in Kept(a) <==> f in Kept(b) {
      if f in Kept(a) {
        var i :| 0 <= i < |a| && KeptAs(a[i], f);
        CanonicalKeepsMeaning(a[i].value);
        assert Says(a, i, f.key);
        var j :| Says(b, j, f.key);
        assert KeptAs(b[j], f);
      }
      if f in Kept(b) {
        var j :| 0 <= j < |b| && KeptAs(b[j], f);
        CanonicalKeepsMeaning(b[j].value);
        assert Says(b, j, f.key);
        var i :| Says(a, i, f.key);
        assert KeptAs(a[i], f);
      }
    }
  }

  /** Canonicalizing twice is canonicalizing once. */
  lemma CanonicalIdempotent(v: Value)
    requires KeysDistinct(v)
    ensures Canonicalize(Canonicalize(v)) == Canonicalize(v)
  {
    CanonicalKeepsMeaning(v);
    MeaningFixesCanonical(Canonicalize(v), v);
  }
}

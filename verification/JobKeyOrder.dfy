/**
 * The order of the keys in a canonical object (packages/core/src/execution/job-key.ts:12-29).  Keys are put in
 * by code point, but an object enumerates its array indices first, by number.
 */
module JobKeyOrder {
  import opened JobKey

  // ---------------------------------------------------------------- the two orders, said without the comparisons

  /** At the first place where they differ the first text has ended or has the smaller character. */
  ghost predicate Precedes(a: string, b: string) {
    exists k: nat :: DiffersAt(a, b, k)
  }

  ghost predicate DiffersAt(a: string, b: string, k: nat) {
    k <= |a| && k < |b| && a[..k] == b[..k] && (k == |a| || a[k] < b[k])
  }

  predicate Digits(text: string) {
    forall i :: 0 <= i < |text| ==> '0' <= text[i] <= '9'
  }

  function NumberOf(text: string): nat
    requires Digits(text)
  {
    if text == "" then 0 else 10 * NumberOf(text[..|text| - 1]) + (text[|text| - 1] as int - '0' as int)
  }

  /** The decimal text of a number, without leading zeros. */
  predicate Decimal(text: string) {
    text != "" && Digits(text) && (text[0] == '0' ==> |text| == 1)
  }

  /** The decimal text of a number below 2^32 - 1. */
  predicate ArrayIndex(text: string) {
    Decimal(text) && NumberOf(text) < 4294967295
  }

  /** Array indices come first, by number, and the other keys after them, by code point. */
  ghost predicate InOrder(a: string, b: string) {
    if ArrayIndex(a) then ArrayIndex(b) ==> NumberOf(a) < NumberOf(b)
    else !ArrayIndex(b) && Precedes(a, b)
  }

  // ---------------------------------------------------------------- what the comparisons mean

  lemma {:induction false} LessMeaning(a: string, b: string)
    ensures Less(a, b) <==> Precedes(a, b)
  {
    forall k: nat | k > 0 && DiffersAt(a, b, k) ensures a != "" && b != "" && a[0] == b[0] {
      assert a[0] == a[..k][0] == b[..k][0] == b[0];
    }
    if a != "" && b != "" && a[0] == b[0] {
      LessMeaning(a[1..], b[1..]);
      if k: nat :| DiffersAt(a[1..], b[1..], k) {
        assert a[..k + 1] == [a[0]] + a[1..][..k] && b[..k + 1] == [b[0]] + b[1..][..k];
        assert DiffersAt(a, b, k + 1);
      }
      if k: nat :| DiffersAt(a, b, k) {
        assert k > 0 && a[1..][..k - 1] == a[..k][1..] && b[1..][..k - 1] == b[..k][1..];
        assert DiffersAt(a[1..], b[1..], k - 1);
      }
    } else {
      if Less(a, b) { assert DiffersAt(a, b, 0); }
    }
  }

  lemma {:induction false} LessOfExtended(a: string, x: char, b: string, y: char)
    requires |a| == |b|
    ensures Less(a + [x], b + [y]) <==> Less(a, b) || (a == b && x < y)
  {
    if a != "" {
      LessOfExtended(a[1..], x, b[1..], y);
      assert (a + [x])[1..] == a[1..] + [x] && (b + [y])[1..] == b[1..] + [y];
      assert a == [a[0]] + a[1..] && b == [b[0]] + b[1..];
    } else {
      assert [x][1..] == "" && [y][1..] == "";
    }
  }

  /** Equally long digits compare as their numbers do. */
  lemma {:induction false} LessByNumber(a: string, b: string)
    requires |a| == |b| && Digits(a) && Digits(b)
    ensures Less(a, b) <==> NumberOf(a) < NumberOf(b)
    ensures NumberOf(a) == NumberOf(b) <==> a == b
    decreases |a|
  {
    if a != "" {
      var n := |a| - 1;
      LessByNumber(a[..n], b[..n]);
      assert a == a[..n] + [a[n]] && b == b[..n] + [b[n]];
      LessOfExtended(a[..n], a[n], b[..n], b[n]);
    }
  }

  lemma {:induction false} PositiveNumber(text: string)
    requires Digits(text) && text != "" && text[0] != '0'
    ensures NumberOf(text) > 0
  {
    if |text| > 1 { PositiveNumber(text[..|text| - 1]); }
  }

  /** Of two decimal texts the shorter one is the smaller number. */
  lemma {:induction false} ShorterIsSmaller(a: string, b: string)
    requires Digits(a) && Digits(b) && |a| < |b| && b[0] != '0'
    ensures NumberOf(a) < NumberOf(b)
    decreases |a|
  {
    if a == "" {
      PositiveNumber(b);
    } else {
      ShorterIsSmaller(a[..|a| - 1], b[..|b| - 1]);
    }
  }

  lemma IndexBeforeByNumber(a: string, b: string)
    requires Decimal(a) && Decimal(b)
    ensures IndexBefore(a, b) <==> NumberOf(a) < NumberOf(b)
    ensures NumberOf(a) == NumberOf(b) <==> a == b
  {
    hide NumberOf, Less;
    if |a| == |b| {
      LessByNumber(a, b);
    } else if |a| < |b| {
      ShorterIsSmaller(a, b);
    } else {
      ShorterIsSmaller(b, a);
    }
  }

  const LIMIT := "4294967295"

  lemma {:induction false} NumberOfPrefix(k: nat)
    requires k <= 10
    ensures Digits(LIMIT[..k])
    ensures NumberOf(LIMIT[..k]) == [0, 4, 42, 429, 4294, 42949, 429496, 4294967, 42949672, 429496729, 4294967295][k]
  {
    if k > 0 {
      NumberOfPrefix(k - 1);
      assert LIMIT[..k][..k - 1] == LIMIT[..k - 1];
    }
  }

  lemma IndexMeaning(key: string)
    ensures IsIndex(key) <==> ArrayIndex(key)
  {
    NumberOfPrefix(10);
    assert LIMIT[..10] == LIMIT;
    if Decimal(key) {
      IndexBeforeByNumber(key, LIMIT);
    }
    hide NumberOf, Less;
  }

  // ---------------------------------------------------------------- the order of a canonical object

  /** The order as the comparisons have it. */
  ghost predicate Ranked(a: string, b: string) {
    if IsIndex(a) then IsIndex(b) ==> IndexBefore(a, b) else !IsIndex(b) && Less(a, b)
  }

  ghost predicate AllRanked(fields: seq<Field>) {
    forall i, j :: 0 <= i < j < |fields| ==> Ranked(fields[i].key, fields[j].key)
  }

  /** The keys still to come are none of those there, and names among them come after the names there. */
  ghost predicate Follows(own: seq<Field>, fields: seq<Field>) {
    forall i, j :: 0 <= i < |own| && 0 <= j < |fields| ==>
      own[i].key != fields[j].key && (!IsIndex(own[i].key) ==> Less(own[i].key, fields[j].key))
  }

  lemma IndexBeforeTotal(a: string, b: string)
    requires a != b
    ensures IndexBefore(a, b) || IndexBefore(b, a)
  {
    LessTotal(a, b);
  }

  lemma IndexBeforeTransitive(a: string, b: string, c: string)
    requires IndexBefore(a, b) && IndexBefore(b, c)
    ensures IndexBefore(a, c)
  {
    if |a| == |b| == |c| { LessTransitive(a, b, c); }
  }

  lemma {:induction false} AddPropertyMember(fields: seq<Field>, f: Field, g: Field)
    ensures g in AddProperty(fields, f) <==> g == f || g in fields
  {
    hide IsIndex, IndexBefore;
    if IsIndex(f.key) && fields != [] && IsIndex(fields[0].key) && !IndexBefore(f.key, fields[0].key) {
      AddPropertyMember(fields[1..], f, g);
      assert fields == [fields[0]] + fields[1..];
    }
  }

  lemma {:induction false} AddPropertyRanked(own: seq<Field>, f: Field)
    requires AllRanked(own) && forall g :: g in own ==> g.key != f.key && (!IsIndex(g.key) ==> Less(g.key, f.key))
    ensures AllRanked(AddProperty(own, f))
  {
    hide IsIndex, IndexBefore, Less;
    var r := AddProperty(own, f);
    if !IsIndex(f.key) {
      forall i, j | 0 <= i < j < |r| ensures Ranked(r[i].key, r[j].key) {
        if j == |own| { assert own[i] in own; }
      }
    } else if own == [] || !IsIndex(own[0].key) || IndexBefore(f.key, own[0].key) {
      forall i, j | 0 <= i < j < |r| ensures Ranked(r[i].key, r[j].key) {
        assert j > 0 && r[j] == own[j - 1];
        if i == 0 && j > 1 && IsIndex(own[j - 1].key) {
          assert Ranked(own[0].key, own[j - 1].key);
          IndexBeforeTransitive(f.key, own[0].key, own[j - 1].key);
        }
      }
    } else {
      AddPropertyRanked(own[1..], f);
      var rest := AddProperty(own[1..], f);
      IndexBeforeTotal(f.key, own[0].key);
      forall i, j | 0 <= i < j < |r| ensures Ranked(r[i].key, r[j].key) {
        assert r[j] == rest[j - 1];
        if i == 0 {
          AddPropertyMember(own[1..], f, rest[j - 1]);
          if rest[j - 1] != f {
            var k :| 0 <= k < |own[1..]| && own[1..][k] == rest[j - 1];
            assert own[k + 1] == rest[j - 1];
          }
        } else {
          assert r[i] == rest[i - 1];
        }
      }
    }
  }

  lemma {:induction false} AddAllRanked(own: seq<Field>, fields: seq<Field>)
    requires AllRanked(own) && Ascending(fields) && Follows(own, fields)
    ensures AllRanked(AddAll(own, fields))
    decreases fields
  {
    hide IsIndex, Less, AllRanked;
    if fields != [] {
      forall g | g in own ensures g.key != fields[0].key && (!IsIndex(g.key) ==> Less(g.key, fields[0].key)) {
      }
      AddPropertyRanked(own, fields[0]);
      var own' := AddProperty(own, fields[0]);
      forall i, j | 0 <= i < |own'| && 0 <= j < |fields[1..]|
        ensures own'[i].key != fields[1..][j].key && (!IsIndex(own'[i].key) ==> Less(own'[i].key, fields[1..][j].key))
      {
        AddPropertyMember(own, fields[0], own'[i]);
        assert fields[1..][j] == fields[j + 1];
        LessTotal(fields[0].key, fields[j + 1].key);
      }
      AddAllRanked(own', fields[1..]);
    }
  }

  lemma RankedMeaning(a: string, b: string)
    ensures Ranked(a, b) <==> InOrder(a, b)
  {
    IndexMeaning(a);
    IndexMeaning(b);
    LessMeaning(a, b);
    hide IsIndex, NumberOf, Less, Precedes;
    if ArrayIndex(a) && ArrayIndex(b) {
      IndexBeforeByNumber(a, b);
    }
  }

  /** Whatever order the fields of an object come in, its canonical form has the array indices first, by number, then the other keys by code point. */
  lemma CanonicalOrder(fields: seq<Field>, i: nat, j: nat)
    requires Distinct(fields) && i < j < |Canonicalize(Object(fields)).fields|
    ensures var own := Canonicalize(Object(fields)).fields; InOrder(own[i].key, own[j].key)
  {
    var sorted := SortFields(Kept(fields));
    KeptOrder(fields);
    SortAscending(Kept(fields));
    AddAllRanked([], sorted);
    var own := AddAll([], sorted);
    assert Ranked(own[i].key, own[j].key);
    RankedMeaning(own[i].key, own[j].key);
  }
}

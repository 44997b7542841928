/** Partition validation and the even split (packages/core/src/partition-helpers.ts), over integers. */
module Partitions {
  import opened Common

  datatype PartitionError = IndexMissing | IndexOutOfRange | CountNotPositive | TotalNegative

  datatype Range = Range(from: int, to: int)

  function DefaultRange(i: int, n: int, total: int): Result<Range, PartitionError> {
    if i < 0 || i >= n then Thrown(IndexOutOfRange)
    else if n <= 0 then Thrown(CountNotPositive)
    else if total < 0 then Thrown(TotalNegative)
    else Ok(Range(i * total / n, (i + 1) * total / n))
  }

  function EnforcePartitionIndex(index: Option<int>, count: int): Result<int, PartitionError> {
    if index.None? then Thrown(IndexMissing)
    else if index.value < 0 || index.value >= count then Thrown(IndexOutOfRange)
    else Ok(index.value)
  }

  /** Partition i of n over total, where the split is defined. */
  ghost function Share(i: int, n: int, total: int): Range
    requires 0 <= i < n && 0 <= total
  {
    DefaultRange(i, n, total).value
  }

  /**
   * A range is given exactly for an index of the partitions and a total that is no negative number; else the
   * index is blamed before the total, and the count never.
   */
  lemma RangeGivenIff(i: int, n: int, total: int)
    ensures var r := DefaultRange(i, n, total);
      && (r.Ok? <==> 0 <= i < n && 0 <= total)
      && (r == Thrown(IndexOutOfRange) <==> !(0 <= i < n))
      && (r == Thrown(TotalNegative) <==> 0 <= i < n && total < 0)
      && r != Thrown(CountNotPositive)
  {
  }

  /** The index that is enforced is just one that has a range, and is handed on as it is. */
  lemma EnforcedIff(index: Option<int>, count: int, total: int)
    requires 0 <= total
    ensures EnforcePartitionIndex(index, count).Ok? <==> index.Some? && DefaultRange(index.value, count, total).Ok?
    ensures EnforcePartitionIndex(index, count).Ok? ==> Some(EnforcePartitionIndex(index, count).value) == index
    ensures EnforcePartitionIndex(index, count) == Thrown(IndexMissing) <==> index == None
  {
  }

  /** A share starts at its part of the total, rounded down. */
  lemma ShareStart(i: int, n: int, total: int)
    requires 0 <= i < n && 0 <= total
    ensures n * Share(i, n, total).from <= i * total < n * Share(i, n, total).from + n
  {
    DivisionBounds(i * total, n);
  }

  /** Multiplying by a positive count and dividing with rounding down. */
  lemma DivisionBounds(a: int, n: int)
    requires n > 0
    ensures n * (a / n) <= a < n * (a / n) + n
  {
  }

  lemma DivisionMonotone(a: int, b: int, n: int)
    requires n > 0 && a <= b
    ensures a / n <= b / n
  {
    DivisionBounds(a, n);
    DivisionBounds(b, n);
    if a / n > b / n {
      MultiplyMonotone(n, b / n + 1, a / n);
    }
  }

  lemma MultiplyMonotone(n: int, x: int, y: int)
    requires n >= 0 && x <= y
    ensures n * x <= n * y
  {
  }

  /** Partition i ends where partition i + 1 starts, the first starts at 0 and the last ends at the total. */
  lemma SharesAbut(i: int, n: int, total: int)
    requires 0 <= i < n && 0 <= total
    ensures 0 <= Share(i, n, total).from <= Share(i, n, total).to <= total
    ensures i + 1 < n ==> Share(i + 1, n, total).from == Share(i, n, total).to
    ensures Share(0, n, total).from == 0 && Share(n - 1, n, total).to == total
  {
    hide Common.Min;
    ShareEnds(i, n, total);
    assert n * total / n == total by { MultiplyDivide(n, total); }
    assert 0 * total == 0 && 0 / n == 0;
  }

  lemma ShareEnds(i: int, n: int, total: int)
    requires 0 <= i < n && 0 <= total
    ensures 0 <= i * total / n <= (i + 1) * total / n <= total
  {
    MultiplyMonotone(total, 0, i);
    MultiplyMonotone(total, i, i + 1);
    MultiplyMonotone(total, i + 1, n);
    MultiplyDivide(n, 0);
    MultiplyDivide(n, total);
    DivisionMonotone(n * 0, i * total, n);
    DivisionMonotone(i * total, (i + 1) * total, n);
    DivisionMonotone((i + 1) * total, n * total, n);
  }

  lemma MultiplyDivide(n: int, x: int)
    requires n > 0
    ensures n * x / n == x
  {
    DivisionBounds(n * x, n);
    var q := n * x / n;
    if q < x { MultiplyMonotone(n, q + 1, x); }
    if q > x { MultiplyMonotone(n, x + 1, q); }
  }

  ghost predicate Owns(i: int, n: int, total: int, index: int)
    requires 0 <= i < n && 0 <= total
  {
    Share(i, n, total).from <= index < Share(i, n, total).to
  }

  /** Earlier partitions lie below later ones. */
  lemma {:induction false} SharesOrdered(i: int, j: int, n: int, total: int)
    requires 0 <= i < j < n && 0 <= total
    ensures Share(i, n, total).to <= Share(j, n, total).from
    decreases j - i
  {
    hide DefaultRange;
    SharesAbut(i, n, total);
    if i + 1 < j {
      SharesAbut(i + 1, n, total);
      SharesOrdered(i + 1, j, n, total);
    }
  }

  /** The shares tile [0, total): every index has an owner, and only one. */
  lemma SharesTile(n: int, total: int, index: int)
    requires 0 < n && 0 <= index < total
    ensures exists i :: 0 <= i < n && Owns(i, n, total, index)
    ensures forall i, j :: 0 <= i < n && 0 <= j < n && Owns(i, n, total, index) && Owns(j, n, total, index) ==> i == j
  {
    hide DefaultRange;
    SharesAbut(0, n, total);
    var owner := FindOwner(0, n, total, index);
    forall i, j | 0 <= i < n && 0 <= j < n && Owns(i, n, total, index) && Owns(j, n, total, index)
      ensures i == j
    {
      if i < j { SharesOrdered(i, j, n, total); }
      if j < i { SharesOrdered(j, i, n, total); }
    }
  }

  lemma {:induction false} FindOwner(i: int, n: int, total: int, index: int) returns (owner: int)
    requires 0 <= i < n && 0 <= index < total && Share(i, n, total).from <= index
    ensures 0 <= owner < n && Owns(owner, n, total, index)
    decreases n - i
  {
    hide DefaultRange;
    SharesAbut(i, n, total);
    if index < Share(i, n, total).to {
      owner := i;
    } else {
      owner := FindOwner(i + 1, n, total, index);
    }
  }

  /** The split is even: two shares differ by at most one item. */
  lemma SharesEven(i: int, j: int, n: int, total: int)
    requires 0 <= i < n && 0 <= j < n && 0 <= total
    ensures Share(i, n, total).to - Share(i, n, total).from <= Share(j, n, total).to - Share(j, n, total).from + 1
  {
    ShareSize(i, n, total);
    ShareSize(j, n, total);
  }

  /** A share holds total / n items, rounded down or up. */
  lemma ShareSize(i: int, n: int, total: int)
    requires 0 <= i < n && 0 <= total
    ensures total / n <= Share(i, n, total).to - Share(i, n, total).from <= total / n + 1
  {
    assert (i + 1) * total == i * total + total;
    SizeBetween(i * total, total, n);
  }

  lemma SizeBetween(a: int, total: int, n: int)
    requires n > 0 && 0 <= total
    ensures total / n <= (a + total) / n - a / n <= total / n + 1
  {
    var q, r := total / n, total % n;
    DivisionBounds(total, n);
    AddMultiple(a + r, q, n);
    assert a + total == a + r + n * q;
    DivisionMonotone(a, a + r, n);
    DivisionMonotone(a + r, a + n * 1, n);
    AddMultiple(a, 1, n);
  }

  lemma AddMultiple(a: int, q: int, n: int)
    requires n > 0
    ensures (a + n * q) / n == a / n + q
  {
    DivisionBounds(a, n);
    DivisionBounds(a + n * q, n);
    var (x, y) := ((a + n * q) / n, a / n + q);
    assert n * y == n * (a / n) + n * q;
    if x < y { MultiplyMonotone(n, x + 1, y); }
    if x > y { MultiplyMonotone(n, y + 1, x); }
  }

  /** What the first k partitions may read together. */
  ghost function Budgets(k: nat, n: int, total: int): int
    requires k <= n && 0 < n && 0 <= total
  {
    if k == 0 then 0 else Budgets(k - 1, n, total) + Share(k - 1, n, total).to - Share(k - 1, n, total).from
  }

  lemma {:induction false} BudgetsTelescope(k: nat, n: int, total: int)
    requires 0 < k <= n && 0 <= total
    ensures Budgets(k, n, total) == Share(k - 1, n, total).to
  {
    hide DefaultRange;
    SharesAbut(k - 1, n, total);
    if k > 1 {
      BudgetsTelescope(k - 1, n, total);
      SharesAbut(k - 2, n, total);
    } else {
      assert Budgets(0, n, total) == 0;
    }
  }

  /** The budgets of all n partitions add up to exactly the total. */
  lemma BudgetsAddUp(n: int, total: int)
    requires 0 < n && 0 <= total
    ensures Budgets(n, n, total) == total
  {
    hide DefaultRange;
    BudgetsTelescope(n, n, total);
    SharesAbut(n - 1, n, total);
  }
}

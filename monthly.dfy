/**
 * The monthly trend table: revenue resampled to calendar months, each bucket
 * labelled by the last day of its month, from the month of the earliest sale
 * to the month of the latest, with months without sales present as 0.
 */
module Monthly {
  import opened Models
  import opened Kpi

  /** Months counted from year 0: consecutive calendar months have consecutive indices. */
  function MonthIndex(d: DateTime): int
  {
    d.year * 12 + (d.month - 1)
  }

  predicate IsLeapYear(y: int)
  {
    y % 4 == 0 && (y % 100 != 0 || y % 400 == 0)
  }

  function DaysInMonth(y: int, m: Month): (n: int)
    ensures 28 <= n <= 31
  {
    if m == 2 then (if IsLeapYear(y) then 29 else 28)
    else if m == 4 || m == 6 || m == 9 || m == 11 then 30
    else 31
  }

  /** A bucket label: the last day of a month. */
  datatype MonthEnd = MonthEnd(year: int, month: Month, day: int)

  function MonthKey(e: MonthEnd): int
  {
    e.year * 12 + (e.month - 1)
  }

  /** The month-end label of the month with index `k`. */
  function MonthEndOf(k: int): (e: MonthEnd)
    ensures MonthKey(e) == k
    ensures e.day == DaysInMonth(e.year, e.month)
  {
    var m: Month := k % 12 + 1;
    MonthEnd(k / 12, m, DaysInMonth(k / 12, m))
  }

  /** The calendar month after month `m` of year `y`. */
  function NextMonth(y: int, m: Month): (int, Month)
  {
    if m == 12 then (y + 1, 1) else (y, m + 1)
  }

  /** Consecutive indices label consecutive calendar months. */
  lemma MonthEndSuccessor(k: int)
    ensures var a, b := MonthEndOf(k), MonthEndOf(k + 1);
      (b.year, b.month) == NextMonth(a.year, a.month)
  {
    var a, b := MonthEndOf(k), MonthEndOf(k + 1);
    if a.month == 12 {
      assert k % 12 == 11;
      assert (k + 1) % 12 == 0 && (k + 1) / 12 == k / 12 + 1;
    } else {
      assert (k + 1) % 12 == k % 12 + 1 && (k + 1) / 12 == k / 12;
    }
  }

  /** The month of the earliest sale. */
  function FirstMonth(rows: seq<SaleRow>): int
    requires rows != []
  {
    if |rows| == 1 then MonthIndex(rows[0].saleDate)
    else
      var k, m := FirstMonth(rows[..|rows| - 1]), MonthIndex(rows[|rows| - 1].saleDate);
      if m < k then m else k
  }

  /** The month of the latest sale. */
  function LastMonth(rows: seq<SaleRow>): int
    requires rows != []
  {
    if |rows| == 1 then MonthIndex(rows[0].saleDate)
    else
      var k, m := LastMonth(rows[..|rows| - 1]), MonthIndex(rows[|rows| - 1].saleDate);
      if m > k then m else k
  }

  /** Every sale lies between the first and the last month. */
  lemma {:induction false} MonthBounds(rows: seq<SaleRow>, i: nat)
    requires i < |rows|
    ensures FirstMonth(rows) <= MonthIndex(rows[i].saleDate) <= LastMonth(rows)
  {
    if i < |rows| - 1 {
      MonthBounds(rows[..|rows| - 1], i);
      assert rows[..|rows| - 1][i] == rows[i];
    }
  }

  /** The first and the last month are months in which something was sold. */
  lemma {:induction false} MonthBoundsAttained(rows: seq<SaleRow>)
    requires rows != []
    ensures exists i :: 0 <= i < |rows| && MonthIndex(rows[i].saleDate) == FirstMonth(rows)
    ensures exists i :: 0 <= i < |rows| && MonthIndex(rows[i].saleDate) == LastMonth(rows)
  {
    if |rows| > 1 {
      var init := rows[..|rows| - 1];
      MonthBoundsAttained(init);
      var i :| 0 <= i < |init| && MonthIndex(init[i].saleDate) == FirstMonth(init);
      var i' :| 0 <= i' < |init| && MonthIndex(init[i'].saleDate) == LastMonth(init);
      assert init[i] == rows[i] && init[i'] == rows[i'];
      var n := |rows| - 1;
      var first := if MonthIndex(rows[n].saleDate) < FirstMonth(init) then n else i;
      var last := if MonthIndex(rows[n].saleDate) > LastMonth(init) then n else i';
      assert MonthIndex(rows[first].saleDate) == FirstMonth(rows);
      assert MonthIndex(rows[last].saleDate) == LastMonth(rows);
    } else {
      assert MonthIndex(rows[0].saleDate) == FirstMonth(rows);
    }
  }

  /** All sales lie in the months `lo` to `hi - 1`. */
  predicate WithinMonths(rows: seq<SaleRow>, lo: int, hi: int)
  {
    forall i :: 0 <= i < |rows| ==> lo <= MonthIndex(rows[i].saleDate) < hi
  }

  lemma SpanCoversAll(rows: seq<SaleRow>)
    requires rows != []
    ensures WithinMonths(rows, FirstMonth(rows), LastMonth(rows) + 1)
  {
    forall i | 0 <= i < |rows|
      ensures FirstMonth(rows) <= MonthIndex(rows[i].saleDate) < LastMonth(rows) + 1
    {
      MonthBounds(rows, i);
    }
  }

  /** Reference definition: the revenue of exactly the sales made in month `k`. */
  function MonthRevenue(rows: seq<SaleRow>, k: int): int
  {
    if rows == [] then 0
    else
      var last := rows[|rows| - 1];
      MonthRevenue(rows[..|rows| - 1], k) + (if MonthIndex(last.saleDate) == k then last.totalRevenue else 0)
  }

  /** The revenue of the sales made in months `lo` up to, not including, `hi`. */
  function RevenueBetween(rows: seq<SaleRow>, lo: int, hi: int): int
  {
    if rows == [] then 0
    else
      var last := rows[|rows| - 1];
      RevenueBetween(rows[..|rows| - 1], lo, hi) +
        (if lo <= MonthIndex(last.saleDate) < hi then last.totalRevenue else 0)
  }

  /** A month in which nothing was sold sums to 0. */
  lemma {:induction false} EmptyMonthIsZero(rows: seq<SaleRow>, k: int)
    requires forall i :: 0 <= i < |rows| ==> MonthIndex(rows[i].saleDate) != k
    ensures MonthRevenue(rows, k) == 0
  {
    if rows != [] {
      EmptyMonthIsZero(rows[..|rows| - 1], k);
    }
  }

  lemma {:induction false} RevenueBetweenExtend(rows: seq<SaleRow>, lo: int, hi: int)
    requires lo <= hi
    ensures RevenueBetween(rows, lo, hi + 1) == RevenueBetween(rows, lo, hi) + MonthRevenue(rows, hi)
  {
    if rows != [] {
      RevenueBetweenExtend(rows[..|rows| - 1], lo, hi);
    }
  }

  lemma {:induction false} RevenueBetweenEmpty(rows: seq<SaleRow>, lo: int)
    ensures RevenueBetween(rows, lo, lo) == 0
  {
    if rows != [] {
      RevenueBetweenEmpty(rows[..|rows| - 1], lo);
    }
  }

  lemma {:induction false} RevenueBetweenCoversAll(rows: seq<SaleRow>, lo: int, hi: int)
    requires WithinMonths(rows, lo, hi)
    ensures RevenueBetween(rows, lo, hi) == TotalRevenue(rows)
  {
    if rows != [] {
      RevenueBetweenCoversAll(rows[..|rows| - 1], lo, hi);
    }
  }

  /** One resampled bucket: a month-end label and the revenue of that month. */
  datatype MonthTotal = MonthTotal(monthEnd: MonthEnd, revenue: int)

  function SumTotals(b: seq<MonthTotal>): int
  {
    if b == [] then 0 else SumTotals(b[..|b| - 1]) + b[|b| - 1].revenue
  }

  /** The bucket of the month with index `k`: its month-end label and the month's revenue. */
  function Bucket(rows: seq<SaleRow>, k: int): MonthTotal
  {
    MonthTotal(MonthEndOf(k), MonthRevenue(rows, k))
  }

  /** The `n` buckets for the months `lo`, `lo + 1`, ... */
  function Buckets(rows: seq<SaleRow>, lo: int, n: nat): (b: seq<MonthTotal>)
    ensures |b| == n
  {
    if n == 0 then [] else Buckets(rows, lo, n - 1) + [Bucket(rows, lo + n - 1)]
  }

  lemma {:induction false} BucketsAt(rows: seq<SaleRow>, lo: int, n: nat, j: nat)
    requires j < n
    ensures Buckets(rows, lo, n)[j] == Bucket(rows, lo + j)
  {
    if j < n - 1 {
      BucketsAt(rows, lo, n - 1, j);
    }
  }

  /** The buckets for months `lo` to `lo + n - 1` hold the revenue of the sales in those months. */
  lemma {:induction false} BucketsSum(rows: seq<SaleRow>, lo: int, n: nat)
    ensures SumTotals(Buckets(rows, lo, n)) == RevenueBetween(rows, lo, lo + n)
  {
    if n == 0 {
      RevenueBetweenEmpty(rows, lo);
    } else {
      var b := Buckets(rows, lo, n);
      assert b[..n - 1] == Buckets(rows, lo, n - 1);
      BucketsSum(rows, lo, n - 1);
      RevenueBetweenExtend(rows, lo, lo + n - 1);
    }
  }

  /** `resample('ME').sum()` of the revenue column; the buckets add up to the total revenue. */
  function MonthlySales(rows: seq<SaleRow>): (b: seq<MonthTotal>)
    ensures rows == [] ==> b == []
    ensures SumTotals(b) == TotalRevenue(rows)
  {
    if rows == [] then []
    else
      var lo, hi := FirstMonth(rows), LastMonth(rows);
      MonthBounds(rows, 0);
      SpanCoversAll(rows);
      RevenueBetweenCoversAll(rows, lo, hi + 1);
      BucketsSum(rows, lo, hi - lo + 1);
      Buckets(rows, lo, hi - lo + 1)
  }

  /** The trend table is the run of buckets from the first month to the last. */
  lemma MonthlySpan(rows: seq<SaleRow>)
    requires rows != []
    ensures FirstMonth(rows) <= LastMonth(rows)
    ensures MonthlySales(rows) == Buckets(rows, FirstMonth(rows), LastMonth(rows) - FirstMonth(rows) + 1)
  {
    MonthBounds(rows, 0);
  }

  /** One bucket per month from the earliest sale's month to the latest sale's. */
  lemma MonthlyLength(rows: seq<SaleRow>)
    requires rows != []
    ensures |MonthlySales(rows)| == LastMonth(rows) - FirstMonth(rows) + 1
  {
    MonthlySpan(rows);
  }

  /**
   * The j-th bucket is labelled by the end of month `FirstMonth + j` and
   * holds the revenue of exactly the sales in that month.
   */
  lemma MonthlyBucketAt(rows: seq<SaleRow>, j: nat)
    requires rows != [] && j < |MonthlySales(rows)|
    ensures MonthlySales(rows)[j] == Bucket(rows, FirstMonth(rows) + j)
  {
    MonthlySpan(rows);
    BucketsAt(rows, FirstMonth(rows), LastMonth(rows) - FirstMonth(rows) + 1, j);
  }

  /**
   * `b` is the monthly trend of the sales: one bucket per month from the
   * earliest sale's to the latest sale's, the j-th labelled by the end of
   * month `FirstMonth + j` and holding the revenue of exactly that month.
   */
  ghost predicate IsMonthTable(rows: seq<SaleRow>, b: seq<MonthTotal>)
    requires rows != []
  {
    |b| == LastMonth(rows) - FirstMonth(rows) + 1 &&
    forall j :: 0 <= j < |b| ==> b[j] == Bucket(rows, FirstMonth(rows) + j)
  }

  lemma MonthlyTable(rows: seq<SaleRow>)
    requires rows != []
    ensures IsMonthTable(rows, MonthlySales(rows))
  {
    MonthlyLength(rows);
    forall j | 0 <= j < |MonthlySales(rows)|
      ensures MonthlySales(rows)[j] == Bucket(rows, FirstMonth(rows) + j)
    {
      MonthlyBucketAt(rows, j);
    }
  }

  /** The buckets run over consecutive calendar months. */
  lemma MonthlyConsecutive(rows: seq<SaleRow>, j: nat)
    requires rows != [] && j + 1 < |MonthlySales(rows)|
    ensures var b := MonthlySales(rows);
      (b[j + 1].monthEnd.year, b[j + 1].monthEnd.month) == NextMonth(b[j].monthEnd.year, b[j].monthEnd.month)
  {
    MonthlyBucketAt(rows, j);
    MonthlyBucketAt(rows, j + 1);
    MonthEndSuccessor(FirstMonth(rows) + j);
  }

  /** The first bucket is the month of the earliest sale, the last that of the latest. */
  lemma MonthlyEnds(rows: seq<SaleRow>)
    requires rows != []
    ensures var b := MonthlySales(rows);
      MonthKey(b[0].monthEnd) == FirstMonth(rows) && MonthKey(b[|b| - 1].monthEnd) == LastMonth(rows)
  {
    MonthlyLength(rows);
    MonthlyBucketAt(rows, 0);
    MonthlyBucketAt(rows, |MonthlySales(rows)| - 1);
  }

  /** Every sale falls in one of the buckets. */
  lemma MonthlyCoversSales(rows: seq<SaleRow>, i: nat)
    requires i < |rows|
    ensures var b := MonthlySales(rows);
      exists j :: 0 <= j < |b| && MonthKey(b[j].monthEnd) == MonthIndex(rows[i].saleDate)
  {
    var lo := FirstMonth(rows);
    MonthlyLength(rows);
    MonthBounds(rows, i);
    var j := MonthIndex(rows[i].saleDate) - lo;
    MonthlyBucketAt(rows, j);
    assert MonthKey(MonthlySales(rows)[j].monthEnd) == lo + j;
  }
}

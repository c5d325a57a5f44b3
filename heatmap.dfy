/**
 * The hour-by-weekday table behind the heatmap: a count of sales per
 * (hour, weekday) cell, the columns reindexed to Monday..Sunday, the rows
 * only the hours at which something was sold.
 */
module Heatmap {
  import opened Models
  import opened Kpi

  /** The column order the table is reindexed to. */
  const DaysOrder: seq<string> := ["Monday", "Tuesday", "Wednesday", "Thursday", "Friday", "Saturday", "Sunday"]

  /** Reference definition: the number of sales with hour in [hLo, hHi) and weekday in [dLo, dHi). */
  function CountIn(rows: seq<SaleRow>, hLo: int, hHi: int, dLo: int, dHi: int): nat
  {
    if rows == [] then 0
    else
      var at := rows[|rows| - 1].saleDate;
      CountIn(rows[..|rows| - 1], hLo, hHi, dLo, dHi) +
        (if hLo <= at.hour < hHi && dLo <= at.weekday < dHi then 1 else 0)
  }

  /** The number of sales made at hour `h` on weekday `d`. */
  function SalesAt(rows: seq<SaleRow>, h: int, d: int): nat
  {
    CountIn(rows, h, h + 1, d, d + 1)
  }

  predicate HourOccurs(rows: seq<SaleRow>, h: int)
  {
    exists i :: 0 <= i < |rows| && rows[i].saleDate.hour == h
  }

  lemma {:induction false} SplitHours(rows: seq<SaleRow>, a: int, b: int, c: int, dLo: int, dHi: int)
    requires a <= b <= c
    ensures CountIn(rows, a, c, dLo, dHi) == CountIn(rows, a, b, dLo, dHi) + CountIn(rows, b, c, dLo, dHi)
  {
    if rows != [] {
      SplitHours(rows[..|rows| - 1], a, b, c, dLo, dHi);
    }
  }

  lemma {:induction false} SplitDays(rows: seq<SaleRow>, hLo: int, hHi: int, a: int, b: int, c: int)
    requires a <= b <= c
    ensures CountIn(rows, hLo, hHi, a, c) == CountIn(rows, hLo, hHi, a, b) + CountIn(rows, hLo, hHi, b, c)
  {
    if rows != [] {
      SplitDays(rows[..|rows| - 1], hLo, hHi, a, b, c);
    }
  }

  /** Every sale has an hour in 0..23 and a weekday in 0..6. */
  lemma {:induction false} CountAll(rows: seq<SaleRow>)
    ensures CountIn(rows, 0, 24, 0, 7) == |rows|
  {
    if rows != [] {
      CountAll(rows[..|rows| - 1]);
    }
  }

  lemma {:induction false} CountAbsentHour(rows: seq<SaleRow>, h: int, dLo: int, dHi: int)
    requires !HourOccurs(rows, h)
    ensures CountIn(rows, h, h + 1, dLo, dHi) == 0
  {
    if rows != [] {
      var prefix := rows[..|rows| - 1];
      forall i | 0 <= i < |prefix|
        ensures prefix[i].saleDate.hour != h
      {
        assert prefix[i] == rows[i];
      }
      assert rows[|rows| - 1].saleDate.hour != h;
      CountAbsentHour(prefix, h, dLo, dHi);
    }
  }

  function SumCounts(c: seq<nat>): nat
  {
    if c == [] then 0 else SumCounts(c[..|c| - 1]) + c[|c| - 1]
  }

  /** The first `n` cells of the row for hour `h`. */
  function DayCounts(rows: seq<SaleRow>, h: int, n: nat): (c: seq<nat>)
    requires n <= 7
    ensures |c| == n
    ensures forall d :: 0 <= d < n ==> c[d] == SalesAt(rows, h, d)
    ensures SumCounts(c) == CountIn(rows, h, h + 1, 0, n)
  {
    if n == 0 then
      assert CountIn(rows, h, h + 1, 0, 0) == 0 by {
        SplitDays(rows, h, h + 1, 0, 0, 0);
      }
      []
    else
      var c := DayCounts(rows, h, n - 1) + [SalesAt(rows, h, n - 1)];
      assert c[..n - 1] == DayCounts(rows, h, n - 1);
      SplitDays(rows, h, h + 1, 0, n - 1, n);
      c
  }

  datatype PivotRow = PivotRow(hour: Hour, counts: seq<nat>)
  datatype Pivot = Pivot(columns: seq<string>, rows: seq<PivotRow>)

  function RowTotal(p: seq<PivotRow>): nat
  {
    if p == [] then 0 else SumCounts(p[0].counts) + RowTotal(p[1..])
  }

  /** The rows for the hours from `h` on at which something was sold, in increasing hour order. */
  function RowsFrom(rows: seq<SaleRow>, h: nat): (p: seq<PivotRow>)
    requires h <= 24
    ensures forall i :: 0 <= i < |p| ==>
      h <= p[i].hour && HourOccurs(rows, p[i].hour) && p[i].counts == DayCounts(rows, p[i].hour, 7)
    ensures forall i, j :: 0 <= i < j < |p| ==> p[i].hour < p[j].hour
    decreases 24 - h
  {
    if h == 24 then []
    else if HourOccurs(rows, h) then
      var rest := RowsFrom(rows, h + 1);
      var p := [PivotRow(h, DayCounts(rows, h, 7))] + rest;
      assert p[1..] == rest;
      p
    else RowsFrom(rows, h + 1)
  }

  /** Every hour from `h` on at which something was sold has its row. */
  lemma {:induction false} RowsFromComplete(rows: seq<SaleRow>, h: nat, g: int)
    requires h <= g < 24 && HourOccurs(rows, g)
    ensures exists i :: 0 <= i < |RowsFrom(rows, h)| && RowsFrom(rows, h)[i].hour == g
    decreases 24 - h
  {
    var p := RowsFrom(rows, h);
    if g == h {
      assert p[0].hour == g;
    } else {
      RowsFromComplete(rows, h + 1, g);
      var rest := RowsFrom(rows, h + 1);
      var i :| 0 <= i < |rest| && rest[i].hour == g;
      if HourOccurs(rows, h) {
        assert p[i + 1] == rest[i];
      }
    }
  }

  /** There are at most 24 - h rows from hour `h` on, exactly that many when every such hour has a sale. */
  lemma {:induction false} RowsFromSize(rows: seq<SaleRow>, h: nat)
    requires h <= 24
    ensures |RowsFrom(rows, h)| <= 24 - h
    ensures |RowsFrom(rows, h)| == 24 - h <==> forall g :: h <= g < 24 ==> HourOccurs(rows, g)
    decreases 24 - h
  {
    if h < 24 {
      RowsFromSize(rows, h + 1);
    }
  }

  /** The cells of the rows from hour `h` on count every sale made at hour `h` or later. */
  lemma {:induction false} RowsFromTotal(rows: seq<SaleRow>, h: nat)
    requires h <= 24
    ensures RowTotal(RowsFrom(rows, h)) == CountIn(rows, h, 24, 0, 7)
    decreases 24 - h
  {
    if h == 24 {
      SplitHours(rows, 24, 24, 24, 0, 7);
    } else {
      RowsFromTotal(rows, h + 1);
      SplitHours(rows, h, h + 1, 24, 0, 7);
      var p := RowsFrom(rows, h);
      if HourOccurs(rows, h) {
        assert p[1..] == RowsFrom(rows, h + 1);
      } else {
        CountAbsentHour(rows, h, 0, 7);
      }
    }
  }

  /** `pivot_table(index='hour', columns='day', aggfunc='count')` reindexed to Monday..Sunday. */
  function PivotTable(rows: seq<SaleRow>): Pivot
  {
    Pivot(DaysOrder, RowsFrom(rows, 0))
  }

  /**
   * The table has the seven weekday columns in order; its rows are exactly
   * the hours at which something was sold, increasing; every cell counts
   * the sales at its hour and weekday; and the cells add up to the number
   * of sales.
   */
  predicate CountsByOccurringHour(rows: seq<SaleRow>, p: Pivot)
  {
    p.columns == DaysOrder &&
    (forall i :: 0 <= i < |p.rows| ==> HourOccurs(rows, p.rows[i].hour)) &&
    (forall h :: 0 <= h < 24 && HourOccurs(rows, h) ==> exists i :: 0 <= i < |p.rows| && p.rows[i].hour == h) &&
    (forall i, j :: 0 <= i < j < |p.rows| ==> p.rows[i].hour < p.rows[j].hour) &&
    (forall i, d :: 0 <= i < |p.rows| && 0 <= d < 7 ==>
      |p.rows[i].counts| == 7 && p.rows[i].counts[d] == SalesAt(rows, p.rows[i].hour, d)) &&
    RowTotal(p.rows) == |rows|
  }

  /** The table `pivot_table` and the column reindexing compute has that shape and those counts. */
  lemma PivotTableContract(rows: seq<SaleRow>)
    ensures CountsByOccurringHour(rows, PivotTable(rows))
  {
    CountAll(rows);
    RowsFromTotal(rows, 0);
    forall h | 0 <= h < 24 && HourOccurs(rows, h)
      ensures exists i :: 0 <= i < |RowsFrom(rows, 0)| && RowsFrom(rows, 0)[i].hour == h
    {
      RowsFromComplete(rows, 0, h);
    }
  }

  /** There are 24 rows exactly when every hour of the day has a sale. */
  lemma PivotHasAllHoursIff(rows: seq<SaleRow>)
    ensures |PivotTable(rows).rows| == 24 <==> forall h :: 0 <= h < 24 ==> HourOccurs(rows, h)
  {
    RowsFromSize(rows, 0);
  }

  // ---------------------------------------------------------------------------
  // Row labels of the heatmap

  /**
   * The heatmap draws the i-th row of the table at height i and puts the
   * tick label i there: the labels are right when row i is hour i.
   */
  predicate RowsMatchTicks(p: Pivot)
  {
    forall i :: 0 <= i < |p.rows| ==> p.rows[i].hour == i
  }

  /** A single sale at 05:00 gives rows of hour 5 only; the first is drawn under the tick label 0. */
  lemma TicksMislabelSparseHours(d: DateTime)
    requires d.hour == 5
    ensures var rows := [SaleRow(d, "Lamp", "Home", 1, 2500)];
      |PivotTable(rows).rows| >= 1 && PivotTable(rows).rows[0].hour == 5 && !RowsMatchTicks(PivotTable(rows))
  {
    var rows := [SaleRow(d, "Lamp", "Home", 1, 2500)];
    var p := PivotTable(rows);
    PivotTableContract(rows);
    assert HourOccurs(rows, 5);
    assert forall i :: 0 <= i < |p.rows| ==> p.rows[i].hour == 5;
  }

  /** All 24 rows from hour `h` on, an hour without sales as a row of zeros. */
  function AllRowsFrom(rows: seq<SaleRow>, h: nat): (p: seq<PivotRow>)
    requires h <= 24
    ensures |p| == 24 - h
    ensures forall i :: 0 <= i < |p| ==> p[i].hour == h + i && p[i].counts == DayCounts(rows, h + i, 7)
    decreases 24 - h
  {
    if h == 24 then []
    else
      var rest := AllRowsFrom(rows, h + 1);
      var p := [PivotRow(h, DayCounts(rows, h, 7))] + rest;
      assert p[1..] == rest;
      p
  }

  lemma {:induction false} AllRowsFromTotal(rows: seq<SaleRow>, h: nat)
    requires h <= 24
    ensures RowTotal(AllRowsFrom(rows, h)) == CountIn(rows, h, 24, 0, 7)
    decreases 24 - h
  {
    if h == 24 {
      SplitHours(rows, 24, 24, 24, 0, 7);
    } else {
      AllRowsFromTotal(rows, h + 1);
      SplitHours(rows, h, h + 1, 24, 0, 7);
      assert AllRowsFrom(rows, h)[1..] == AllRowsFrom(rows, h + 1);
    }
  }

  /** The table reindexed to the 24 hours as well as to the 7 days. */
  function ReindexedPivot(rows: seq<SaleRow>): Pivot
  {
    Pivot(DaysOrder, AllRowsFrom(rows, 0))
  }

  /**
   * The reindexed table is 24 by 7 with row i for hour i, so the 24 tick
   * labels are right; every cell counts the sales at its hour and weekday,
   * and the cells add up to the number of sales.
   */
  lemma ReindexedPivotContract(rows: seq<SaleRow>)
    ensures var q := ReindexedPivot(rows);
      |q.rows| == 24 && RowsMatchTicks(q) && q.columns == DaysOrder &&
      (forall h, d :: 0 <= h < 24 && 0 <= d < 7 ==>
        |q.rows[h].counts| == 7 && q.rows[h].counts[d] == SalesAt(rows, h, d)) &&
      RowTotal(q.rows) == |rows|
  {
    CountAll(rows);
    AllRowsFromTotal(rows, 0);
  }

  /**
   * The reindexed table holds every row of the table as computed, under its
   * hour, and zeros at the hours without sales.
   */
  lemma ReindexedPivotExtends(rows: seq<SaleRow>)
    ensures var q := ReindexedPivot(rows);
      (forall r :: r in PivotTable(rows).rows ==> q.rows[r.hour] == r) &&
      (forall h, d :: 0 <= h < 24 && 0 <= d < 7 && !HourOccurs(rows, h) ==> q.rows[h].counts[d] == 0)
  {
    var q := ReindexedPivot(rows);
    forall r | r in PivotTable(rows).rows
      ensures q.rows[r.hour] == r
    {
      assert q.rows[r.hour].hour == r.hour;
    }
    forall h, d | 0 <= h < 24 && 0 <= d < 7 && !HourOccurs(rows, h)
      ensures q.rows[h].counts[d] == 0
    {
      CountAbsentHour(rows, h, d, d + 1);
    }
  }
}

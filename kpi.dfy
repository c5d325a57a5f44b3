/**
 * The KPI part of the dashboard: revenue and item totals, revenue per
 * category in group-by order, the top category and the low-stock filter.
 */
module Kpi {
  import opened Models
  import opened KeyOrder

  /**
   * One sale as the report queries load it: the sale's own columns joined
   * with its product's name and category. The category is the stored string.
   */
  datatype SaleRow = SaleRow(
    saleDate: DateTime,
    productName: string,
    category: string,
    quantitySold: int,
    totalRevenue: int)

  /** The row a sale and its product contribute to a query. */
  function RowOf(s: Sale): (r: SaleRow)
    reads s, s.product
  {
    SaleRow(s.saleDate, s.product.name, CategoryName(s.product.category), s.quantitySold, s.totalRevenue)
  }

  /** All sales as rows, in query order. */
  function RowsOf(sales: seq<Sale>): (rows: seq<SaleRow>)
    reads set s | s in sales, set s | s in sales :: s.product
    ensures |rows| == |sales|
    ensures forall i :: 0 <= i < |sales| ==>
      rows[i].saleDate == sales[i].saleDate &&
      rows[i].productName == sales[i].product.name &&
      rows[i].totalRevenue == sales[i].totalRevenue &&
      rows[i].quantitySold == sales[i].quantitySold &&
      rows[i].category == CategoryName(sales[i].product.category)
  {
    if sales == [] then [] else RowsOf(sales[..|sales| - 1]) + [RowOf(sales[|sales| - 1])]
  }

  // ---------------------------------------------------------------------------
  // Totals

  /** Sum of the revenue column. */
  function TotalRevenue(rows: seq<SaleRow>): int
  {
    if rows == [] then 0 else TotalRevenue(rows[..|rows| - 1]) + rows[|rows| - 1].totalRevenue
  }

  /** Sum of the quantity column. */
  function ItemsSold(rows: seq<SaleRow>): int
  {
    if rows == [] then 0 else ItemsSold(rows[..|rows| - 1]) + rows[|rows| - 1].quantitySold
  }

  /** Both totals are additive over any split of the sales. */
  lemma {:induction false} TotalsAppend(a: seq<SaleRow>, b: seq<SaleRow>)
    ensures TotalRevenue(a + b) == TotalRevenue(a) + TotalRevenue(b)
    ensures ItemsSold(a + b) == ItemsSold(a) + ItemsSold(b)
    decreases |b|
  {
    if b == [] {
      assert a + b == a;
    } else {
      assert (a + b)[..|a + b| - 1] == a + b[..|b| - 1];
      TotalsAppend(a, b[..|b| - 1]);
    }
  }

  /**
   * Revenue is derived per sale, so when every stored revenue equals
   * `price * quantity`, the total is the sum of those products.
   */
  lemma {:induction false} TotalRevenueOfDerivedRows(rows: seq<SaleRow>, price: seq<int>)
    requires |price| == |rows|
    requires forall i :: 0 <= i < |rows| ==> rows[i].totalRevenue == price[i] * rows[i].quantitySold
    ensures TotalRevenue(rows) == PriceTimesQuantity(rows, price)
  {
    if rows != [] {
      TotalRevenueOfDerivedRows(rows[..|rows| - 1], price[..|price| - 1]);
    }
  }

  function PriceTimesQuantity(rows: seq<SaleRow>, price: seq<int>): int
    requires |price| == |rows|
  {
    if rows == [] then 0
    else PriceTimesQuantity(rows[..|rows| - 1], price[..|price| - 1]) + price[|price| - 1] * rows[|rows| - 1].quantitySold
  }

  // ---------------------------------------------------------------------------
  // Revenue per category

  datatype CategoryTotal = CategoryTotal(category: string, revenue: int)

  predicate HasCategory(rows: seq<SaleRow>, c: string)
  {
    exists i :: 0 <= i < |rows| && rows[i].category == c
  }

  /** Reference definition: the revenue of exactly the sales in category `c`. */
  function CategoryRevenue(rows: seq<SaleRow>, c: string): int
  {
    if rows == [] then 0
    else CategoryRevenue(rows[..|rows| - 1], c) + (if rows[|rows| - 1].category == c then rows[|rows| - 1].totalRevenue else 0)
  }

  predicate HasKey(t: seq<CategoryTotal>, c: string)
  {
    exists i :: 0 <= i < |t| && t[i].category == c
  }

  /** Keys in strictly increasing order, hence distinct. */
  predicate StrictlySorted(t: seq<CategoryTotal>)
  {
    forall i, j :: 0 <= i < j < |t| ==> Below(t[i].category, t[j].category)
  }

  /** The amount held under key `c`, 0 when there is none. */
  function AmountOf(t: seq<CategoryTotal>, c: string): (r: int)
    ensures !HasKey(t, c) ==> r == 0
  {
    if t == [] then 0 else if t[0].category == c then t[0].revenue else AmountOf(t[1..], c)
  }

  function SumRevenue(t: seq<CategoryTotal>): int
  {
    if t == [] then 0 else t[0].revenue + SumRevenue(t[1..])
  }

  /** In a sorted table the amount under an entry's key is that entry's amount. */
  lemma {:induction false} AmountAtEntry(t: seq<CategoryTotal>, i: nat)
    requires StrictlySorted(t) && i < |t|
    ensures AmountOf(t, t[i].category) == t[i].revenue
  {
    if i > 0 {
      assert Below(t[0].category, t[i].category);
      BelowIrreflexive(t[i].category);
      assert StrictlySorted(t[1..]);
      AmountAtEntry(t[1..], i - 1);
    }
  }

  /** Adds `v` under key `c`: into the entry for `c` if there is one, else as a new entry in key order. */
  function Insert(t: seq<CategoryTotal>, c: string, v: int): seq<CategoryTotal>
  {
    if t == [] then [CategoryTotal(c, v)]
    else if t[0].category == c then [CategoryTotal(c, t[0].revenue + v)] + t[1..]
    else if Below(c, t[0].category) then [CategoryTotal(c, v)] + t
    else [t[0]] + Insert(t[1..], c, v)
  }

  lemma HasKeyCons(e: CategoryTotal, t: seq<CategoryTotal>, k: string)
    ensures HasKey([e] + t, k) <==> e.category == k || HasKey(t, k)
  {
    var u := [e] + t;
    if e.category == k {
      assert u[0].category == k;
    }
    if HasKey(t, k) {
      var i :| 0 <= i < |t| && t[i].category == k;
      assert u[i + 1].category == k;
    }
    if HasKey(u, k) && e.category != k {
      var i :| 0 <= i < |u| && u[i].category == k;
      assert t[i - 1].category == k;
    }
  }

  lemma SortedTail(t: seq<CategoryTotal>)
    requires StrictlySorted(t) && t != []
    ensures StrictlySorted(t[1..])
    ensures forall k :: HasKey(t[1..], k) ==> Below(t[0].category, k)
  {
    forall k | HasKey(t[1..], k)
      ensures Below(t[0].category, k)
    {
      var i :| 0 <= i < |t[1..]| && t[1..][i].category == k;
      assert t[i + 1].category == k;
    }
  }

  lemma SortedCons(e: CategoryTotal, t: seq<CategoryTotal>)
    requires StrictlySorted(t)
    requires forall k :: HasKey(t, k) ==> Below(e.category, k)
    ensures StrictlySorted([e] + t)
  {
    var u := [e] + t;
    forall i, j | 0 <= i < j < |u|
      ensures Below(u[i].category, u[j].category)
    {
      if i == 0 {
        assert t[j - 1].category == u[j].category;
        assert HasKey(t, u[j].category);
      } else {
        assert u[i] == t[i - 1] && u[j] == t[j - 1];
      }
    }
  }

  /** Inserting keeps the keys sorted and adds exactly the key `c`. */
  lemma {:induction false} InsertKeys(t: seq<CategoryTotal>, c: string, v: int)
    requires StrictlySorted(t)
    ensures StrictlySorted(Insert(t, c, v))
    ensures forall k :: HasKey(Insert(t, c, v), k) <==> HasKey(t, k) || k == c
  {
    var u := Insert(t, c, v);
    if t == [] {
      assert u[0].category == c;
    } else if t[0].category == c {
      SortedTail(t);
      SortedCons(CategoryTotal(c, t[0].revenue + v), t[1..]);
      forall k ensures HasKey(u, k) <==> HasKey(t, k) || k == c {
        HasKeyCons(CategoryTotal(c, t[0].revenue + v), t[1..], k);
        HasKeyCons(t[0], t[1..], k);
        assert [t[0]] + t[1..] == t;
      }
    } else if Below(c, t[0].category) {
      forall k | HasKey(t, k)
        ensures Below(c, k)
      {
        var i :| 0 <= i < |t| && t[i].category == k;
        if i > 0 {
          BelowTransitive(c, t[0].category, k);
        }
      }
      SortedCons(CategoryTotal(c, v), t);
      forall k ensures HasKey(u, k) <==> HasKey(t, k) || k == c {
        HasKeyCons(CategoryTotal(c, v), t, k);
      }
    } else {
      BelowTotal(c, t[0].category);
      SortedTail(t);
      var rest := Insert(t[1..], c, v);
      InsertKeys(t[1..], c, v);
      SortedCons(t[0], rest);
      forall k ensures HasKey(u, k) <==> HasKey(t, k) || k == c {
        HasKeyCons(t[0], rest, k);
        HasKeyCons(t[0], t[1..], k);
        assert [t[0]] + t[1..] == t;
      }
    }
  }

  /** Inserting adds `v` to the amount under `c` and changes no other amount. */
  lemma {:induction false} InsertAmounts(t: seq<CategoryTotal>, c: string, v: int, k: string)
    requires StrictlySorted(t)
    ensures AmountOf(Insert(t, c, v), k) == AmountOf(t, k) + (if k == c then v else 0)
    ensures SumRevenue(Insert(t, c, v)) == SumRevenue(t) + v
  {
    var u := Insert(t, c, v);
    if t == [] {
    } else if t[0].category == c {
      assert u[1..] == t[1..];
    } else if Below(c, t[0].category) {
      assert u[1..] == t;
      if k == c && HasKey(t, c) {
        var i :| 0 <= i < |t| && t[i].category == c;
        BelowIrreflexive(c);
        if i > 0 {
          BelowTransitive(c, t[0].category, c);
        }
      }
    } else {
      SortedTail(t);
      InsertAmounts(t[1..], c, v, k);
      assert u[1..] == Insert(t[1..], c, v);
    }
  }

  /** A category occurs in the sales iff it occurs before the last sale or is the last sale's. */
  lemma HasCategorySnoc(rows: seq<SaleRow>)
    requires rows != []
    ensures forall k :: HasCategory(rows, k) <==> HasCategory(rows[..|rows| - 1], k) || k == rows[|rows| - 1].category
  {
    var prefix := rows[..|rows| - 1];
    forall k ensures HasCategory(rows, k) <==> HasCategory(prefix, k) || k == rows[|rows| - 1].category {
      if HasCategory(prefix, k) {
        var i :| 0 <= i < |prefix| && prefix[i].category == k;
        assert rows[i].category == k;
      }
      if HasCategory(rows, k) && k != rows[|rows| - 1].category {
        var i :| 0 <= i < |rows| && rows[i].category == k;
        assert prefix[i].category == k;
      }
    }
  }

  /**
   * `t` is the revenue-per-category table of the sales: keys in sorted order,
   * a key for exactly each category sold, each holding the revenue of exactly
   * that category's sales.
   */
  ghost predicate IsCategoryTable(rows: seq<SaleRow>, t: seq<CategoryTotal>)
  {
    StrictlySorted(t) &&
    (forall k :: HasKey(t, k) <==> HasCategory(rows, k)) &&
    (forall k :: AmountOf(t, k) == CategoryRevenue(rows, k))
  }

  /**
   * The group-by: one entry per category that occurs, keys in sorted order,
   * each holding the revenue of exactly the sales in that category.
   */
  function CategoryTotals(rows: seq<SaleRow>): (t: seq<CategoryTotal>)
    ensures StrictlySorted(t)
    ensures forall k :: HasKey(t, k) <==> HasCategory(rows, k)
    ensures forall k :: AmountOf(t, k) == CategoryRevenue(rows, k)
    ensures SumRevenue(t) == TotalRevenue(rows)
  {
    if rows == [] then []
    else
      var prefix, last := rows[..|rows| - 1], rows[|rows| - 1];
      var before := CategoryTotals(prefix);
      var t := Insert(before, last.category, last.totalRevenue);
      InsertKeys(before, last.category, last.totalRevenue);
      InsertAmounts(before, last.category, last.totalRevenue, last.category);
      assert forall k :: AmountOf(t, k) == AmountOf(before, k) + (if k == last.category then last.totalRevenue else 0) by {
        forall k ensures AmountOf(t, k) == AmountOf(before, k) + (if k == last.category then last.totalRevenue else 0) {
          InsertAmounts(before, last.category, last.totalRevenue, k);
        }
      }
      HasCategorySnoc(rows);
      t
  }

  /** The group-by is the revenue-per-category table of the sales. */
  lemma CategoryTable(rows: seq<SaleRow>)
    ensures IsCategoryTable(rows, CategoryTotals(rows))
  {
  }

  /** Each entry of the group-by holds the revenue of its category, and the entries add up to the total. */
  lemma {:induction false} CategoryTotalsContract(rows: seq<SaleRow>)
    ensures var t := CategoryTotals(rows);
      (forall i :: 0 <= i < |t| ==> t[i].revenue == CategoryRevenue(rows, t[i].category)) &&
      (forall k :: HasKey(t, k) <==> HasCategory(rows, k)) &&
      SumRevenue(t) == TotalRevenue(rows)
  {
    var t := CategoryTotals(rows);
    forall i | 0 <= i < |t|
      ensures t[i].revenue == CategoryRevenue(rows, t[i].category)
    {
      AmountAtEntry(t, i);
    }
  }

  // ---------------------------------------------------------------------------
  // Top category

  /** `idxmax`: the position of the first largest amount. */
  function TopIndex(t: seq<CategoryTotal>): (i: nat)
    requires |t| > 0
    ensures i < |t|
    ensures forall j :: 0 <= j < |t| ==> t[j].revenue <= t[i].revenue
    ensures forall j :: 0 <= j < i ==> t[j].revenue < t[i].revenue
  {
    if |t| == 1 then 0
    else
      var k := TopIndex(t[..|t| - 1]);
      if t[|t| - 1].revenue > t[k].revenue then |t| - 1 else k
  }

  const NoCategory: string := "N/A"

  function TopCategory(t: seq<CategoryTotal>): string
  {
    if t == [] then NoCategory else t[TopIndex(t)].category
  }

  /**
   * `top` occurs in the sales, no occurring category has more revenue, and
   * among the categories tied for the most revenue it is the first in key
   * order.
   */
  ghost predicate IsFirstArgMax(rows: seq<SaleRow>, top: string)
  {
    HasCategory(rows, top) &&
    (forall c :: HasCategory(rows, c) ==> CategoryRevenue(rows, c) <= CategoryRevenue(rows, top)) &&
    (forall c :: HasCategory(rows, c) && CategoryRevenue(rows, c) == CategoryRevenue(rows, top) ==>
       c == top || Below(top, c))
  }

  /** For any non-empty set of sales the top category is the first category with the most revenue. */
  lemma {:induction false} TopCategoryIsFirstArgMax(rows: seq<SaleRow>)
    requires rows != []
    ensures IsFirstArgMax(rows, TopCategory(CategoryTotals(rows)))
  {
    var t := CategoryTotals(rows);
    assert HasCategory(rows, rows[0].category);
    assert HasKey(t, rows[0].category);
    var i := TopIndex(t);
    var top := t[i].category;
    assert HasKey(t, top);
    AmountAtEntry(t, i);
    assert t[i].revenue == CategoryRevenue(rows, top);
    forall c | HasCategory(rows, c)
      ensures CategoryRevenue(rows, c) <= CategoryRevenue(rows, top)
      ensures CategoryRevenue(rows, c) == CategoryRevenue(rows, top) ==> c == top || Below(top, c)
    {
      assert HasKey(t, c);
      var j :| 0 <= j < |t| && t[j].category == c;
      AmountAtEntry(t, j);
      assert t[j].revenue == CategoryRevenue(rows, c);
      assert t[j].revenue <= t[i].revenue;
      if t[j].revenue == t[i].revenue && j != i {
        assert i < j;
        assert Below(t[i].category, t[j].category);
      }
    }
  }

  /** Those three properties leave no choice: they single out one category. */
  lemma {:induction false} TopCategoryUnique(rows: seq<SaleRow>, c: string)
    requires rows != [] && IsFirstArgMax(rows, c)
    ensures c == TopCategory(CategoryTotals(rows))
  {
    var top := TopCategory(CategoryTotals(rows));
    TopCategoryIsFirstArgMax(rows);
    if c != top {
      assert Below(top, c) && Below(c, top);
      BelowAsymmetric(top, c);
    }
  }

  /**
   * A tie goes to the key that sorts first, whatever the order of the sales:
   * toys listed first, books winning.
   */
  lemma TieGoesToFirstKey(d: DateTime)
    ensures var rows := [SaleRow(d, "Robot", "Toys", 1, 500), SaleRow(d, "Novel", "Books", 2, 500)];
      TopCategory(CategoryTotals(rows)) == "Books"
  {
    var rows := [SaleRow(d, "Robot", "Toys", 1, 500), SaleRow(d, "Novel", "Books", 2, 500)];
    assert rows[..1] == [rows[0]] && rows[..1][..0] == [];
    assert Below("Books", "Toys");
    var first := CategoryTotals(rows[..1]);
    assert CategoryTotals(rows[..1][..0]) == [];
    assert first == Insert([], "Toys", 500) == [CategoryTotal("Toys", 500)];
    assert CategoryTotals(rows) == Insert(first, "Books", 500);
    assert "Toys"[0] != "Books"[0];
    assert CategoryTotals(rows) == [CategoryTotal("Books", 500), CategoryTotal("Toys", 500)];
  }

  /** With no sales there are no groups and the top category is "N/A". */
  lemma NoSalesNoCategory()
    ensures CategoryTotals([]) == [] && TopCategory(CategoryTotals([])) == NoCategory
  {
  }

  // ---------------------------------------------------------------------------
  // Low stock

  /** The products whose stock is strictly below their reorder point, in query order. */
  function LowStock(products: seq<Product>): (r: seq<Product>)
    reads set p | p in products
    ensures forall i :: 0 <= i < |r| ==> r[i] in products && r[i].currentStockLevel < r[i].reorderPoint
    ensures forall i :: 0 <= i < |products| && products[i].currentStockLevel < products[i].reorderPoint ==>
      products[i] in r
    ensures |r| <= |products|
  {
    if products == [] then []
    else
      var rest := LowStock(products[..|products| - 1]);
      var p := products[|products| - 1];
      if p.currentStockLevel < p.reorderPoint then rest + [p] else rest
  }
}

/**
 * `export_csv`: the sales report as a table of records, a header record
 * followed by one record per sale. Quoting and escaping of the fields on the
 * way to text are not part of this model; the timestamp cell is kept as a
 * value.
 */
module Export {
  import opened Wrappers
  import opened Models
  import opened Formatting
  import opened Kpi

  datatype Cell = Text(text: string) | Stamp(at: DateTime)

  /** The query's field names, in the order the query lists them. */
  const Columns: seq<string> := ["sale_date", "product__name", "product__category", "quantity_sold", "total_revenue"]

  function HeaderCells(): seq<Cell>
  {
    [Text(Columns[0]), Text(Columns[1]), Text(Columns[2]), Text(Columns[3]), Text(Columns[4])]
  }

  /**
   * The header record. A table built from no rows has no columns, so its
   * header record is empty.
   */
  function Header(rows: seq<SaleRow>): seq<Cell>
  {
    if rows == [] then [] else HeaderCells()
  }

  /** One record: timestamp, product name, category, quantity, revenue. */
  function ExportRow(r: SaleRow): seq<Cell>
  {
    [Stamp(r.saleDate), Text(r.productName), Text(r.category),
     Text(CountText(r.quantitySold, false)), Text(MoneyText(r.totalRevenue, false))]
  }

  function ExportRows(rows: seq<SaleRow>): (records: seq<seq<Cell>>)
    ensures |records| == |rows|
  {
    if rows == [] then [] else [ExportRow(rows[0])] + ExportRows(rows[1..])
  }

  /** The whole report: the header record, then the sales in query order. */
  function ExportCsv(rows: seq<SaleRow>): seq<seq<Cell>>
  {
    [Header(rows)] + ExportRows(rows)
  }

  /** Reads one record back into the sale it came from. */
  function DecodeRow(record: seq<Cell>): Option<SaleRow>
  {
    if |record| != 5 || !record[0].Stamp? || !record[1].Text? || !record[2].Text? ||
       !record[3].Text? || !record[4].Text? then None
    else
      match (ParseCount(record[3].text), ParseMoney(record[4].text))
      case (Some(quantity), Some(revenue)) =>
        Some(SaleRow(record[0].at, record[1].text, record[2].text, quantity, revenue))
      case _ => None
  }

  function DecodeRows(records: seq<seq<Cell>>): Option<seq<SaleRow>>
  {
    if records == [] then Some([])
    else
      match (DecodeRow(records[0]), DecodeRows(records[1..]))
      case (Some(r), Some(rest)) => Some([r] + rest)
      case _ => None
  }

  /** Reads a whole report back: an empty header with nothing after it, or the five columns and the records. */
  function DecodeCsv(table: seq<seq<Cell>>): Option<seq<SaleRow>>
  {
    if table == [] then None
    else if table[0] == [] then (if |table| == 1 then Some([]) else None)
    else if table[0] != HeaderCells() then None
    else
      match DecodeRows(table[1..])
      case Some(rows) => if rows == [] then None else Some(rows)
      case None => None
  }

  lemma {:induction false} ExportRowsRoundTrip(rows: seq<SaleRow>)
    ensures DecodeRows(ExportRows(rows)) == Some(rows)
  {
    if rows != [] {
      var r := rows[0];
      CountRoundTrip(r.quantitySold);
      MoneyRoundTrip(r.totalRevenue);
      assert DecodeRow(ExportRow(r)) == Some(r);
      ExportRowsRoundTrip(rows[1..]);
      assert ExportRows(rows)[1..] == ExportRows(rows[1..]);
      assert [r] + rows[1..] == rows;
    }
  }

  /**
   * The report has the header record and exactly one record per sale, each
   * with the five columns in the query's order.
   */
  lemma ExportCsvShape(rows: seq<SaleRow>)
    ensures var table := ExportCsv(rows);
      |table| == |rows| + 1 &&
      (rows != [] ==> |table[0]| == |Columns| && forall j :: 0 <= j < |Columns| ==> table[0][j] == Text(Columns[j])) &&
      (forall i :: 1 <= i < |table| ==> |table[i]| == |Columns| && table[i][0] == Stamp(rows[i - 1].saleDate))
  {
    var table := ExportCsv(rows);
    forall i | 1 <= i < |table|
      ensures |table[i]| == |Columns| && table[i][0] == Stamp(rows[i - 1].saleDate)
    {
      assert table[i] == ExportRows(rows)[i - 1];
      ExportRowAt(rows, i - 1);
    }
  }

  /**
   * Reading the report back gives every sale's timestamp, product name,
   * category, quantity and revenue, in order.
   */
  lemma ExportCsvRoundTrip(rows: seq<SaleRow>)
    ensures DecodeCsv(ExportCsv(rows)) == Some(rows)
  {
    var table := ExportCsv(rows);
    ExportRowsRoundTrip(rows);
    assert table[1..] == ExportRows(rows);
    assert HeaderCells() != [];
  }

  lemma {:induction false} ExportRowAt(rows: seq<SaleRow>, i: nat)
    requires i < |rows|
    ensures ExportRows(rows)[i] == ExportRow(rows[i])
  {
    if i > 0 {
      ExportRowAt(rows[1..], i - 1);
    }
  }
}

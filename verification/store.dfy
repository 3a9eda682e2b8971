/**
 * The process-wide supplier table and the two requests that touch it: a
 * submission appends one row, and the dashboard coerces the numeric columns
 * in place before computing its figures.
 */
module Store {
  import opened Wrappers
  import opened Rows
  import opened Submission
  import opened Aggregation

  class SupplierTable {
    /** The rows, in insertion order; identifiers are not checked for uniqueness. */
    var rows: seq<Row>

    /** The empty table with the eight-column schema, used when no spreadsheet exists yet. */
    constructor ()
      ensures rows == []
    {
      rows := [];
    }

    /** Adds one row at the end; the rows already there are left as they were. */
    method Append(r: Row)
      modifies this
      ensures |rows| == |old(rows)| + 1
      ensures rows[..|old(rows)|] == old(rows)
      ensures rows[|old(rows)|] == r
    {
      rows := rows + [r];
    }

    /**
     * Handles a submitted form: fills in the identifier and name, parses the
     * three scores, computes the risk score and appends the new row. When a
     * score does not parse, nothing is appended and the error is returned.
     */
    method Submit(form: Form, token: string, parseFloat: string -> Option<real>)
      returns (res: Result<real, SubmitError>)
      requires IsToken(token)
      modifies this
      ensures NewRow(form, token, parseFloat).Failure? ==>
        rows == old(rows) && res == Failure(NewRow(form, token, parseFloat).error)
      ensures NewRow(form, token, parseFloat).Success? ==>
        var row := NewRow(form, token, parseFloat).value;
        rows == old(rows) + [row] && res == Success(row.risk.value)
    {
      match NewRow(form, token, parseFloat)
      case Failure(err) =>
        res := Failure(err);
      case Success(row) =>
        Append(row);
        res := Success(row.risk.value);
    }

    /**
     * `pd.to_numeric(df[col], errors='coerce')` for each numeric column in
     * turn: only those four columns change, numbers keep their value, text
     * that does not parse becomes missing, and the row count and the text
     * columns stay as they were.
     */
    method CoerceNumeric(parse: string -> Option<real>)
      modifies this
      ensures |rows| == |old(rows)|
      ensures forall k :: 0 <= k < |rows| ==> SameText(rows[k], old(rows)[k])
      ensures forall k, col :: 0 <= k < |rows| ==> Get(rows[k], col) == Coerce(Get(old(rows)[k], col), parse)
      ensures rows == CoerceTable(old(rows), parse)
    {
      for i := 0 to |NumericColumns|
        invariant |rows| == |old(rows)|
        invariant forall k :: 0 <= k < |rows| ==> SameText(rows[k], old(rows)[k])
        invariant forall k, j :: 0 <= k < |rows| && 0 <= j < |NumericColumns| ==>
          Get(rows[k], NumericColumns[j]) ==
            if j < i then Coerce(Get(old(rows)[k], NumericColumns[j]), parse)
            else Get(old(rows)[k], NumericColumns[j])
      {
        var col, current := NumericColumns[i], rows;
        rows := seq(|current|, k requires 0 <= k < |current| => Set(current[k], col, Coerce(Get(current[k], col), parse)));
      }
      forall k, col | 0 <= k < |rows|
        ensures Get(rows[k], col) == Coerce(Get(old(rows)[k], col), parse)
      {
        var j := match col
          case ComplianceScore => 0
          case FinancialScore => 1
          case OnTimeDeliveryRate => 2
          case RiskScore => 3;
        assert NumericColumns[j] == col;
      }
      var want := CoerceTable(old(rows), parse);
      forall k | 0 <= k < |rows| ensures rows[k] == want[k] {
        RowsAgree(rows[k], want[k]);
      }
    }

    /**
     * The dashboard request: coerces the stored table in place, then computes
     * the figures from the coerced rows.
     */
    method Dashboard(parse: string -> Option<real>) returns (view: DashboardView)
      modifies this
      ensures rows == CoerceTable(old(rows), parse)
      ensures view == Aggregate(rows)
    {
      CoerceNumeric(parse);
      view := Aggregate(rows);
    }
  }

  /**
   * A submitted row survives the dashboard's coercion unchanged, so after a
   * successful submission the next dashboard shows one more supplier, last in
   * the list and in the trend, labelled with its name.
   */
  lemma SubmissionReachesDashboard(table: seq<Row>, form: Form, token: string, row: Row,
                                   parseFloat: string -> Option<real>, parse: string -> Option<real>)
    requires IsToken(token)
    requires NewRow(form, token, parseFloat) == Success(row)
    ensures Complete(row) && row.supplierName.Some?
    ensures var before, after := Aggregate(CoerceTable(table, parse)), Aggregate(CoerceTable(table + [row], parse));
      && after.totalSuppliers == before.totalSuppliers + 1
      && after.suppliers == before.suppliers + [ToRecord(row)]
      && after.trendLabels == before.trendLabels + [row.supplierName]
      && after.trendScores == before.trendScores + [row.risk.value]
  {
    CompleteRowReachesDashboard(table, row, parse);
  }

  lemma CompleteRowReachesDashboard(table: seq<Row>, row: Row, parse: string -> Option<real>)
    requires Complete(row) && row.supplierName.Some?
    ensures var before, after := Aggregate(CoerceTable(table, parse)), Aggregate(CoerceTable(table + [row], parse));
      && after.totalSuppliers == before.totalSuppliers + 1
      && after.suppliers == before.suppliers + [ToRecord(row)]
      && after.trendLabels == before.trendLabels + [row.supplierName]
      && after.trendScores == before.trendScores + [row.risk.value]
  {
    CoerceCompleteRow(row, parse);
    CoerceTableAppend(table, row, parse);
    AppendCompleteRow(CoerceTable(table, parse), row);
  }
}

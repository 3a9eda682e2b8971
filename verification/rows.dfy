/**
 * One row of the supplier table and the coercion of its numeric columns.
 *
 * The table has eight columns: four free-text ones (Supplier ID, Supplier
 * Name, Category, Location) and four numeric ones (Compliance Score,
 * Financial Score, On-Time Delivery Rate, Risk Score). A text cell may be
 * missing (NaN); a numeric cell may hold a number, some text read back from
 * the spreadsheet, or nothing.
 */
module Rows {
  import opened Wrappers

  /** A cell of a numeric column before or after `pd.to_numeric(errors='coerce')`. */
  datatype Cell = Number(value: real) | Str(text: string) | Missing

  datatype Row = Row(
    supplierId: Option<string>,
    supplierName: Option<string>,
    category: Option<string>,
    location: Option<string>,
    compliance: Cell,
    financial: Cell,
    delivery: Cell,
    risk: Cell)

  datatype NumericColumn = ComplianceScore | FinancialScore | OnTimeDeliveryRate | RiskScore

  /** The four numeric columns, in the order the dashboard coerces them. */
  const NumericColumns: seq<NumericColumn> := [ComplianceScore, FinancialScore, OnTimeDeliveryRate, RiskScore]

  function Get(r: Row, col: NumericColumn): Cell {
    match col
    case ComplianceScore => r.compliance
    case FinancialScore => r.financial
    case OnTimeDeliveryRate => r.delivery
    case RiskScore => r.risk
  }

  /** `r` with the cell of column `col` replaced by `c`. */
  function Set(r: Row, col: NumericColumn, c: Cell): (r': Row)
    ensures SameText(r', r)
    ensures forall other :: Get(r', other) == if other == col then c else Get(r, other)
  {
    match col
    case ComplianceScore => r.(compliance := c)
    case FinancialScore => r.(financial := c)
    case OnTimeDeliveryRate => r.(delivery := c)
    case RiskScore => r.(risk := c)
  }

  /** The four text columns of `a` and `b` agree. */
  predicate SameText(a: Row, b: Row) {
    && a.supplierId == b.supplierId
    && a.supplierName == b.supplierName
    && a.category == b.category
    && a.location == b.location
  }

  /** Two rows that agree on every column are the same row. */
  lemma RowsAgree(a: Row, b: Row)
    requires SameText(a, b)
    requires forall col :: Get(a, col) == Get(b, col)
    ensures a == b
  {
    assert Get(a, ComplianceScore) == Get(b, ComplianceScore);
    assert Get(a, FinancialScore) == Get(b, FinancialScore);
    assert Get(a, OnTimeDeliveryRate) == Get(b, OnTimeDeliveryRate);
    assert Get(a, RiskScore) == Get(b, RiskScore);
  }

  /**
   * `pd.to_numeric(..., errors='coerce')` on one cell: a number stays, text that
   * `parse` accepts becomes that number, and anything else becomes missing.
   */
  function Coerce(c: Cell, parse: string -> Option<real>): (out: Cell)
    ensures !out.Str?
    ensures c.Number? ==> out == c
    ensures c.Missing? ==> out.Missing?
    ensures c.Str? ==> (out.Number? <==> parse(c.text).Some?)
    ensures out.Number? && c.Str? ==> out.value == parse(c.text).value
  {
    match c
    case Number(_) => c
    case Str(s) => (match parse(s) case Some(x) => Number(x) case None => Missing)
    case Missing => Missing
  }

  /** Coercing a second time changes nothing. */
  lemma CoerceIdempotent(c: Cell, parse: string -> Option<real>)
    ensures Coerce(Coerce(c, parse), parse) == Coerce(c, parse)
  {
  }

  /** The row as it stands after the dashboard's coercion loop. */
  function CoerceRow(r: Row, parse: string -> Option<real>): (out: Row)
    ensures SameText(out, r)
    ensures forall col :: Get(out, col) == Coerce(Get(r, col), parse)
  {
    Row(r.supplierId, r.supplierName, r.category, r.location,
        Coerce(r.compliance, parse), Coerce(r.financial, parse),
        Coerce(r.delivery, parse), Coerce(r.risk, parse))
  }

  /** The whole table after the coercion loop. */
  function CoerceTable(rows: seq<Row>, parse: string -> Option<real>): (out: seq<Row>)
    ensures |out| == |rows|
    ensures forall k :: 0 <= k < |rows| ==> out[k] == CoerceRow(rows[k], parse)
  {
    seq(|rows|, k requires 0 <= k < |rows| => CoerceRow(rows[k], parse))
  }

  /** Coercing the table a second time leaves it as the first coercion left it. */
  lemma CoerceTableIdempotent(rows: seq<Row>, parse: string -> Option<real>)
    ensures CoerceTable(CoerceTable(rows, parse), parse) == CoerceTable(rows, parse)
  {
    var once := CoerceTable(rows, parse);
    var twice := CoerceTable(once, parse);
    forall k | 0 <= k < |rows| ensures twice[k] == once[k] {
      forall col ensures Get(twice[k], col) == Get(once[k], col) {
        CoerceIdempotent(Get(rows[k], col), parse);
      }
      RowsAgree(twice[k], once[k]);
    }
  }

  lemma CoerceTableAppend(rows: seq<Row>, r: Row, parse: string -> Option<real>)
    ensures CoerceTable(rows + [r], parse) == CoerceTable(rows, parse) + [CoerceRow(r, parse)]
  {
  }

  /** Every numeric cell holds a number. */
  predicate Complete(r: Row) {
    r.compliance.Number? && r.financial.Number? && r.delivery.Number? && r.risk.Number?
  }

  /**
   * After coercion no cell holds text, so `dropna(subset=numeric_cols)`,
   * which drops a row when any of the four cells is missing, keeps exactly
   * the complete rows.
   */
  lemma CoercedCompleteIffNoneMissing(r: Row, parse: string -> Option<real>)
    ensures var c := CoerceRow(r, parse);
      Complete(c) <==> forall col :: !Get(c, col).Missing?
  {
    var c := CoerceRow(r, parse);
    if !Complete(c) {
      if !c.compliance.Number? { assert Get(c, ComplianceScore).Missing?; }
      else if !c.financial.Number? { assert Get(c, FinancialScore).Missing?; }
      else if !c.delivery.Number? { assert Get(c, OnTimeDeliveryRate).Missing?; }
      else { assert Get(c, RiskScore).Missing?; }
    }
  }

  /** A complete row passes through coercion unchanged. */
  lemma CoerceCompleteRow(r: Row, parse: string -> Option<real>)
    requires Complete(r)
    ensures CoerceRow(r, parse) == r
  {
  }

  /** A row that survived cleaning, with its numeric cells unwrapped. */
  datatype Record = Record(
    supplierId: Option<string>,
    supplierName: Option<string>,
    category: Option<string>,
    location: Option<string>,
    compliance: real,
    financial: real,
    delivery: real,
    risk: real)

  function ToRecord(r: Row): (rec: Record)
    requires Complete(r)
    ensures ToRow(rec) == r
  {
    Record(r.supplierId, r.supplierName, r.category, r.location,
           r.compliance.value, r.financial.value, r.delivery.value, r.risk.value)
  }

  /** The table row a record stands for; every field is carried over unchanged. */
  function ToRow(rec: Record): (r: Row)
    ensures Complete(r)
  {
    Row(rec.supplierId, rec.supplierName, rec.category, rec.location,
        Number(rec.compliance), Number(rec.financial), Number(rec.delivery), Number(rec.risk))
  }

  /** The number a record holds in column `col`. */
  function Value(rec: Record, col: NumericColumn): (x: real)
    ensures Get(ToRow(rec), col) == Number(x)
  {
    match col
    case ComplianceScore => rec.compliance
    case FinancialScore => rec.financial
    case OnTimeDeliveryRate => rec.delivery
    case RiskScore => rec.risk
  }

  lemma ToRowInjective(a: Record, b: Record)
    requires ToRow(a) == ToRow(b)
    ensures a == b
  {
  }
}

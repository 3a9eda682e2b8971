/**
 * What a submission of the supplier form turns into: the identifier and name
 * defaults, the weighted risk score, and the new table row.
 */
module Submission {
  import opened Wrappers
  import opened Rounding
  import opened Rows

  /** The submitted form fields, as the text the browser sent. */
  datatype Form = Form(
    supplierId: string,
    supplierName: string,
    category: string,
    location: string,
    compliance: string,
    financial: string,
    delivery: string)

  /** `float()` rejected the text of the named score field. */
  datatype SubmitError = NotANumber(field: string)

  /**
   * The first eight characters of a random UUID, upper-cased: eight
   * characters drawn from the upper-case hexadecimal digits.
   */
  predicate IsToken(t: string) {
    |t| == 8 && forall ch <- t :: ch in "0123456789ABCDEF"
  }

  /** The submitted identifier, or the generated token when none was given. */
  function SupplierId(given: string, token: string): (id: string)
    requires IsToken(token)
    ensures id != ""
    ensures given != "" ==> id == given
    ensures given == "" ==> id == token
  {
    if given != "" then given else token
  }

  /** The submitted name, or `Supplier_` followed by the identifier when none was given. */
  function SupplierName(given: string, id: string): (name: string)
    ensures name != ""
    ensures given != "" ==> name == given
    ensures given == "" ==> |name| == 9 + |id| && name[..9] == "Supplier_" && name[9..] == id
  {
    if given != "" then given else "Supplier_" + id
  }

  /** The weights 0.3, 0.4 and 0.3 of compliance, financial and delivery. */
  function WeightedScore(compliance: real, financial: real, delivery: real): real {
    compliance * 0.3 + financial * 0.4 + delivery * 0.3
  }

  /** `round(compliance * 0.3 + financial * 0.4 + delivery * 0.3, 2)`. */
  function ComputeRiskScore(compliance: real, financial: real, delivery: real): (r: real)
    ensures IsCents(r)
    ensures -0.005 <= r - WeightedScore(compliance, financial, delivery) <= 0.005
  {
    Round2(WeightedScore(compliance, financial, delivery))
  }

  /**
   * The weights add up to one, so when the three scores lie in a range whose
   * ends have at most two decimals (0 to 100, say), the risk score lies in it
   * too.
   */
  lemma RiskScoreInRange(compliance: real, financial: real, delivery: real, lo: real, hi: real)
    requires IsCents(lo) && IsCents(hi)
    requires lo <= compliance <= hi && lo <= financial <= hi && lo <= delivery <= hi
    ensures lo <= ComputeRiskScore(compliance, financial, delivery) <= hi
  {
    Round2WithinCents(WeightedScore(compliance, financial, delivery), lo, hi);
  }

  /** Compliance 80, financial 70 and delivery 90 give 24 + 28 + 27, a risk score of 79. */
  lemma RiskScoreExample()
    ensures ComputeRiskScore(80.0, 70.0, 90.0) == 79.0
  {
    assert WeightedScore(80.0, 70.0, 90.0) == 79.0;
    Round2KeepsCents(79.0);
  }

  /**
   * The row a submission appends, or the error raised when one of the three
   * scores is not a number. The scores are parsed in the order compliance,
   * financial, delivery, so the error names the first that fails.
   */
  function NewRow(form: Form, token: string, parseFloat: string -> Option<real>): (res: Result<Row, SubmitError>)
    requires IsToken(token)
    ensures res.Success? <==>
      parseFloat(form.compliance).Some? && parseFloat(form.financial).Some? && parseFloat(form.delivery).Some?
    ensures res.Success? ==> Complete(res.value) && res.value.supplierName.Some?
  {
    var id := SupplierId(form.supplierId, token);
    var name := SupplierName(form.supplierName, id);
    match parseFloat(form.compliance)
    case None => Failure(NotANumber("compliance"))
    case Some(c) =>
      match parseFloat(form.financial)
      case None => Failure(NotANumber("financial"))
      case Some(f) =>
        match parseFloat(form.delivery)
        case None => Failure(NotANumber("delivery"))
        case Some(d) =>
          Success(Row(Some(id), Some(name), Some(form.category), Some(form.location),
                      Number(c), Number(f), Number(d), Number(ComputeRiskScore(c, f, d))))
  }

  /**
   * A submission succeeds exactly when all three scores parse. The new row
   * then holds the submitted text fields and scores unchanged, a non-empty
   * identifier and name (the defaults where none was given) and the risk
   * score of the three scores; every numeric cell holds a number.
   */
  lemma NewRowSpec(form: Form, token: string, parseFloat: string -> Option<real>)
    requires IsToken(token)
    ensures var res := NewRow(form, token, parseFloat);
      res.Success? <==>
        parseFloat(form.compliance).Some? && parseFloat(form.financial).Some? && parseFloat(form.delivery).Some?
    ensures var res := NewRow(form, token, parseFloat);
      res.Failure? ==>
        res.error == if parseFloat(form.compliance).None? then NotANumber("compliance")
                     else if parseFloat(form.financial).None? then NotANumber("financial")
                     else NotANumber("delivery")
    ensures var res := NewRow(form, token, parseFloat);
      res.Success? ==>
        var row, c, f, d := res.value, parseFloat(form.compliance).value,
                            parseFloat(form.financial).value, parseFloat(form.delivery).value;
        && Complete(row)
        && row.supplierId.Some? && row.supplierId.value != ""
        && (form.supplierId != "" ==> row.supplierId == Some(form.supplierId))
        && (form.supplierId == "" ==> row.supplierId == Some(token))
        && row.supplierName.Some? && row.supplierName.value != ""
        && (form.supplierName != "" ==> row.supplierName == Some(form.supplierName))
        && (form.supplierName == "" ==> row.supplierName == Some("Supplier_" + row.supplierId.value))
        && row.category == Some(form.category)
        && row.location == Some(form.location)
        && row.compliance == Number(c) && row.financial == Number(f) && row.delivery == Number(d)
        && row.risk == Number(ComputeRiskScore(c, f, d))
  {
  }
}

/**
 * The data utilities of the ML service: the check a raw transaction record
 * must pass, and the formatting of detector output into per-row results.
 * A record is a dictionary of decoded JSON values; each value keeps only the
 * Python type `isinstance` sees and its number, if it has one.
 */
module DataProcessor {
  import opened Wrappers

  // ---------------------------------------------------------------------------
  // validate_transaction_data

  /**
   * A dictionary value. Python's `bool` is a subclass of `int`, so it is kept
   * apart; a `float` is finite, NaN, or an infinity of either sign.
   */
  datatype Value =
    | IntValue(i: int) | BoolValue(b: bool)
    | FloatValue(f: real) | FloatNaN | FloatInfinity(positive: bool)
    | StrValue(s: string) | NoneValue | OtherValue

  const RequiredFields: seq<string> := ["amount", "department_id", "vendor_name", "transaction_date"]

  /** `isinstance(v, int)`, which holds for `True` and `False` too. */
  predicate IsInt(v: Value) {
    v.IntValue? || v.BoolValue?
  }

  /** The number an `int` or `float` value stands for. */
  function Number(v: Value): real
    requires IsInt(v) || v.FloatValue?
  {
    match v
    case IntValue(i) => i as real
    case BoolValue(b) => if b then 1.0 else 0.0
    case FloatValue(f) => f
  }

  /** `isinstance(v, (int, float))`. */
  predicate IsNumber(v: Value) {
    IsInt(v) || v.FloatValue? || v.FloatNaN? || v.FloatInfinity?
  }

  /** `v <= 0` as Python evaluates it on a number: every comparison with NaN is false. */
  predicate AtMostZero(v: Value)
    requires IsNumber(v)
  {
    match v
    case FloatNaN => false
    case FloatInfinity(positive) => !positive
    case _ => Number(v) <= 0.0
  }

  /** The amount test passes: `not isinstance(v, (int, float)) or v <= 0` is false. */
  predicate AmountAccepted(v: Value) {
    IsNumber(v) && !AtMostZero(v)
  }

  /** `isinstance(v, int) and v > 0`. */
  predicate PositiveInt(v: Value) {
    IsInt(v) && Number(v) > 0.0
  }

  /**
   * What a valid record is: every required field present, an amount that is a
   * number not at most zero (NaN and positive infinity pass), and a positive
   * integer department.
   */
  predicate ValidTransaction(data: map<string, Value>)
    ensures ValidTransaction(data) ==> forall f :: f in RequiredFields ==> f in data
    ensures ValidTransaction(data) ==> IsNumber(data["amount"]) && IsInt(data["department_id"])
  {
    "amount" in data && "department_id" in data && "vendor_name" in data && "transaction_date" in data
    && AmountAccepted(data["amount"]) && PositiveInt(data["department_id"])
  }

  /** `DataProcessor.validate_transaction_data`: the field loop with its early return, then the type checks. */
  method ValidateTransactionData(data: map<string, Value>) returns (valid: bool)
    ensures valid <==> ValidTransaction(data)
    ensures (exists f :: f in RequiredFields && f !in data) ==> !valid
  {
    var i := 0;
    while i < |RequiredFields|
      invariant 0 <= i <= |RequiredFields|
      invariant forall j :: 0 <= j < i ==> RequiredFields[j] in data
    {
      if RequiredFields[i] !in data {
        return false;
      }
      i := i + 1;
    }
    assert RequiredFields[0] in data && RequiredFields[1] in data;
    assert RequiredFields[2] in data && RequiredFields[3] in data;
    if !IsNumber(data["amount"]) || AtMostZero(data["amount"]) {
      return false;
    }
    if !PositiveInt(data["department_id"]) {
      return false;
    }
    return true;
  }

  /**
   * The vendor name and the date are only required to be present: any
   * values there leave the verdict as it is, `None` included.
   */
  lemma VendorAndDateUnchecked(data: map<string, Value>, vendor: Value, date: Value)
    requires "vendor_name" in data && "transaction_date" in data
    ensures ValidTransaction(data["vendor_name" := vendor]["transaction_date" := date]) <==> ValidTransaction(data)
  {
  }

  /**
   * A float department id is refused even when it is whole, while `True`
   * passes as a department id and as an amount, being an `int` equal to 1.
   */
  lemma DepartmentTypeChecks(data: map<string, Value>)
    requires ValidTransaction(data)
    ensures !ValidTransaction(data["department_id" := FloatValue(Number(data["department_id"]))])
    ensures ValidTransaction(data["department_id" := BoolValue(true)]["amount" := BoolValue(true)])
    ensures !ValidTransaction(data["amount" := IntValue(0)])
  {
  }

  /**
   * The amount test is a comparison, not a finiteness check: a NaN amount and
   * a positive infinite amount pass it, a negative infinite one does not.
   */
  lemma NonFiniteAmounts(data: map<string, Value>)
    requires ValidTransaction(data)
    ensures ValidTransaction(data["amount" := FloatNaN])
    ensures ValidTransaction(data["amount" := FloatInfinity(true)])
    ensures !ValidTransaction(data["amount" := FloatInfinity(false)])
  {
  }

  // ---------------------------------------------------------------------------
  // format_anomaly_response

  /** The columns of a data-frame row that the formatter reads. */
  datatype Row = Row(amount: real, vendorName: string)

  datatype FormattedReason =
    | UnusuallyHighAmount       // "Unusually high transaction amount"
    | HighlyUnusualPattern      // "Highly unusual transaction pattern"
    | AnomalyScore(score: real) // "Anomaly score: ..."
    | AppearsNormal             // "Transaction appears normal"

  datatype FormattedResult = FormattedResult(
    transactionIndex: nat, anomalyScore: real, isAnomaly: bool, reasons: seq<FormattedReason>,
    transactionAmount: real, vendorName: string)

  function FormattedReasons(amount: real, score: real, anomalous: bool): seq<FormattedReason> {
    if anomalous then
      (if amount > 10000.0 then [UnusuallyHighAmount] else [])
      + (if score < -0.5 then [HighlyUnusualPattern] else [])
      + [AnomalyScore(score)]
    else [AppearsNormal]
  }

  function FormattedFor(row: Row, i: nat, score: real, anomalous: bool): FormattedResult {
    FormattedResult(i, score, anomalous, FormattedReasons(row.amount, score, anomalous), row.amount, row.vendorName)
  }

  /**
   * What the formatter returns: one result per pair of `zip(scores, flags)`,
   * or `None` where `iloc[i]` runs past the rows and raises.
   */
  function Formatted(rows: seq<Row>, scores: seq<real>, flags: seq<bool>): (r: Option<seq<FormattedResult>>)
    ensures r.None? <==> |rows| < |scores| && |rows| < |flags|
    ensures r.Some? ==> |r.value| <= |rows| && |r.value| == (if |scores| < |flags| then |scores| else |flags|)
    ensures r.Some? ==> forall i :: 0 <= i < |r.value| ==>
      r.value[i].transactionIndex == i && r.value[i].anomalyScore == scores[i] && r.value[i].isAnomaly == flags[i]
      && r.value[i].transactionAmount == rows[i].amount && (AppearsNormal in r.value[i].reasons <==> !flags[i])
  {
    var n := if |scores| < |flags| then |scores| else |flags|;
    if n > |rows| then None
    else Some(seq(n, i requires 0 <= i < n => FormattedFor(rows[i], i, scores[i], flags[i])))
  }

  /** `ResponseFormatter.format_anomaly_response`. */
  method FormatAnomalyResponse(rows: seq<Row>, scores: seq<real>, flags: seq<bool>) returns (results: Option<seq<FormattedResult>>)
    ensures results == Formatted(rows, scores, flags)
  {
    var n := if |scores| < |flags| then |scores| else |flags|;
    var done: seq<FormattedResult> := [];
    var i := 0;
    while i < n
      invariant 0 <= i <= n && i <= |rows|
      invariant |done| == i && forall j :: 0 <= j < i ==> done[j] == FormattedFor(rows[j], j, scores[j], flags[j])
    {
      if i >= |rows| {
        return None;
      }
      var reasons: seq<FormattedReason> := [];
      if flags[i] {
        if rows[i].amount > 10000.0 {
          reasons := reasons + [UnusuallyHighAmount];
        }
        if scores[i] < -0.5 {
          reasons := reasons + [HighlyUnusualPattern];
        }
        reasons := reasons + [AnomalyScore(scores[i])];
      } else {
        reasons := reasons + [AppearsNormal];
      }
      done := done + [FormattedResult(i, scores[i], flags[i], reasons, rows[i].amount, rows[i].vendorName)];
      i := i + 1;
    }
    if n > |rows| {
      return None;
    }
    assert Formatted(rows, scores, flags).Some?;
    assert Formatted(rows, scores, flags).value == done;
    results := Some(done);
  }

  /**
   * With one score and one flag per row there is exactly one result per row,
   * in order, carrying its index, amount and vendor.
   */
  lemma OneFormattedResultPerRow(rows: seq<Row>, scores: seq<real>, flags: seq<bool>)
    requires |scores| == |rows| && |flags| == |rows|
    ensures Formatted(rows, scores, flags).Some?
    ensures var rs := Formatted(rows, scores, flags).value;
      |rs| == |rows|
      && forall i :: 0 <= i < |rows| ==>
        rs[i].transactionIndex == i && rs[i].transactionAmount == rows[i].amount && rs[i].vendorName == rows[i].vendorName
        && rs[i].anomalyScore == scores[i] && rs[i].isAnomaly == flags[i]
  {
  }

  /** More scores and flags than rows make the formatter raise. */
  lemma FormatterNeedsRows(rows: seq<Row>, scores: seq<real>, flags: seq<bool>)
    ensures Formatted(rows, scores, flags).None? <==> |scores| > |rows| && |flags| > |rows|
  {
  }

  /**
   * A normal row is only said to appear normal. An anomalous row is called
   * unusually high exactly above 10000, highly unusual exactly below a score
   * of -0.5, and always ends with its score.
   */
  lemma FormattedReasonsSay(amount: real, score: real)
    ensures FormattedReasons(amount, score, false) == [AppearsNormal]
    ensures var r := FormattedReasons(amount, score, true);
      r != [] && r[|r| - 1] == AnomalyScore(score)
      && (UnusuallyHighAmount in r <==> amount > 10000.0)
      && (HighlyUnusualPattern in r <==> score < -0.5)
      && 1 <= |r| <= 3
  {
  }
}

/**
 * The anomaly endpoints of the ML service: `/detect`, which turns each
 * transaction into a feature row, asks the loaded Isolation Forest for a
 * score and a verdict per row and explains each verdict; and `/batch-analyze`,
 * which summarises those results.
 *
 * The forest itself is a parameter (`detector`), yielding one `Verdict` per
 * feature row or `None` where scikit-learn raises. Whether the model is
 * loaded is a parameter, and so is the weekday test on the transaction date
 * (`isWeekend`, false where `strptime` fails). The random hour feature is not
 * modelled. Reasons that carry a number keep the number, not its text.
 */
module AnomalyApi {
  import opened Wrappers
  import opened Text
  import Http

  // ---------------------------------------------------------------------------
  // Data

  datatype TransactionData = TransactionData(
    amount: real, departmentId: int, vendorName: string, transactionDate: string, description: Option<string>)

  /** A feature row: amount, department id and how often the vendor occurs in the request. */
  datatype Feature = Feature(amount: real, departmentId: int, vendorFrequency: nat)

  /** What the forest says about one row: `decision_function` and `predict(...) == -1`. */
  datatype Verdict = Verdict(score: real, anomalous: bool)

  datatype Reason =
    | ExtremelyHighAmount        // "Extremely high transaction amount (>$50K)"
    | UnusuallyHighAmount        // "Unusually high transaction amount (>$10K)"
    | SuspiciousVendorName       // "Vendor name contains suspicious keywords"
    | ExtremelyUnusualPattern
    | HighlyUnusualPattern
    | ModeratelyUnusualPattern
    | OnWeekend
    | UnusualDepartment
    | AnomalyConfidence(confidence: real)
    | VeryTypical                // "Transaction pattern is very typical"
    | AppearsNormal              // "Transaction appears normal with standard patterns"
    | WithinNormalRanges
    | NormalConfidence(confidence: real)

  datatype AnomalyResult = AnomalyResult(
    transactionIndex: nat, anomalyScore: real, isAnomaly: bool, reasons: seq<Reason>,
    transactionAmount: real, vendorName: string)

  /** The reply of `/detect`: the results, or the status of the `HTTPException` raised. */
  datatype Detection = Detected(results: seq<AnomalyResult>) | DetectFailed(status: int)

  const SuspiciousKeywords: seq<string> := ["suspicious", "unknown", "temp", "test", "fake"]

  function Abs(x: real): (r: real)
    ensures r >= 0.0 && (r == x || r == -x)
  {
    if x < 0.0 then -x else x
  }

  // ---------------------------------------------------------------------------
  // Frequencies

  /** How many times `k` occurs in `keys`. */
  function Occurrences<K(==)>(keys: seq<K>, k: K): nat {
    if keys == [] then 0
    else Occurrences(keys[..|keys| - 1], k) + (if keys[|keys| - 1] == k then 1 else 0)
  }

  /** The positions of `keys` that hold `k`. */
  function Positions<K(==)>(keys: seq<K>, k: K): set<nat> {
    set j: nat | j < |keys| && keys[j] == k
  }

  /** `Occurrences` counts exactly the positions holding `k`. */
  lemma {:induction false} OccurrencesCountsPositions<K>(keys: seq<K>, k: K)
    ensures Occurrences(keys, k) == |Positions(keys, k)|
  {
    if keys != [] {
      var n := |keys| - 1;
      OccurrencesCountsPositions(keys[..n], k);
      var before := Positions(keys[..n], k);
      var all := Positions(keys, k);
      if keys[n] == k {
        assert all == before + {n};
      } else {
        assert all == before;
      }
    }
  }

  lemma {:induction false} OccurrencesPositiveIff<K>(keys: seq<K>, k: K)
    ensures Occurrences(keys, k) > 0 <==> k in keys
  {
    if keys != [] {
      var n := |keys| - 1;
      OccurrencesPositiveIff(keys[..n], k);
      assert keys == keys[..n] + [keys[n]];
    }
  }

  function VendorNames(ts: seq<TransactionData>): (r: seq<string>)
    ensures |r| == |ts| && forall i :: 0 <= i < |ts| ==> r[i] == ts[i].vendorName
  {
    seq(|ts|, i requires 0 <= i < |ts| => ts[i].vendorName)
  }

  function DepartmentIds(ts: seq<TransactionData>): (r: seq<int>)
    ensures |r| == |ts| && forall i :: 0 <= i < |ts| ==> r[i] == ts[i].departmentId
  {
    seq(|ts|, i requires 0 <= i < |ts| => ts[i].departmentId)
  }

  /**
   * The first loop of `detect_anomalies`: each vendor and each department
   * of the request is mapped to the number of transactions that name it.
   */
  method CountFrequencies(ts: seq<TransactionData>) returns (vendorFreq: map<string, nat>, deptFreq: map<int, nat>)
    ensures forall v :: v in vendorFreq <==> v in VendorNames(ts)
    ensures forall v :: v in vendorFreq ==> vendorFreq[v] == Occurrences(VendorNames(ts), v)
    ensures forall d :: d in deptFreq <==> d in DepartmentIds(ts)
    ensures forall d :: d in deptFreq ==> deptFreq[d] == Occurrences(DepartmentIds(ts), d)
  {
    var vendors, depts := VendorNames(ts), DepartmentIds(ts);
    vendorFreq, deptFreq := map[], map[];
    var i := 0;
    while i < |ts|
      invariant 0 <= i <= |ts|
      invariant forall v :: v in vendorFreq <==> v in vendors[..i]
      invariant forall v :: v in vendorFreq ==> vendorFreq[v] == Occurrences(vendors[..i], v)
      invariant forall d :: d in deptFreq <==> d in depts[..i]
      invariant forall d :: d in deptFreq ==> deptFreq[d] == Occurrences(depts[..i], d)
    {
      var t := ts[i];
      assert vendors[..i + 1] == vendors[..i] + [t.vendorName];
      assert depts[..i + 1] == depts[..i] + [t.departmentId];
      OccurrencesPositiveIff(vendors[..i], t.vendorName);
      OccurrencesPositiveIff(depts[..i], t.departmentId);
      vendorFreq := vendorFreq[t.vendorName := (if t.vendorName in vendorFreq then vendorFreq[t.vendorName] else 0) + 1];
      deptFreq := deptFreq[t.departmentId := (if t.departmentId in deptFreq then deptFreq[t.departmentId] else 0) + 1];
      i := i + 1;
    }
    assert vendors[..i] == vendors && depts[..i] == depts;
  }

  /** The indices of the transactions naming vendor `v`. */
  function VendorPositions(ts: seq<TransactionData>, v: string): set<nat> {
    set j: nat | j < |ts| && ts[j].vendorName == v
  }

  /** The feature row of the `i`-th transaction. */
  function FeatureRow(ts: seq<TransactionData>, i: nat): Feature
    requires i < |ts|
  {
    Feature(ts[i].amount, ts[i].departmentId, Occurrences(VendorNames(ts), ts[i].vendorName))
  }

  function Features(ts: seq<TransactionData>): (r: seq<Feature>)
    ensures |r| == |ts| && forall i :: 0 <= i < |ts| ==> r[i] == FeatureRow(ts, i)
  {
    seq(|ts|, i requires 0 <= i < |ts| => FeatureRow(ts, i))
  }

  /**
   * Each row carries its transaction's amount and department, and as third
   * feature the number of transactions in the request with the same vendor.
   */
  lemma FeatureCountsVendor(ts: seq<TransactionData>, i: nat)
    requires i < |ts|
    ensures Features(ts)[i].amount == ts[i].amount && Features(ts)[i].departmentId == ts[i].departmentId
    ensures Features(ts)[i].vendorFrequency == |VendorPositions(ts, ts[i].vendorName)|
    ensures Features(ts)[i].vendorFrequency >= 1
  {
    var names := VendorNames(ts);
    OccurrencesCountsPositions(names, ts[i].vendorName);
    OccurrencesPositiveIff(names, ts[i].vendorName);
    assert Positions(names, ts[i].vendorName) == VendorPositions(ts, ts[i].vendorName);
    assert names[i] == ts[i].vendorName;
    assert Features(ts)[i] == FeatureRow(ts, i);
  }

  // ---------------------------------------------------------------------------
  // Reasons

  /** `any(keyword in vendor_name.lower() for keyword in suspicious_keywords)`. */
  predicate SuspiciousVendor(vendorName: string) {
    exists k :: k in SuspiciousKeywords && Contains(Lower(vendorName), k)
  }

  function AmountReasons(amount: real): seq<Reason> {
    if amount > 50000.0 then [ExtremelyHighAmount]
    else if amount > 10000.0 then [UnusuallyHighAmount]
    else []
  }

  function ScoreReasons(score: real): seq<Reason> {
    if score < -0.8 then [ExtremelyUnusualPattern]
    else if score < -0.5 then [HighlyUnusualPattern]
    else if score < -0.2 then [ModeratelyUnusualPattern]
    else []
  }

  function NormalBand(confidence: real): Reason {
    if confidence < 0.1 then VeryTypical
    else if confidence < 0.3 then AppearsNormal
    else WithinNormalRanges
  }

  /** `get_anomaly_reasons_simple`; `weekend` is the outcome of the weekday test on the date. */
  function Reasons(t: TransactionData, score: real, anomalous: bool, weekend: bool): (r: seq<Reason>)
    ensures 1 <= |r| <= 6 && (!anomalous ==> |r| == 2)
    ensures r[|r| - 1] == if anomalous then AnomalyConfidence(Abs(score)) else NormalConfidence(Abs(score))
  {
    if anomalous then
      AmountReasons(t.amount)
      + (if SuspiciousVendor(t.vendorName) then [SuspiciousVendorName] else [])
      + ScoreReasons(score)
      + (if weekend then [OnWeekend] else [])
      + (if t.departmentId > 10 then [UnusualDepartment] else [])
      + [AnomalyConfidence(Abs(score))]
    else
      [NormalBand(Abs(score)), NormalConfidence(Abs(score))]
  }

  predicate IsAmountReason(r: Reason) {
    r == ExtremelyHighAmount || r == UnusuallyHighAmount
  }

  predicate IsScoreReason(r: Reason) {
    r == ExtremelyUnusualPattern || r == HighlyUnusualPattern || r == ModeratelyUnusualPattern
  }

  /**
   * A normal transaction gets exactly two reasons: a band chosen by the size
   * of its score, then the normal confidence.
   */
  lemma NormalReasons(t: TransactionData, score: real, weekend: bool)
    ensures Reasons(t, score, false, weekend) == [NormalBand(Abs(score)), NormalConfidence(Abs(score))]
    ensures NormalBand(Abs(score)) == VeryTypical <==> -0.1 < score < 0.1
    ensures NormalBand(Abs(score)) == AppearsNormal <==> (0.1 <= score < 0.3 || -0.3 < score <= -0.1)
    ensures NormalBand(Abs(score)) == WithinNormalRanges <==> (score >= 0.3 || score <= -0.3)
  {
  }

  /** How many entries of `r` satisfy `p`. */
  function CountIf(r: seq<Reason>, p: Reason -> bool): nat {
    if r == [] then 0 else (if p(r[0]) then 1 else 0) + CountIf(r[1..], p)
  }

  lemma {:induction false} CountIfConcat(a: seq<Reason>, b: seq<Reason>, p: Reason -> bool)
    ensures CountIf(a + b, p) == CountIf(a, p) + CountIf(b, p)
  {
    if a != [] {
      assert (a + b)[0] == a[0] && (a + b)[1..] == a[1..] + b;
      CountIfConcat(a[1..], b, p);
    } else {
      assert a + b == b;
    }
  }

  /** The reasons of an anomaly between the amount and score parts. */
  function VendorPart(t: TransactionData): seq<Reason> {
    if SuspiciousVendor(t.vendorName) then [SuspiciousVendorName] else []
  }

  /** The reasons of an anomaly between the score part and the confidence. */
  function TailPart(t: TransactionData, score: real, weekend: bool): seq<Reason> {
    (if weekend then [OnWeekend] else [])
    + (if t.departmentId > 10 then [UnusualDepartment] else [])
    + [AnomalyConfidence(Abs(score))]
  }

  /** The reasons of an anomaly, part by part. */
  lemma AnomalyReasonParts(t: TransactionData, score: real, weekend: bool)
    ensures Reasons(t, score, true, weekend)
        == AmountReasons(t.amount) + VendorPart(t) + ScoreReasons(score) + TailPart(t, score, weekend)
  {
  }

  /** Counts over the four parts add up. */
  lemma CountOfParts(a: seq<Reason>, v: seq<Reason>, s: seq<Reason>, w: seq<Reason>, p: Reason -> bool)
    ensures CountIf(a + v + s + w, p) == CountIf(a, p) + CountIf(v, p) + CountIf(s, p) + CountIf(w, p)
  {
    CountIfConcat(a, v, p);
    CountIfConcat(a + v, s, p);
    CountIfConcat(a + v + s, w, p);
  }

  /** The amount part holds at most one reason, of the amount kind. */
  lemma AmountPart(amount: real)
    ensures CountIf(AmountReasons(amount), IsAmountReason) <= 1 && CountIf(AmountReasons(amount), IsScoreReason) == 0
  {
  }

  /** The score part holds at most one reason, of the score kind. */
  lemma ScorePart(score: real)
    ensures CountIf(ScoreReasons(score), IsAmountReason) == 0 && CountIf(ScoreReasons(score), IsScoreReason) <= 1
  {
  }

  /** The vendor and tail parts hold neither kind. */
  lemma OtherParts(t: TransactionData, score: real, weekend: bool)
    ensures CountIf(VendorPart(t), IsAmountReason) == 0 && CountIf(VendorPart(t), IsScoreReason) == 0
    ensures CountIf(TailPart(t, score, weekend), IsAmountReason) == 0 && CountIf(TailPart(t, score, weekend), IsScoreReason) == 0
  {
    var w1: seq<Reason> := if weekend then [OnWeekend] else [];
    var w2: seq<Reason> := if t.departmentId > 10 then [UnusualDepartment] else [];
    CountIfConcat(w1 + w2, [AnomalyConfidence(Abs(score))], IsAmountReason);
    CountIfConcat(w1 + w2, [AnomalyConfidence(Abs(score))], IsScoreReason);
    CountIfConcat(w1, w2, IsAmountReason);
    CountIfConcat(w1, w2, IsScoreReason);
  }

  /**
   * An anomaly gets at most one amount reason, more than 50000 taking
   * precedence over more than 10000, at most one score band, and the anomaly
   * confidence always last.
   */
  lemma AnomalyReasons(t: TransactionData, score: real, weekend: bool)
    ensures var r := Reasons(t, score, true, weekend);
      r != [] && r[|r| - 1] == AnomalyConfidence(Abs(score))
    ensures CountIf(Reasons(t, score, true, weekend), IsAmountReason) <= 1
    ensures CountIf(Reasons(t, score, true, weekend), IsScoreReason) <= 1
    ensures ExtremelyHighAmount in Reasons(t, score, true, weekend) <==> t.amount > 50000.0
    ensures UnusuallyHighAmount in Reasons(t, score, true, weekend) <==> 10000.0 < t.amount <= 50000.0
  {
    var a, v, s, w := AmountReasons(t.amount), VendorPart(t), ScoreReasons(score), TailPart(t, score, weekend);
    AnomalyReasonParts(t, score, weekend);
    CountOfParts(a, v, s, w, IsAmountReason);
    CountOfParts(a, v, s, w, IsScoreReason);
    AmountPart(t.amount);
    ScorePart(score);
    OtherParts(t, score, weekend);
  }

  /**
   * The vendor, weekend and department reasons of an anomaly appear exactly
   * when their tests hold.
   */
  lemma AnomalyReasonTests(t: TransactionData, score: real, weekend: bool)
    ensures SuspiciousVendorName in Reasons(t, score, true, weekend) <==> SuspiciousVendor(t.vendorName)
    ensures OnWeekend in Reasons(t, score, true, weekend) <==> weekend
    ensures UnusualDepartment in Reasons(t, score, true, weekend) <==> t.departmentId > 10
  {
    AnomalyReasonParts(t, score, weekend);
  }

  // ---------------------------------------------------------------------------
  // /detect

  function ResultFor(t: TransactionData, i: nat, v: Verdict, weekend: bool): AnomalyResult {
    AnomalyResult(i, v.score, v.anomalous, Reasons(t, v.score, v.anomalous, weekend), t.amount, t.vendorName)
  }

  /** The results loop: one result per verdict, the `i`-th about the `i`-th transaction. */
  function Results(ts: seq<TransactionData>, verdicts: seq<Verdict>, isWeekend: string -> bool): (rs: seq<AnomalyResult>)
    requires |verdicts| <= |ts|
    ensures |rs| == |verdicts|
    ensures forall i :: 0 <= i < |rs| ==> rs[i] == ResultFor(ts[i], i, verdicts[i], isWeekend(ts[i].transactionDate))
  {
    seq(|verdicts|, i requires 0 <= i < |verdicts| => ResultFor(ts[i], i, verdicts[i], isWeekend(ts[i].transactionDate)))
  }

  /**
   * `detect_anomalies` as written. The 503 raised when the model is not
   * loaded is inside the `try`, so the catch-all re-raises it as a 500; so is
   * the `IndexError` when the forest yields more verdicts than there are
   * transactions.
   */
  function Detect(ts: seq<TransactionData>, modelLoaded: bool, detector: seq<Feature> -> Option<seq<Verdict>>,
                  isWeekend: string -> bool): (r: Detection)
    ensures r.DetectFailed? ==> r.status == Http.ServerError
    ensures r.Detected? <==> modelLoaded && detector(Features(ts)).Some? && |detector(Features(ts)).value| <= |ts|
    ensures r.Detected? ==> |r.results| == |detector(Features(ts)).value| <= |ts|
  {
    if !modelLoaded then DetectFailed(Http.ServerError)
    else match detector(Features(ts))
      case None => DetectFailed(Http.ServerError)
      case Some(verdicts) =>
        if |verdicts| > |ts| then DetectFailed(Http.ServerError)
        else Detected(Results(ts, verdicts, isWeekend))
  }

  /** `detect_anomalies` with the 503 escaping the catch-all, as its `raise` intends. */
  function DetectIntended(ts: seq<TransactionData>, modelLoaded: bool, detector: seq<Feature> -> Option<seq<Verdict>>,
                          isWeekend: string -> bool): (r: Detection)
    ensures r.DetectFailed? ==> r.status == if modelLoaded then Http.ServerError else Http.ServiceUnavailable
  {
    if !modelLoaded then DetectFailed(Http.ServiceUnavailable)
    else Detect(ts, modelLoaded, detector, isWeekend)
  }

  /** Without a model the handler answers 500, not the 503 it raises. */
  lemma MissingModelAnswered500(ts: seq<TransactionData>, detector: seq<Feature> -> Option<seq<Verdict>>, isWeekend: string -> bool)
    ensures Detect(ts, false, detector, isWeekend) == DetectFailed(Http.ServerError)
    ensures DetectIntended(ts, false, detector, isWeekend) == DetectFailed(Http.ServiceUnavailable)
  {
  }

  /**
   * The intended handler answers 503 exactly when the model is missing, and
   * otherwise answers as the handler as written does.
   */
  lemma IntendedDiffersOnlyWithoutModel(ts: seq<TransactionData>, modelLoaded: bool,
                                        detector: seq<Feature> -> Option<seq<Verdict>>, isWeekend: string -> bool)
    ensures DetectIntended(ts, modelLoaded, detector, isWeekend) == DetectFailed(Http.ServiceUnavailable) <==> !modelLoaded
    ensures modelLoaded ==> DetectIntended(ts, modelLoaded, detector, isWeekend) == Detect(ts, modelLoaded, detector, isWeekend)
  {
  }

  /**
   * When the forest gives one verdict per feature row, there is exactly one
   * result per transaction, in input order, carrying its index, amount,
   * vendor, score and verdict, and explained by `Reasons`.
   */
  lemma OneResultPerTransaction(ts: seq<TransactionData>, detector: seq<Feature> -> Option<seq<Verdict>>, isWeekend: string -> bool)
    requires detector(Features(ts)).Some? && |detector(Features(ts)).value| == |ts|
    ensures Detect(ts, true, detector, isWeekend).Detected?
    ensures var rs := Detect(ts, true, detector, isWeekend).results;
      |rs| == |ts|
      && forall i :: 0 <= i < |ts| ==>
        rs[i].transactionIndex == i && rs[i].transactionAmount == ts[i].amount && rs[i].vendorName == ts[i].vendorName
        && rs[i].anomalyScore == detector(Features(ts)).value[i].score
        && rs[i].isAnomaly == detector(Features(ts)).value[i].anomalous
        && rs[i].reasons == Reasons(ts[i], rs[i].anomalyScore, rs[i].isAnomaly, isWeekend(ts[i].transactionDate))
  {
  }

  /** `detect_anomalies`: the frequency loop, the feature loop and the results loop. */
  method DetectAnomalies(ts: seq<TransactionData>, modelLoaded: bool, detector: seq<Feature> -> Option<seq<Verdict>>,
                         isWeekend: string -> bool)
    returns (outcome: Detection)
    ensures outcome == Detect(ts, modelLoaded, detector, isWeekend)
  {
    if !modelLoaded {
      return DetectFailed(Http.ServerError);
    }
    var vendorFreq, deptFreq := CountFrequencies(ts);
    var features: seq<Feature> := [];
    var i := 0;
    while i < |ts|
      invariant 0 <= i <= |ts|
      invariant |features| == i && forall j :: 0 <= j < i ==> features[j] == FeatureRow(ts, j)
    {
      assert ts[i].vendorName in VendorNames(ts);
      features := features + [Feature(ts[i].amount, ts[i].departmentId, vendorFreq[ts[i].vendorName])];
      i := i + 1;
    }
    assert features == Features(ts);
    var verdicts := detector(features);
    if verdicts.None? || |verdicts.value| > |ts| {
      return DetectFailed(Http.ServerError);
    }
    var vs := verdicts.value;
    var results: seq<AnomalyResult> := [];
    i := 0;
    while i < |vs|
      invariant 0 <= i <= |vs|
      invariant |results| == i
      invariant forall j :: 0 <= j < i ==> results[j] == ResultFor(ts[j], j, vs[j], isWeekend(ts[j].transactionDate))
    {
      var t := ts[i];
      results := results + [AnomalyResult(i, vs[i].score, vs[i].anomalous,
                                          Reasons(t, vs[i].score, vs[i].anomalous, isWeekend(t.transactionDate)),
                                          t.amount, t.vendorName)];
      i := i + 1;
    }
    assert results == Results(ts, vs, isWeekend);
    outcome := Detected(results);
  }

  // ---------------------------------------------------------------------------
  // /batch-analyze

  datatype RiskLevel = Low | Medium | High

  /** The risk level chosen from the share of anomalies. */
  function Risk(anomalies: nat, total: nat): (r: RiskLevel)
    ensures r == High <==> 10 * anomalies > 3 * total
    ensures r == Low <==> 10 * anomalies <= total
  {
    if anomalies as real > total as real * 0.3 then High
    else if anomalies as real > total as real * 0.1 then Medium
    else Low
  }

  function RiskRank(r: RiskLevel): nat {
    match r
    case Low => 0
    case Medium => 1
    case High => 2
  }

  /**
   * HIGH above 30% anomalies, MEDIUM above 10% up to 30%, LOW otherwise;
   * more anomalies among as many transactions never lower the level.
   */
  lemma RiskLevels(anomalies: nat, total: nat, more: nat)
    ensures Risk(anomalies, total) == High <==> anomalies as real > 0.3 * total as real
    ensures Risk(anomalies, total) == Medium
        <==> 0.1 * total as real < anomalies as real <= 0.3 * total as real
    ensures Risk(anomalies, total) == Low <==> anomalies as real <= 0.1 * total as real
    ensures anomalies <= more ==> RiskRank(Risk(anomalies, total)) <= RiskRank(Risk(more, total))
  {
  }

  /** A line of `get_recommendations`; the last-but-one line carries the count. */
  datatype Advice =
    | UrgentSuspicious | ImmediateReview | AdditionalApprovals | ReviewVendorVerification
    | WarningSuspicious | ReviewWithinDay | MonitorVendors | UpdateApprovalLimits
    | LowRisk | ContinueMonitoring | RoutineAudit
    | FocusReview(count: nat) | UpdateThresholds

  function Recommendations(anomalies: nat, total: nat, risk: RiskLevel): (r: seq<Advice>)
    ensures 3 <= |r| <= 6
    ensures UpdateThresholds in r <==> anomalies > 0
  {
    (match risk
     case High => [UrgentSuspicious, ImmediateReview, AdditionalApprovals, ReviewVendorVerification]
     case Medium => [WarningSuspicious, ReviewWithinDay, MonitorVendors, UpdateApprovalLimits]
     case Low => [LowRisk, ContinueMonitoring, RoutineAudit])
    + (if anomalies > 0 then [FocusReview(anomalies), UpdateThresholds] else [])
  }

  /** Four, four or three lines by risk level, and two more exactly when something was flagged. */
  lemma RecommendationCount(anomalies: nat, total: nat, risk: RiskLevel)
    ensures |Recommendations(anomalies, total, risk)|
        == (if risk == Low then 3 else 4) + (if anomalies > 0 then 2 else 0)
    ensures FocusReview(anomalies) in Recommendations(anomalies, total, risk) <==> anomalies > 0
  {
  }

  /** An entry of `flagged_transactions`; the primary reason is `None` for "Unknown". */
  datatype Flag = Flag(index: nat, amount: real, vendor: string, riskScore: real, primaryReason: Option<Reason>)

  function FlagOf(r: AnomalyResult): Flag {
    Flag(r.transactionIndex, r.transactionAmount, r.vendorName, Abs(r.anomalyScore),
         if r.reasons != [] then Some(r.reasons[0]) else None)
  }

  /** The flagged-transactions comprehension. */
  function Flagged(rs: seq<AnomalyResult>): (r: seq<Flag>)
    ensures |r| <= |rs|
    ensures forall f :: f in r ==> f.riskScore >= 0.0
  {
    if rs == [] then []
    else (if rs[0].isAnomaly then [FlagOf(rs[0])] else []) + Flagged(rs[1..])
  }

  /** `sum(1 for result in individual_results if result.is_anomaly)`. */
  function AnomalyCount(rs: seq<AnomalyResult>): nat {
    if rs == [] then 0 else (if rs[0].isAnomaly then 1 else 0) + AnomalyCount(rs[1..])
  }

  function TotalAmount(ts: seq<TransactionData>): real {
    if ts == [] then 0.0 else ts[0].amount + TotalAmount(ts[1..])
  }

  predicate IndexesInto(rs: seq<AnomalyResult>, ts: seq<TransactionData>) {
    forall r :: r in rs ==> r.transactionIndex < |ts|
  }

  /** The sum of the request amounts at the indices of the anomalous results. */
  function AnomalousAmount(ts: seq<TransactionData>, rs: seq<AnomalyResult>): real
    requires IndexesInto(rs, ts)
  {
    if rs == [] then 0.0
    else (if rs[0].isAnomaly then ts[rs[0].transactionIndex].amount else 0.0) + AnomalousAmount(ts, rs[1..])
  }

  function FlaggedAmount(fs: seq<Flag>): real {
    if fs == [] then 0.0 else fs[0].amount + FlaggedAmount(fs[1..])
  }

  /**
   * There is one flag per anomalous result: as many as there are anomalies,
   * each made from an anomalous result, and every anomalous result flagged.
   */
  lemma {:induction false} FlaggedAreTheAnomalies(rs: seq<AnomalyResult>)
    ensures |Flagged(rs)| == AnomalyCount(rs)
    ensures forall f :: f in Flagged(rs) ==> exists r :: r in rs && r.isAnomaly && f == FlagOf(r)
    ensures forall r :: r in rs && r.isAnomaly ==> FlagOf(r) in Flagged(rs)
  {
    if rs != [] {
      FlaggedAreTheAnomalies(rs[1..]);
      forall r | r in rs && r.isAnomaly
        ensures FlagOf(r) in Flagged(rs)
      {
        if r != rs[0] {
          assert r in rs[1..];
        }
      }
    }
  }

  /** The results are in strictly increasing index order. */
  predicate ResultsInOrder(rs: seq<AnomalyResult>) {
    forall i, j :: 0 <= i < j < |rs| ==> rs[i].transactionIndex < rs[j].transactionIndex
  }

  /** The flags are in strictly increasing index order. */
  predicate FlagsInOrder(fs: seq<Flag>) {
    forall i, j :: 0 <= i < j < |fs| ==> fs[i].index < fs[j].index
  }

  lemma FlagsInOrderCons(f: Flag, fs: seq<Flag>)
    requires FlagsInOrder(fs) && forall g :: g in fs ==> f.index < g.index
    ensures FlagsInOrder([f] + fs)
  {
    var all := [f] + fs;
    forall i, j | 0 <= i < j < |all|
      ensures all[i].index < all[j].index
    {
      assert all[j] == fs[j - 1] && fs[j - 1] in fs;
      if i > 0 {
        assert all[i] == fs[i - 1];
      }
    }
  }

  /** Results whose indices all exceed `bound` give flags whose indices all exceed it. */
  lemma {:induction false} FlagsAfter(bound: nat, rs: seq<AnomalyResult>)
    requires forall k :: 0 <= k < |rs| ==> bound < rs[k].transactionIndex
    ensures forall f :: f in Flagged(rs) ==> bound < f.index
  {
    if rs != [] {
      assert forall k :: 0 <= k < |rs[1..]| ==> rs[1..][k] == rs[k + 1];
      FlagsAfter(bound, rs[1..]);
    }
  }

  /** Results in index order give flags in index order. */
  lemma {:induction false} FlaggedInIndexOrder(rs: seq<AnomalyResult>)
    requires ResultsInOrder(rs)
    ensures FlagsInOrder(Flagged(rs))
  {
    if rs != [] {
      var tail := rs[1..];
      assert forall k :: 0 <= k < |tail| ==> tail[k] == rs[k + 1];
      FlaggedInIndexOrder(tail);
      if rs[0].isAnomaly {
        FlagsAfter(rs[0].transactionIndex, tail);
        FlagsInOrderCons(FlagOf(rs[0]), Flagged(tail));
      }
    }
  }

  /** Each result records its transaction's amount. */
  predicate AmountsMatch(rs: seq<AnomalyResult>, ts: seq<TransactionData>) {
    forall r :: r in rs ==> r.transactionIndex < |ts| && r.transactionAmount == ts[r.transactionIndex].amount
  }

  /** `anomalous_amount` is the sum of the amounts of the flagged transactions. */
  lemma {:induction false} AnomalousAmountIsFlaggedSum(ts: seq<TransactionData>, rs: seq<AnomalyResult>)
    requires AmountsMatch(rs, ts)
    ensures IndexesInto(rs, ts) && AnomalousAmount(ts, rs) == FlaggedAmount(Flagged(rs))
  {
    if rs != [] {
      assert AmountsMatch(rs[1..], ts) by {
        forall r | r in rs[1..] ensures r.transactionIndex < |ts| && r.transactionAmount == ts[r.transactionIndex].amount {
          assert r in rs;
        }
      }
      AnomalousAmountIsFlaggedSum(ts, rs[1..]);
      assert rs[0] in rs;
      assert IndexesInto(rs, ts);
      if rs[0].isAnomaly {
        var fs := Flagged(rs);
        assert fs == [FlagOf(rs[0])] + Flagged(rs[1..]);
        assert fs[1..] == Flagged(rs[1..]);
        assert FlaggedAmount(fs) == fs[0].amount + FlaggedAmount(fs[1..]);
        assert AnomalousAmount(ts, rs) == ts[rs[0].transactionIndex].amount + AnomalousAmount(ts, rs[1..]);
      } else {
        assert Flagged(rs) == Flagged(rs[1..]);
        assert AnomalousAmount(ts, rs) == AnomalousAmount(ts, rs[1..]);
      }
    }
  }

  datatype Summary = Summary(
    totalTransactions: nat, anomaliesDetected: nat, anomalyRatePercent: real, riskLevel: RiskLevel,
    totalAmountAnalyzed: real, anomalousAmount: real, anomalousPercentage: real)

  datatype BatchReport = BatchReport(
    summary: Summary, recommendations: seq<Advice>, individualResults: seq<AnomalyResult>, flagged: seq<Flag>)

  datatype BatchOutcome = Analyzed(report: BatchReport) | BatchFailed(status: int)

  /** The results of `Results` index into the request, in order, and carry its amounts. */
  lemma ResultsIndexInOrder(ts: seq<TransactionData>, verdicts: seq<Verdict>, isWeekend: string -> bool)
    requires |verdicts| <= |ts|
    ensures var rs := Results(ts, verdicts, isWeekend);
      IndexesInto(rs, ts) && AmountsMatch(rs, ts) && ResultsInOrder(rs)
  {
    var rs := Results(ts, verdicts, isWeekend);
    forall r | r in rs
      ensures r.transactionIndex < |ts| && r.transactionAmount == ts[r.transactionIndex].amount
    {
      var k :| 0 <= k < |rs| && rs[k] == r;
    }
  }

  /**
   * `batch_analyze_transactions`. Any failure of `/detect` becomes a 500, and
   * so does an empty result list, where the anomaly rate divides by zero.
   */
  function BatchAnalyze(ts: seq<TransactionData>, modelLoaded: bool, detector: seq<Feature> -> Option<seq<Verdict>>,
                        isWeekend: string -> bool): BatchOutcome
  {
    match Detect(ts, modelLoaded, detector, isWeekend)
    case DetectFailed(_) => BatchFailed(Http.ServerError)
    case Detected(rs) =>
      if rs == [] then BatchFailed(Http.ServerError)
      else
        ResultsIndexInOrder(ts, detector(Features(ts)).value, isWeekend);
        var sm := SummaryOf(ts, rs);
        Analyzed(BatchReport(sm, Recommendations(sm.anomaliesDetected, sm.totalTransactions, sm.riskLevel), rs, Flagged(rs)))
  }

  /** The `summary` object of a batch report. */
  function SummaryOf(ts: seq<TransactionData>, rs: seq<AnomalyResult>): Summary
    requires IndexesInto(rs, ts) && rs != []
  {
    var total := |rs|;
    var anomalies := AnomalyCount(rs);
    var totalAmount := TotalAmount(ts);
    var anomalousAmount := AnomalousAmount(ts, rs);
    Summary(total, anomalies, PercentOf(anomalies as real, total as real), Risk(anomalies, total), totalAmount, anomalousAmount,
            if totalAmount > 0.0 then PercentOf(anomalousAmount, totalAmount) else 0.0)
  }

  /**
   * A batch report counts one flag per anomaly, in index order, each made
   * from an anomalous result; its anomalous amount is the sum of the flagged
   * amounts; and its risk level and recommendations follow the counts.
   */
  lemma BatchReportConsistent(ts: seq<TransactionData>, modelLoaded: bool,
                              detector: seq<Feature> -> Option<seq<Verdict>>, isWeekend: string -> bool)
    requires BatchAnalyze(ts, modelLoaded, detector, isWeekend).Analyzed?
    ensures var rep := BatchAnalyze(ts, modelLoaded, detector, isWeekend).report;
      rep.summary.anomaliesDetected == |rep.flagged|
      && rep.summary.anomalousAmount == FlaggedAmount(rep.flagged)
      && FlagsInOrder(rep.flagged)
      && (forall f :: f in rep.flagged ==> exists r :: r in rep.individualResults && r.isAnomaly && f == FlagOf(r))
      && rep.summary.totalTransactions == |rep.individualResults| > 0
      && rep.summary.riskLevel == Risk(rep.summary.anomaliesDetected, rep.summary.totalTransactions)
      && rep.recommendations == Recommendations(rep.summary.anomaliesDetected, rep.summary.totalTransactions, rep.summary.riskLevel)
  {
    var verdicts := detector(Features(ts)).value;
    var rs := Results(ts, verdicts, isWeekend);
    ResultsIndexInOrder(ts, verdicts, isWeekend);
    FlaggedAreTheAnomalies(rs);
    FlaggedInIndexOrder(rs);
    AnomalousAmountIsFlaggedSum(ts, rs);
  }

  /** There are never more anomalies than results. */
  lemma {:induction false} AnomalyCountBounded(rs: seq<AnomalyResult>)
    ensures AnomalyCount(rs) <= |rs|
  {
    if rs != [] {
      AnomalyCountBounded(rs[1..]);
    }
  }

  /** `part / whole * 100`. */
  function PercentOf(part: real, whole: real): real
    requires whole > 0.0
  {
    part / whole * 100.0
  }

  /** `part / whole * 100` is the share of `part` in `whole`, in percent. */
  lemma Percent(part: real, whole: real)
    requires whole > 0.0
    ensures PercentOf(part, whole) * whole == part * 100.0
    ensures 0.0 <= part <= whole ==> 0.0 <= PercentOf(part, whole) <= 100.0
  {
    assert part / whole * whole == part;
    if 0.0 <= part <= whole {
      assert part / whole <= 1.0;
    }
  }

  /** The batch fails, always with 500, exactly when `/detect` fails or finds no results. */
  lemma BatchFailures(ts: seq<TransactionData>, modelLoaded: bool,
                      detector: seq<Feature> -> Option<seq<Verdict>>, isWeekend: string -> bool)
    ensures var b := BatchAnalyze(ts, modelLoaded, detector, isWeekend);
      var d := Detect(ts, modelLoaded, detector, isWeekend);
      && (b.BatchFailed? <==> d.DetectFailed? || d.results == [])
      && (b.BatchFailed? ==> b.status == Http.ServerError)
      && (b.Analyzed? ==> b.report.individualResults == d.results
                           && IndexesInto(d.results, ts) && b.report.summary == SummaryOf(ts, d.results))
  {
    var d := Detect(ts, modelLoaded, detector, isWeekend);
    if d.Detected? {
      ResultsIndexInOrder(ts, detector(Features(ts)).value, isWeekend);
    }
  }

  /** A summary counts the results and the anomalies among them, and grades the risk from those counts. */
  lemma SummaryCounts(ts: seq<TransactionData>, rs: seq<AnomalyResult>)
    requires IndexesInto(rs, ts) && rs != []
    ensures var sm := SummaryOf(ts, rs);
      && sm.totalTransactions == |rs|
      && sm.anomaliesDetected == AnomalyCount(rs) <= |rs|
      && sm.riskLevel == Risk(AnomalyCount(rs), |rs|)
  {
    AnomalyCountBounded(rs);
  }

  /** In a summary, the anomaly rate is the share of anomalies among the results, in percent. */
  lemma SummaryRate(ts: seq<TransactionData>, rs: seq<AnomalyResult>)
    requires IndexesInto(rs, ts) && rs != []
    ensures var sm := SummaryOf(ts, rs);
      sm.anomalyRatePercent * sm.totalTransactions as real == sm.anomaliesDetected as real * 100.0
  {
    Percent(AnomalyCount(rs) as real, |rs| as real);
  }

  /** The anomaly rate lies between 0 and 100. */
  lemma SummaryRateBounded(ts: seq<TransactionData>, rs: seq<AnomalyResult>)
    requires IndexesInto(rs, ts) && rs != []
    ensures 0.0 <= SummaryOf(ts, rs).anomalyRatePercent <= 100.0
  {
    var anomalies, total := AnomalyCount(rs), |rs|;
    AnomalyCountBounded(rs);
    assert anomalies as real <= total as real;
    Percent(anomalies as real, total as real);
  }

  /**
   * In a summary, the anomalous percentage is the share of the anomalous
   * amount in the total amount, or 0 when the total is not positive.
   */
  lemma SummaryAmountShare(ts: seq<TransactionData>, rs: seq<AnomalyResult>)
    requires IndexesInto(rs, ts) && rs != []
    ensures var sm := SummaryOf(ts, rs);
      && sm.totalAmountAnalyzed == TotalAmount(ts)
      && sm.anomalousAmount == AnomalousAmount(ts, rs)
      && (sm.totalAmountAnalyzed > 0.0 ==> sm.anomalousPercentage * sm.totalAmountAnalyzed == sm.anomalousAmount * 100.0)
      && (sm.totalAmountAnalyzed <= 0.0 ==> sm.anomalousPercentage == 0.0)
  {
    var amount, whole := AnomalousAmount(ts, rs), TotalAmount(ts);
    if whole > 0.0 {
      Percent(amount, whole);
    }
  }

  /** An anomalous result always has a first reason, so no flag says "Unknown". */
  lemma FlagsHaveAReason(ts: seq<TransactionData>, verdicts: seq<Verdict>, isWeekend: string -> bool)
    requires |verdicts| <= |ts|
    ensures forall f :: f in Flagged(Results(ts, verdicts, isWeekend)) ==> f.primaryReason.Some?
  {
    var rs := Results(ts, verdicts, isWeekend);
    FlaggedAreTheAnomalies(rs);
    forall f | f in Flagged(rs)
      ensures f.primaryReason.Some?
    {
      var r :| r in rs && r.isAnomaly && f == FlagOf(r);
      var k :| 0 <= k < |rs| && rs[k] == r;
      AnomalyReasons(ts[k], verdicts[k].score, isWeekend(ts[k].transactionDate));
    }
  }
}

/**
 * The voice service's answer selection: a priority chain over the keyword
 * categories and the intent the query analyser found, the reply it builds,
 * the lowered confidence of the simulated voice input, and its statistics.
 * `random.choice` is replaced by the query it would pick; an exception raised
 * while analysing is a parameter carrying its message.
 */
module VoiceService {
  import opened Wrappers
  import opened Text
  import opened NlpProcessor

  /** The fixed answers the service can give. */
  datatype Answer =
    | EducationAnswer | HealthcareAnswer | InfrastructureAnswer | VendorAnswer | AnomalyAnswer
    | TotalAnswer | ComparisonAnswer | DepartmentAnswer | DefaultAnswer
    | EducationVendors | HealthcareVendors | InfrastructureVendors

  /** The text of each answer. */
  function AnswerText(a: Answer): string {
    match a
    case EducationAnswer => "Education department received $5.2M this year (35% of total budget). Breakdown: Teacher salaries $3.2M, Equipment $1.5M, Facilities $500K."
    case HealthcareAnswer => "Healthcare budget is $3.1M (21% of total). Breakdown: Medical staff $2M, Equipment $800K, Medicine supplies $300K."
    case InfrastructureAnswer => "Infrastructure budget is $2.1M (14% of total). Projects: Road maintenance $800K, Building repairs $700K, New construction $600K."
    case VendorAnswer => "Top vendors by spending: 1) TechCorp Ltd ($800K), 2) EduSupply Inc ($700K), 3) Medical Supplies Co ($600K), 4) Construction Plus ($450K), 5) Office Mart ($300K)."
    case AnomalyAnswer => "Found 3 unusual transactions this month: $75K payment to new vendor, $45K after-hours transaction, and duplicate $12K payments. All flagged for review."
    case TotalAnswer => "Total institutional budget is $14.8M for fiscal year 2024. Allocation: Education (35%), Healthcare (21%), Infrastructure (14%), Administration (12%), Research (10%), Other (8%)."
    case ComparisonAnswer => "Education ($5.2M) leads spending, followed by Healthcare ($3.1M) and Infrastructure ($2.1M). Education increased by 8% from last year."
    case DepartmentAnswer => "Active departments: Education (ID:1), Healthcare (ID:2), Infrastructure (ID:3), Administration (ID:4), Research (ID:5). Each has dedicated budget allocation."
    case DefaultAnswer => "I can help you with budget information. Try asking about education spending, healthcare budget, top vendors, unusual transactions, or total budget allocation."
    case EducationVendors => "Education vendors: EduSupply Inc ($700K), Academic Tech ($400K), Learning Resources ($200K). All payments verified and within normal ranges."
    case HealthcareVendors => "Healthcare vendors: Medical Supplies Co ($600K), PharmaCorp ($300K), Equipment Rental ($200K). Recent audit shows all compliant."
    case InfrastructureVendors => "Infrastructure vendors: Construction Plus ($450K), Road Works Inc ($350K), Facility Services ($200K). Two projects completed on time."
  }

  /** The keys of `self.budget_responses`, in the dictionary's insertion order, with their answers. */
  const BudgetResponses: seq<(string, Answer)> := [
    ("education", EducationAnswer), ("healthcare", HealthcareAnswer), ("infrastructure", InfrastructureAnswer),
    ("vendor", VendorAnswer), ("anomaly", AnomalyAnswer), ("total", TotalAnswer),
    ("comparison", ComparisonAnswer), ("department", DepartmentAnswer), ("default", DefaultAnswer)
  ]

  const ProcessingTime: real := 0.1
  const Apologise: string := "Sorry"
  const ErrorPrefix: string := Apologise + ", I encountered an error processing your query: "

  // ---------------------------------------------------------------------------
  // _select_smart_response

  /** `_select_smart_response` on the analysed query. */
  function SmartResponse(keywords: set<string>, intent: string, originalQuery: string): (r: Answer)
    ensures r in {EducationVendors, HealthcareVendors, InfrastructureVendors} ==> "vendor" in keywords
    ensures r == VendorAnswer ==> "vendor" in keywords && "spending" in keywords
    ensures r == DefaultAnswer ==> (
      "education" !in keywords && "healthcare" !in keywords && "infrastructure" !in keywords
      && "anomaly" !in keywords && "suspicious" !in keywords && "department" !in keywords
      && intent != "comparison" && !Contains(Lower(originalQuery), "compare"))
  {
    if "education" in keywords then
      if "vendor" in keywords then EducationVendors else EducationAnswer
    else if "healthcare" in keywords then
      if "vendor" in keywords then HealthcareVendors else HealthcareAnswer
    else if "infrastructure" in keywords then
      if "vendor" in keywords then InfrastructureVendors else InfrastructureAnswer
    else if "vendor" in keywords && "spending" in keywords then VendorAnswer
    else if "anomaly" in keywords || "suspicious" in keywords then AnomalyAnswer
    else if "total" in keywords && ("budget" in keywords || "spending" in keywords) then TotalAnswer
    else if "department" in keywords then DepartmentAnswer
    else if intent == "comparison" || Contains(Lower(originalQuery), "compare") then ComparisonAnswer
    else DefaultAnswer
  }

  /** The sectors outrank everything else, in the order education, healthcare, infrastructure. */
  lemma SectorsComeFirst(keywords: set<string>, intent: string, q: string)
    ensures "education" in keywords ==> SmartResponse(keywords, intent, q) in {EducationAnswer, EducationVendors}
    ensures "education" !in keywords && "healthcare" in keywords
        ==> SmartResponse(keywords, intent, q) in {HealthcareAnswer, HealthcareVendors}
    ensures "education" !in keywords && "healthcare" !in keywords && "infrastructure" in keywords
        ==> SmartResponse(keywords, intent, q) in {InfrastructureAnswer, InfrastructureVendors}
  {
  }

  /** With a sector, vendor selects that sector's vendor text instead of its summary. */
  lemma VendorWithSector(keywords: set<string>, intent: string, q: string)
    requires "education" in keywords || "healthcare" in keywords || "infrastructure" in keywords
    ensures SmartResponse(keywords, intent, q) in {EducationVendors, HealthcareVendors, InfrastructureVendors}
        <==> "vendor" in keywords
  {
  }

  /** Which answer the chain picks when no sector was found, tried in the source's order. */
  lemma LaterBranches(keywords: set<string>, intent: string, q: string)
    requires "education" !in keywords && "healthcare" !in keywords && "infrastructure" !in keywords
    requires keywords <= CategoryNames
    ensures SmartResponse(keywords, intent, q) == VendorAnswer <==> "vendor" in keywords && "spending" in keywords
    ensures SmartResponse(keywords, intent, q) == AnomalyAnswer
        <==> !("vendor" in keywords && "spending" in keywords) && "anomaly" in keywords
    ensures SmartResponse(keywords, intent, q) == TotalAnswer
        <==> !("vendor" in keywords && "spending" in keywords) && "anomaly" !in keywords
             && "total" in keywords && "spending" in keywords
    ensures SmartResponse(keywords, intent, q) == DepartmentAnswer
        <==> !("vendor" in keywords && "spending" in keywords) && "anomaly" !in keywords
             && !("total" in keywords && "spending" in keywords) && "department" in keywords
    ensures SmartResponse(keywords, intent, q) == ComparisonAnswer
        <==> !("vendor" in keywords && "spending" in keywords) && "anomaly" !in keywords
             && !("total" in keywords && "spending" in keywords) && "department" !in keywords
             && (intent == "comparison" || Contains(Lower(q), "compare"))
    ensures SmartResponse(keywords, intent, q) == DefaultAnswer
        <==> !("vendor" in keywords && "spending" in keywords) && "anomaly" !in keywords
             && !("total" in keywords && "spending" in keywords) && "department" !in keywords
             && !(intent == "comparison" || Contains(Lower(q), "compare"))
  {
  }

  // ---------------------------------------------------------------------------
  // process_text_query and simulate_voice_input

  /** The dictionary `process_text_query` returns; the error reply has no numbers and no template. */
  datatype Reply = Fixed(answer: Answer) | Apology(message: string)

  /** The text of a reply; an apology names the exception's message. */
  function ReplyText(r: Reply): string {
    match r
    case Fixed(a) => AnswerText(a)
    case Apology(m) => ErrorPrefix + m
  }

  /** Every apology opens with "Sorry". */
  lemma ApologySaysSorry(m: string)
    ensures StartsWith(ReplyText(Apology(m)), Apologise)
  {
    var t := ErrorPrefix + m;
    assert t[..5] == ErrorPrefix[..5];
    assert ErrorPrefix[..|Apologise|] == Apologise;
  }

  datatype VoiceReply = VoiceReply(query: string, answer: Reply, confidence: real, keywordsDetected: set<string>,
                                   intent: string, numbersFound: Option<seq<string>>, processingTime: real,
                                   nlpTemplate: Option<string>)

  /** `process_text_query`; `failure` is the message of an exception raised on the way, if any. */
  function TextQueryReply(query: string, failure: Option<string>): (r: VoiceReply)
    ensures r.query == query && r.processingTime == ProcessingTime
    ensures failure.Some? <==> r.answer.Apology?
    ensures failure.Some? ==> r.confidence == 0.0 && r.keywordsDetected == {} && r.numbersFound.None? && r.nlpTemplate.None?
    ensures failure.None? ==> 0.5 <= r.confidence <= 1.0 && r.keywordsDetected <= CategoryNames && r.nlpTemplate.Some?
  {
    if failure.Some? then VoiceReply(query, Apology(failure.value), 0.0, {}, "error", None, ProcessingTime, None)
    else
      var keywords := KeywordCategories(query);
      var intent := Intent(query);
      VoiceReply(query, Fixed(SmartResponse(keywords, intent, query)), Confidence(|keywords|, intent), keywords, intent,
                 Some(Runs(query, IsDigit)), ProcessingTime, Some(ResponseTemplate(keywords, intent)))
  }

  /**
   * A reply without error carries the analyser's confidence, categories,
   * intent and numbers with processing time 0.1; an error reply says sorry
   * with confidence 0.0, no categories and intent "error".
   */
  lemma TextQueryReplyShape(query: string, failure: Option<string>)
    ensures failure.None? ==> (
      var r := TextQueryReply(query, failure);
      r.confidence == Confidence(|KeywordCategories(query)|, Intent(query)) && 0.5 <= r.confidence <= 1.0
      && r.keywordsDetected == KeywordCategories(query) && r.intent == Intent(query)
      && r.numbersFound == Some(Runs(query, IsDigit)) && r.processingTime == 0.1 && r.intent != "error")
    ensures failure.Some? ==> (
      var r := TextQueryReply(query, failure);
      r.answer.Apology? && StartsWith(ReplyText(r.answer), Apologise) && r.confidence == 0.0 && r.keywordsDetected == {} && r.intent == "error")
  {
    if failure.None? {
      ConfidenceBounds(|KeywordCategories(query)|, Intent(query));
      IntentIsNamed(query);
    } else {
      ApologySaysSorry(failure.value);
    }
  }

  /** The intent is one of the four pattern names or "information", never "error". */
  lemma IntentIsNamed(query: string)
    ensures Intent(query) in {"amount", "list", "comparison", "trend", "information"}
  {
    FirstMatchNamesAnEntry(Lower(query), IntentTable);
  }

  /** The `process_text_query` method: the analyser runs, then the chain picks the answer. */
  method ProcessTextQuery(query: string, failure: Option<string>) returns (r: VoiceReply)
    ensures r == TextQueryReply(query, failure)
  {
    if failure.Some? {
      return VoiceReply(query, Apology(failure.value), 0.0, {}, "error", None, ProcessingTime, None);
    }
    var processed := ProcessQuery(query);
    var answer := SmartResponse(processed.keywords, processed.intent, processed.originalQuery);
    r := VoiceReply(query, Fixed(answer), processed.confidence, processed.keywords, processed.intent,
                    Some(processed.numbers), ProcessingTime, Some(ResponseTemplate(processed.keywords, processed.intent)));
  }

  /** `simulate_voice_input` on the query `random.choice` picked: the confidence is lowered by 0.1, but not below 0.85. */
  function SimulatedVoiceReply(query: string): (r: VoiceReply)
    ensures r.confidence >= 0.85
    ensures r.confidence == (if TextQueryReply(query, None).confidence - 0.1 > 0.85 then TextQueryReply(query, None).confidence - 0.1 else 0.85)
    ensures r.(confidence := TextQueryReply(query, None).confidence) == TextQueryReply(query, None)
  {
    var reply := TextQueryReply(query, None);
    reply.(confidence := if 0.85 > reply.confidence - 0.1 then 0.85 else reply.confidence - 0.1)
  }

  // ---------------------------------------------------------------------------
  // get_query_statistics

  datatype Statistics = Statistics(supportedCategories: seq<string>, totalResponseTemplates: nat,
                                   supportedIntents: seq<string>, averageConfidence: real)

  /** `get_query_statistics` (the constant feature list and speed text are not modelled). */
  function QueryStatistics(): (r: Statistics)
    ensures r.totalResponseTemplates == |r.supportedCategories| == 9
    ensures forall i :: 0 <= i < |BudgetResponses| ==> r.supportedCategories[i] == BudgetResponses[i].0
  {
    Statistics(seq(|BudgetResponses|, i requires 0 <= i < |BudgetResponses| => BudgetResponses[i].0),
               |BudgetResponses|, ["amount", "list", "comparison", "information"], 0.87)
  }
}

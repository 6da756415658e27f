/**
 * The voice API's own answer chain: substring tests on the lower-cased
 * query, tried in a fixed order, each leading to one fixed answer. The
 * simulate endpoint's `random.choice` is replaced by the query it picked.
 */
module VoiceApi {
  import opened Text

  /** The six answers `process_budget_query` can give. */
  datatype BudgetAnswer = Education | Healthcare | Vendors | Unusual | Total | Help

  /** The text of each answer. */
  function BudgetAnswerText(a: BudgetAnswer): string {
    match a
    case Education => "Education department received $5.2M this year (35% of total budget). Breakdown: Teacher salaries $3.2M, Equipment $1.5M, Facilities $500K."
    case Healthcare => "Healthcare budget is $3.1M (21% of total). Breakdown: Medical staff $2M, Equipment $800K, Medicine supplies $300K."
    case Vendors => "Top vendors by spending: 1) TechCorp Ltd ($800K), 2) EduSupply Inc ($700K), 3) Medical Supplies Co ($600K), 4) Construction Plus ($450K), 5) Office Mart ($300K)."
    case Unusual => "Found 3 unusual transactions this month: $75K payment to new vendor, $45K after-hours transaction, and duplicate $12K payments. All flagged for review."
    case Total => "Total institutional budget is $14.8M for fiscal year 2024. Allocation: Education (35%), Healthcare (21%), Infrastructure (14%), Administration (12%), Research (10%), Other (8%)."
    case Help => "I can help you with budget information. Try asking about education spending, healthcare budget, top vendors, unusual transactions, or total budget allocation."
  }

  /** `process_budget_query`. */
  function ProcessBudgetQuery(query: string): (r: BudgetAnswer)
    ensures Contains(Lower(query), "education") ==> r == Education
    ensures r == Help ==> forall w :: w in ["education", "healthcare", "vendor", "unusual", "anomal", "total", "budget"] ==> !Contains(Lower(query), w)
  {
    var q := Lower(query);
    if Contains(q, "education") then Education
    else if Contains(q, "healthcare") then Healthcare
    else if Contains(q, "vendor") then Vendors
    else if Contains(q, "unusual") || Contains(q, "anomal") then Unusual
    else if Contains(q, "total") || Contains(q, "budget") then Total
    else Help
  }

  /**
   * Each answer is chosen exactly when its test is the first to succeed:
   * "education" wins whatever else the query says, and "budget" alone is
   * enough for the total.
   */
  lemma BudgetQueryOrder(query: string)
    ensures ProcessBudgetQuery(query) == Education <==> Contains(Lower(query), "education")
    ensures ProcessBudgetQuery(query) == Healthcare
        <==> !Contains(Lower(query), "education") && Contains(Lower(query), "healthcare")
    ensures ProcessBudgetQuery(query) == Vendors
        <==> !Contains(Lower(query), "education") && !Contains(Lower(query), "healthcare") && Contains(Lower(query), "vendor")
    ensures ProcessBudgetQuery(query) == Total
        <==> !Contains(Lower(query), "education") && !Contains(Lower(query), "healthcare") && !Contains(Lower(query), "vendor")
             && !Contains(Lower(query), "unusual") && !Contains(Lower(query), "anomal")
             && (Contains(Lower(query), "total") || Contains(Lower(query), "budget"))
    ensures ProcessBudgetQuery(query) == Help
        <==> !Contains(Lower(query), "education") && !Contains(Lower(query), "healthcare") && !Contains(Lower(query), "vendor")
             && !Contains(Lower(query), "unusual") && !Contains(Lower(query), "anomal")
             && !Contains(Lower(query), "total") && !Contains(Lower(query), "budget")
  {
  }

  /** Adding words around a query that mentions education keeps the education answer. */
  lemma EducationAlwaysWins(before: string, query: string, after: string)
    requires Contains(Lower(query), "education")
    ensures ProcessBudgetQuery(before + query + after) == Education
  {
    assert Lower(before + query + after) == Lower(before) + Lower(query) + Lower(after);
    ContainsInConcat(Lower(before), Lower(query), Lower(after), "education");
  }

  /** The reply both endpoints give. */
  datatype VoiceResponse = VoiceResponse(query: string, answer: BudgetAnswer, confidence: real)

  /** `POST /text-query`: the query is echoed with confidence 0.95. */
  function TextQuery(text: string): (r: VoiceResponse)
    ensures r.query == text && r.confidence == 0.95
    ensures r.answer == ProcessBudgetQuery(text)
  {
    VoiceResponse(text, ProcessBudgetQuery(text), 0.95)
  }

  /** `POST /simulate-voice` on the demo query it picked: confidence 0.88. */
  function SimulateVoice(picked: string): (r: VoiceResponse)
    ensures r.query == picked && r.confidence == 0.88
    ensures r.answer == ProcessBudgetQuery(picked)
  {
    VoiceResponse(picked, ProcessBudgetQuery(picked), 0.88)
  }
}

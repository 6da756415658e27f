/**
 * The rule-based query analyser of the ML service: keyword categories found
 * by substring search, the first matching question intent, a bounded
 * confidence, and a response template chosen by a priority chain. The
 * keyword categories are returned through a Python `set`, whose order is not
 * defined, so they are modelled as a set.
 */
module NlpProcessor {
  import opened Text

  /** A named group of phrases: a keyword category or a question pattern. */
  datatype Entry = Entry(name: string, phrases: seq<string>)

  /** `self.keywords`, in the dictionary's insertion order. */
  const KeywordTable: seq<Entry> := [
    Entry("education", ["education", "school", "teacher", "student", "learning", "academic"]),
    Entry("healthcare", ["health", "medical", "hospital", "doctor", "medicine", "patient"]),
    Entry("infrastructure", ["infrastructure", "road", "building", "construction", "facility"]),
    Entry("vendor", ["vendor", "supplier", "company", "contractor", "business"]),
    Entry("spending", ["spend", "cost", "expense", "budget", "money", "amount", "price"]),
    Entry("anomaly", ["unusual", "strange", "weird", "suspicious", "anomaly", "irregular"]),
    Entry("total", ["total", "sum", "overall", "complete", "entire"]),
    Entry("department", ["department", "division", "unit", "section"])
  ]

  /** `self.question_patterns`, in the order they are tried. */
  const IntentTable: seq<Entry> := [
    Entry("amount", ["how much", "what amount", "cost of", "spent on", "budget for"]),
    Entry("list", ["list", "show me", "what are", "which", "top"]),
    Entry("comparison", ["compare", "difference", "vs", "versus", "between"]),
    Entry("trend", ["trend", "increase", "decrease", "change", "growth"])
  ]

  const DefaultIntent: string := "information"

  /** The eight category names. */
  const CategoryNames: set<string> :=
    {"education", "healthcare", "infrastructure", "vendor", "spending", "anomaly", "total", "department"}

  /** Some phrase of the list occurs in the (already lower-cased) text. */
  predicate Mentions(lower: string, phrases: seq<string>) {
    exists k :: k in phrases && Contains(lower, k)
  }

  // ---------------------------------------------------------------------------
  // extract_keywords

  /** The categories some of whose keywords occur in the lower-cased text. */
  function KeywordCategories(text: string): (r: set<string>)
    ensures r <= CategoryNames
    ensures forall e :: e in KeywordTable && Mentions(Lower(text), e.phrases) ==> e.name in r
  {
    set e | e in KeywordTable && Mentions(Lower(text), e.phrases) :: e.name
  }

  /** The categories found are among the eight category names. */
  lemma KeywordCategoriesAreNames(text: string)
    ensures KeywordCategories(text) <= CategoryNames
    ensures "budget" !in KeywordCategories(text) && "suspicious" !in KeywordCategories(text)
  {
  }

  /** The names of a table are pairwise distinct. */
  predicate DistinctNames(table: seq<Entry>) {
    forall a, b :: 0 <= a < b < |table| ==> table[a].name != table[b].name
  }

  /** In a table with distinct names, a name is collected exactly when its own entry is mentioned. */
  lemma NameCollectedIff(lower: string, table: seq<Entry>, i: int)
    requires 0 <= i < |table| && DistinctNames(table)
    ensures table[i].name in (set e | e in table && Mentions(lower, e.phrases) :: e.name) <==> Mentions(lower, table[i].phrases)
  {
    if table[i].name in (set e | e in table && Mentions(lower, e.phrases) :: e.name) {
      var e :| e in table && Mentions(lower, e.phrases) && e.name == table[i].name;
      var a :| 0 <= a < |table| && table[a] == e;
      assert a == i;
    }
  }

  /** A category is found exactly when one of its keywords occurs in the lower-cased text. */
  lemma KeywordCategoryIff(text: string, i: int)
    requires 0 <= i < |KeywordTable|
    ensures KeywordTable[i].name in KeywordCategories(text) <==> Mentions(Lower(text), KeywordTable[i].phrases)
  {
    assert DistinctNames(KeywordTable);
    NameCollectedIff(Lower(text), KeywordTable, i);
  }

  /** A keyword that is a whole word of the text also occurs in it as a substring. */
  lemma WholeWordIsSubstring(lower: string, k: string)
    requires k in Runs(lower, IsWordChar)
    ensures Contains(lower, k)
  {
    RunsAreSubstrings(lower, IsWordChar, k);
  }

  /** `extract_keywords`: every category is tried, keyword by keyword, then duplicates are dropped. */
  method ExtractKeywords(text: string) returns (found: set<string>)
    ensures found == KeywordCategories(text)
  {
    var lower := Lower(text);
    var foundList := CollectMentioned(lower, Runs(lower, IsWordChar), KeywordTable);
    found := set x | x in foundList;
  }

  /**
   * The loops of `extract_keywords` over any table: an entry's name is
   * appended for each of its keywords that is a whole word of the text or
   * occurs in it.
   */
  method CollectMentioned(lower: string, words: seq<string>, table: seq<Entry>) returns (foundList: seq<string>)
    requires words == Runs(lower, IsWordChar)
    ensures (set x | x in foundList) == set e | e in table && Mentions(lower, e.phrases) :: e.name
  {
    foundList := [];
    for i := 0 to |table|
      invariant (set x | x in foundList) == set e | e in table[..i] && Mentions(lower, e.phrases) :: e.name
    {
      var entry := table[i];
      ghost var before := set e | e in table[..i] && Mentions(lower, e.phrases) :: e.name;
      for j := 0 to |entry.phrases|
        invariant (set x | x in foundList) == before + (if Mentions(lower, entry.phrases[..j]) then {entry.name} else {})
      {
        var k := entry.phrases[j];
        if k in words {
          WholeWordIsSubstring(lower, k);
        }
        if k in words || Contains(lower, k) {
          foundList := foundList + [entry.name];
          assert k in entry.phrases[..j + 1];
        } else if Mentions(lower, entry.phrases[..j + 1]) {
          var k' :| k' in entry.phrases[..j + 1] && Contains(lower, k');
          assert k' in entry.phrases[..j];
        }
        if Mentions(lower, entry.phrases[..j]) {
          var k' :| k' in entry.phrases[..j] && Contains(lower, k');
          assert k' in entry.phrases[..j + 1];
        }
      }
      assert entry.phrases[..|entry.phrases|] == entry.phrases;
      assert table[..i + 1] == table[..i] + [entry];
    }
    assert table[..|table|] == table;
  }

  // ---------------------------------------------------------------------------
  // detect_intent

  /** The first entry, in table order, that the text mentions, or the default intent. */
  function FirstMatch(lower: string, table: seq<Entry>): string
    decreases |table|
  {
    if table == [] then DefaultIntent
    else if Mentions(lower, table[0].phrases) then table[0].name
    else FirstMatch(lower, table[1..])
  }

  function Intent(text: string): (r: string)
    ensures r == DefaultIntent || exists i :: 0 <= i < |IntentTable| && r == IntentTable[i].name
  {
    FirstMatchNamesAnEntry(Lower(text), IntentTable);
    FirstMatch(Lower(text), IntentTable)
  }

  /**
   * `FirstMatch` names entry i exactly when the text mentions that entry
   * and none before it; it gives the default exactly when it mentions none.
   */
  lemma {:induction false} FirstMatchIsFirst(lower: string, table: seq<Entry>, i: int)
    requires 0 <= i < |table|
    requires DistinctNames(table)
    requires forall a :: 0 <= a < |table| ==> table[a].name != DefaultIntent
    ensures FirstMatch(lower, table) == table[i].name
        <==> Mentions(lower, table[i].phrases) && forall j :: 0 <= j < i ==> !Mentions(lower, table[j].phrases)
    decreases i
  {
    if Mentions(lower, table[0].phrases) {
      assert FirstMatch(lower, table) == table[0].name;
    } else if i == 0 {
      FirstMatchNamesAnEntry(lower, table[1..]);
    } else {
      FirstMatchIsFirst(lower, table[1..], i - 1);
      assert forall j :: 0 < j < i ==> table[1..][j - 1] == table[j];
    }
  }

  /** `FirstMatch` gives the default or the name of an entry after the first. */
  lemma {:induction false} FirstMatchNamesAnEntry(lower: string, table: seq<Entry>)
    ensures FirstMatch(lower, table) == DefaultIntent || exists k :: 0 <= k < |table| && FirstMatch(lower, table) == table[k].name
    decreases |table|
  {
    if table != [] && !Mentions(lower, table[0].phrases) {
      FirstMatchNamesAnEntry(lower, table[1..]);
      if FirstMatch(lower, table[1..]) != DefaultIntent {
        var k :| 0 <= k < |table[1..]| && FirstMatch(lower, table[1..]) == table[1..][k].name;
        assert FirstMatch(lower, table) == table[k + 1].name;
      }
    }
  }

  lemma {:induction false} FirstMatchDefault(lower: string, table: seq<Entry>)
    requires forall a :: 0 <= a < |table| ==> table[a].name != DefaultIntent
    ensures FirstMatch(lower, table) == DefaultIntent <==> forall j :: 0 <= j < |table| ==> !Mentions(lower, table[j].phrases)
    decreases |table|
  {
    if table != [] {
      if Mentions(lower, table[0].phrases) {
        assert FirstMatch(lower, table) == table[0].name;
      } else {
        FirstMatchDefault(lower, table[1..]);
        assert forall j :: 0 < j < |table| ==> table[1..][j - 1] == table[j];
        assert FirstMatch(lower, table) == FirstMatch(lower, table[1..]);
      }
    }
  }

  /**
   * The intent is the first of amount, list, comparison and trend one of
   * whose patterns occurs in the lower-cased text, and "information" when
   * none does.
   */
  lemma IntentIsFirstMatch(text: string, i: int)
    requires 0 <= i < |IntentTable|
    ensures Intent(text) == IntentTable[i].name
        <==> Mentions(Lower(text), IntentTable[i].phrases) && forall j :: 0 <= j < i ==> !Mentions(Lower(text), IntentTable[j].phrases)
    ensures Intent(text) == DefaultIntent <==> forall j :: 0 <= j < |IntentTable| ==> !Mentions(Lower(text), IntentTable[j].phrases)
  {
    FirstMatchIsFirst(Lower(text), IntentTable, i);
    FirstMatchDefault(Lower(text), IntentTable);
  }

  /** `detect_intent`: the patterns are tried in order and the first hit returns. */
  method DetectIntent(text: string) returns (intent: string)
    ensures intent == Intent(text)
  {
    var lower := Lower(text);
    for i := 0 to |IntentTable|
      invariant FirstMatch(lower, IntentTable) == FirstMatch(lower, IntentTable[i..])
    {
      var entry := IntentTable[i];
      assert IntentTable[i..][1..] == IntentTable[i + 1..];
      for j := 0 to |entry.phrases|
        invariant !Mentions(lower, entry.phrases[..j])
      {
        if Contains(lower, entry.phrases[j]) {
          return entry.name;
        }
        assert forall k :: k in entry.phrases[..j + 1] ==> k in entry.phrases[..j] || k == entry.phrases[j];
      }
      assert entry.phrases[..|entry.phrases|] == entry.phrases;
    }
    return DefaultIntent;
  }

  // ---------------------------------------------------------------------------
  // calculate_confidence and process_query

  /** `calculate_confidence` on the number of categories found and the intent (floats read as reals). */
  function Confidence(keywordCount: nat, intent: string): (r: real)
    ensures 0.5 <= r <= 1.0
    ensures keywordCount >= 3 && intent != DefaultIntent ==> r == 1.0
  {
    var keywordBoost := if keywordCount as real * 0.1 < 0.3 then keywordCount as real * 0.1 else 0.3;
    var intentBoost := if intent != DefaultIntent then 0.2 else 0.0;
    var c := 0.5 + keywordBoost + intentBoost;
    if c < 1.0 then c else 1.0
  }

  /**
   * The confidence lies in [0.5, 1.0]; it is 0.5 exactly when nothing was
   * recognised and 1.0 exactly with three or more categories and an intent.
   */
  lemma ConfidenceBounds(keywordCount: nat, intent: string)
    ensures 0.5 <= Confidence(keywordCount, intent) <= 1.0
    ensures Confidence(keywordCount, intent) == 0.5 <==> keywordCount == 0 && intent == DefaultIntent
    ensures Confidence(keywordCount, intent) == 1.0 <==> keywordCount >= 3 && intent != DefaultIntent
  {
  }

  /** More categories never lower the confidence. */
  lemma ConfidenceMonotone(m: nat, n: nat, intent: string)
    requires m <= n
    ensures Confidence(m, intent) <= Confidence(n, intent)
  {
  }

  /** The dictionary `process_query` returns. */
  datatype Processed = Processed(originalQuery: string, keywords: set<string>, intent: string, numbers: seq<string>, confidence: real)

  /** `process_query`. */
  method ProcessQuery(query: string) returns (r: Processed)
    ensures r == Processed(query, KeywordCategories(query), Intent(query), Runs(query, IsDigit),
                           Confidence(|KeywordCategories(query)|, Intent(query)))
  {
    var keywords := ExtractKeywords(query);
    var intent := DetectIntent(query);
    var numbers := Runs(query, IsDigit);
    r := Processed(query, keywords, intent, numbers, Confidence(|keywords|, intent));
  }

  /** The numbers found are non-empty digit strings that occur in the query. */
  lemma NumbersAreDigitRuns(query: string, w: string)
    requires w in Runs(query, IsDigit)
    ensures w != [] && (forall i :: 0 <= i < |w| ==> IsDigit(w[i])) && Contains(query, w)
  {
    RunsAreSubstrings(query, IsDigit, w);
  }

  // ---------------------------------------------------------------------------
  // generate_response_template

  /** `generate_response_template` on the categories and the intent. */
  function ResponseTemplate(keywords: set<string>, intent: string): (r: string)
    ensures r in {"education_spending", "education_breakdown", "healthcare_spending", "healthcare_breakdown",
                  "vendor_list", "vendor_spending", "anomaly_report", "total_budget", "general_help"}
    ensures r == "total_budget" ==> "total" in keywords && "budget" in keywords
    ensures intent != "amount" && intent != "list" ==> r in {"anomaly_report", "total_budget", "general_help"}
  {
    if "education" in keywords then
      if intent == "amount" then "education_spending"
      else if intent == "list" then "education_breakdown"
      else "general_help"
    else if "healthcare" in keywords then
      if intent == "amount" then "healthcare_spending"
      else if intent == "list" then "healthcare_breakdown"
      else "general_help"
    else if "vendor" in keywords then
      if intent == "list" then "vendor_list"
      else if intent == "amount" then "vendor_spending"
      else "general_help"
    else if "anomaly" in keywords then "anomaly_report"
    else if "total" in keywords && "budget" in keywords then "total_budget"
    else "general_help"
  }

  /**
   * The first of education, healthcare and vendor that was found decides:
   * with an intent other than amount or list the answer is "general_help",
   * whatever else was found.
   */
  lemma FirstSectorDecides(keywords: set<string>, intent: string)
    requires "education" in keywords || "healthcare" in keywords || "vendor" in keywords
    ensures intent != "amount" && intent != "list" ==> ResponseTemplate(keywords, intent) == "general_help"
    ensures "education" in keywords ==> ResponseTemplate(keywords, intent) in {"education_spending", "education_breakdown", "general_help"}
    ensures ResponseTemplate(keywords, intent) != "anomaly_report"
  {
  }

  /** The anomaly report is chosen exactly when anomaly and none of the three sectors was found. */
  lemma AnomalyReportIff(keywords: set<string>, intent: string)
    ensures ResponseTemplate(keywords, intent) == "anomaly_report"
        <==> "anomaly" in keywords && "education" !in keywords && "healthcare" !in keywords && "vendor" !in keywords
  {
  }

  /** "total_budget" is never chosen for a processed query: "budget" is not a category name. */
  lemma TotalBudgetUnreachable(query: string, intent: string)
    ensures ResponseTemplate(KeywordCategories(query), intent) != "total_budget"
  {
    KeywordCategoriesAreNames(query);
    TemplateWithoutBudget(KeywordCategories(query), intent);
    assert "total_budget"[0] == 't';
  }

  /** Without "budget" among the keywords, no template starts with 't'. */
  lemma TemplateWithoutBudget(keywords: set<string>, intent: string)
    requires "budget" !in keywords
    ensures var r := ResponseTemplate(keywords, intent); r != [] && r[0] != 't'
  {
  }
}

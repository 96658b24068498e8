/** `classify_clause` and `bulk_classify` (backend/app/utils/nlp_classifier.py): a clause
    labelled with the first bias category one of whose keywords it mentions. */
module NlpClassifier {
  import opened Wrappers
  import opened Text
  import opened Dict

  /** A category of `BIAS_KEYWORDS`: its label (`category`, as `label` is reserved in Dafny) and its keywords. */
  datatype BiasRule = BiasRule(category: string, keywords: seq<string>)

  /** `BIAS_KEYWORDS`, in table order. */
  const BiasKeywords: seq<BiasRule> := [
    BiasRule("income_exclusion", ["salary slips", "minimum income", "cibil"]),
    BiasRule("gender_bias", ["only male", "only female"]),
    BiasRule("location_bias", ["urban residents", "metro cities only"])
  ]

  /** `SUGGESTIONS`. */
  const SuggestionTable: Dict<string> := [
    ("income_exclusion", "Allow alternative proofs like bank inflows or gig statements."),
    ("gender_bias", "Ensure eligibility is gender neutral."),
    ("location_bias", "Provide rural/urban parity or alternative verification.")
  ]

  const Neutral: string := "neutral"
  const NoAction: string := "No action needed."

  datatype ClausePrediction = ClausePrediction(category: string, confidence: real, suggestion: string)

  /** The position of the first category with a keyword in `s`, if any. */
  function FirstMatch(s: string, rules: seq<BiasRule>): (r: Option<nat>)
    ensures r.Some? ==> r.value < |rules| && ContainsAny(s, rules[r.value].keywords)
                        && forall i :: 0 <= i < r.value ==> !ContainsAny(s, rules[i].keywords)
    ensures r.None? ==> forall i :: 0 <= i < |rules| ==> !ContainsAny(s, rules[i].keywords)
  {
    if rules == [] then None
    else if ContainsAnyText(s, rules[0].keywords) then Some(0)
    else
      match FirstMatch(s, rules[1..])
      case Some(j) => Some(j + 1)
      case None => None
  }

  /** Every label of the table has a suggestion, so `SUGGESTIONS[label]` never fails. */
  predicate Covered(rules: seq<BiasRule>, suggestions: Dict<string>) {
    forall j :: 0 <= j < |rules| ==> Get(suggestions, rules[j].category).Some?
  }

  /** `classify_clause` over a category table and a suggestion table. */
  function ClassifyWith(text: string, rules: seq<BiasRule>, suggestions: Dict<string>): ClausePrediction
    requires Covered(rules, suggestions)
  {
    match FirstMatch(Lower(text), rules)
    case Some(j) => ClausePrediction(rules[j].category, 0.82, Get(suggestions, rules[j].category).value)
    case None => ClausePrediction(Neutral, 0.4, NoAction)
  }

  lemma {:induction false} TablesCovered()
    ensures Covered(BiasKeywords, SuggestionTable)
  {
    assert SuggestionTable[0].0 == "income_exclusion" == BiasKeywords[0].category;
    assert SuggestionTable[1].0 == "gender_bias" == BiasKeywords[1].category;
    assert SuggestionTable[2].0 == "location_bias" == BiasKeywords[2].category;
  }

  /** `classify_clause(text)`. */
  function ClassifyClause(text: string): ClausePrediction {
    TablesCovered();
    ClassifyWith(text, BiasKeywords, SuggestionTable)
  }

  /** `bulk_classify` over a category table and a suggestion table. */
  function BulkWith(clauses: seq<string>, rules: seq<BiasRule>, suggestions: Dict<string>): seq<ClausePrediction>
    requires Covered(rules, suggestions)
  {
    if clauses == [] then []
    else [ClassifyWith(clauses[0], rules, suggestions)] + BulkWith(clauses[1..], rules, suggestions)
  }

  /** `bulk_classify(clauses)`. */
  function BulkClassify(clauses: seq<string>): seq<ClausePrediction> {
    TablesCovered();
    BulkWith(clauses, BiasKeywords, SuggestionTable)
  }

  // ------------------------------------------------------------ what the classifier promises

  /** The first category, in table order, with a keyword in the lowercased clause wins,
      with confidence 0.82 and its suggestion; a clause with no keyword of any category
      is neutral, with confidence 0.4 and no action. */
  lemma {:induction false} ClassifyFirstMatch(text: string, rules: seq<BiasRule>, suggestions: Dict<string>)
    requires Covered(rules, suggestions)
    ensures var p, s := ClassifyWith(text, rules, suggestions), Lower(text);
            (forall j :: (0 <= j < |rules| && ContainsAny(s, rules[j].keywords)
                          && forall i :: 0 <= i < j ==> !ContainsAny(s, rules[i].keywords)) ==>
               p == ClausePrediction(rules[j].category, 0.82, Get(suggestions, rules[j].category).value))
            && ((forall j :: 0 <= j < |rules| ==> !ContainsAny(s, rules[j].keywords)) ==>
               p == ClausePrediction(Neutral, 0.4, NoAction))
  {
    var s := Lower(text);
    forall j | 0 <= j < |rules| && ContainsAny(s, rules[j].keywords)
               && (forall i :: 0 <= i < j ==> !ContainsAny(s, rules[i].keywords))
      ensures FirstMatch(s, rules) == Some(j)
    {
      FirstMatchAt(s, rules, j);
    }
  }

  /** The category `j` is the first match when it has a keyword in `s` and none before
      it has. */
  lemma {:induction false} FirstMatchAt(s: string, rules: seq<BiasRule>, j: nat)
    requires j < |rules| && ContainsAny(s, rules[j].keywords)
    requires forall i :: 0 <= i < j ==> !ContainsAny(s, rules[i].keywords)
    ensures FirstMatch(s, rules) == Some(j)
  {
    var r := FirstMatch(s, rules);
    assert r.Some?;
    assert !(r.value < j);
    assert !(j < r.value);
  }

  /** The label is one of the three categories or neutral; confidence 0.82 goes with a
      category and its suggestion, 0.4 with neutral and "No action needed.". */
  lemma {:induction false} ClassifyOutcomes(text: string)
    ensures var p := ClassifyClause(text);
            (p.category == "income_exclusion" && p.confidence == 0.82
               && p.suggestion == "Allow alternative proofs like bank inflows or gig statements.")
            || (p.category == "gender_bias" && p.confidence == 0.82
               && p.suggestion == "Ensure eligibility is gender neutral.")
            || (p.category == "location_bias" && p.confidence == 0.82
               && p.suggestion == "Provide rural/urban parity or alternative verification.")
            || (p.category == Neutral && p.confidence == 0.4 && p.suggestion == NoAction)
  {
    TablesCovered();
    match FirstMatch(Lower(text), BiasKeywords) {
      case Some(j) =>
        if j == 0 {
          assert Get(SuggestionTable, "income_exclusion") == Some("Allow alternative proofs like bank inflows or gig statements.");
        } else if j == 1 {
          assert Get(SuggestionTable, "gender_bias") == Some("Ensure eligibility is gender neutral.");
        } else {
          assert Get(SuggestionTable, "location_bias") == Some("Provide rural/urban parity or alternative verification.");
        }
      case None =>
    }
  }

  /** Matching ignores case: a clause and its lowercase form get the same prediction. */
  lemma {:induction false} ClassifyIgnoresCase(text: string)
    ensures ClassifyClause(Lower(text)) == ClassifyClause(text)
  {
    LowerIdempotent(text);
  }

  /** `bulk_classify` keeps the length and order: element i is the prediction for
      clause i. */
  lemma {:induction false} BulkWithElementwise(clauses: seq<string>, rules: seq<BiasRule>, suggestions: Dict<string>)
    requires Covered(rules, suggestions)
    ensures |BulkWith(clauses, rules, suggestions)| == |clauses|
    ensures forall i :: 0 <= i < |clauses| ==> BulkWith(clauses, rules, suggestions)[i] == ClassifyWith(clauses[i], rules, suggestions)
  {
    if clauses != [] {
      BulkWithElementwise(clauses[1..], rules, suggestions);
    }
  }

  lemma {:induction false} BulkClassifyElementwise(clauses: seq<string>)
    ensures |BulkClassify(clauses)| == |clauses|
    ensures forall i :: 0 <= i < |clauses| ==> BulkClassify(clauses)[i] == ClassifyClause(clauses[i])
  {
    TablesCovered();
    BulkWithElementwise(clauses, BiasKeywords, SuggestionTable);
  }
}

/** Properties that connect the client and the service: what the fallback
    engine makes of requests the form can send, and how its result is shown. */
module EndToEnd {
  import opened Types
  import opened Fallback
  import opened Form
  import opened Render

  /** The score a category gets for every risk tolerance other than the
      exact strings "low" and "high". */
  function DefaultScore(category: Category): (score: int)
    ensures forall rt :: rt != "low" && rt != "high" ==> Score(category, rt) == score
  {
    match category
    case Startup => 7
    case Corporate => 6
    case General => 5
  }

  /** The form sends "Low", "Medium" or "High", never "low" or "high", so on
      a request from the form the engine's scores do not depend on the risk
      tolerance at all. */
  lemma FormLevelsNeverChangeScores(option: Option, riskTolerance: string)
    requires IsLevelName(riskTolerance)
    ensures Assess(option, riskTolerance).score == DefaultScore(Classify(option.name))
  {
    assert riskTolerance != "low" && riskTolerance != "high";
  }

  /** A request the form submits has at least two options, so the fallback
      engine always answers it, with scores that ignore its risk tolerance. */
  lemma SubmittedRequestsGetAFallbackAnswer(form: DecisionForm)
    requires form.Valid() && form.Submission().Just?
    ensures var request := form.Submission().value;
      && FallbackDecision(request.description, request.options, request.constraints,
                          request.riskTolerance).Success?
      && (forall k :: 0 <= k < |request.options| ==>
            Assess(request.options[k], request.riskTolerance).score ==
            DefaultScore(Classify(request.options[k].name)))
  {
    SubmittedRequestWellFormed(form);
    var request := form.Submission().value;
    forall k | 0 <= k < |request.options|
      ensures Assess(request.options[k], request.riskTolerance).score ==
              DefaultScore(Classify(request.options[k].name))
    {
      FormLevelsNeverChangeScores(request.options[k], request.riskTolerance);
    }
  }

  /** Every card of a fallback report has the yellow band and a risks section. */
  lemma FallbackCardsAreYellowWithRisks(description: string, options: seq<Option>,
                                        constraints: seq<string>, riskTolerance: string)
    requires |options| > 0
    ensures var report := AnalysisReport(FallbackDecision(description, options, constraints, riskTolerance).value);
      && |report.cards| == |options|
      && forall k :: 0 <= k < |report.cards| ==>
           report.cards[k].name == options[k].name
           && report.cards[k].band == Yellow && report.cards[k].risks.Just?
  {
  }

  /** In a report assembled by the engine, the recommended option's card has
      a band at least as good as every other card. */
  lemma RecommendedCardHasTopBand(analyses: seq<AnalyzedOption>)
    requires |analyses| > 0
    ensures var report := AnalysisReport(Recommend(analyses).value);
      exists k :: 0 <= k < |report.cards|
        && report.cards[k].name == report.recommendation
        && forall j :: 0 <= j < |report.cards| ==> BandRank(report.cards[j].band) <= BandRank(report.cards[k].band)
  {
    var result := Recommend(analyses).value;
    var report := AnalysisReport(result);
    var k: nat :| IsFirstMax(analyses, k) && result.recommendation == analyses[k].name;
    forall j | 0 <= j < |report.cards|
      ensures BandRank(report.cards[j].band) <= BandRank(report.cards[k].band)
    {
      BandMonotone(analyses[j].score, analyses[k].score);
    }
    assert report.cards[k].name == report.recommendation;
  }
}

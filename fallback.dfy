/** The rule-based engine the service answers with when the language-model
    agent fails (backend/fallback_ai.py). Each option is put in a category by
    a substring of its lower-cased name, scored from the category and the
    risk tolerance, and the first option with the highest score is
    recommended. */
module Fallback {
  import opened Types
  import opened Strings

  /** `max` of an empty list raises `ValueError`; that is the engine's only error. */
  datatype EngineError = NoOptions

  /** The three branches of the engine. "startup" is checked before "corporate". */
  datatype Category = Startup | Corporate | General

  const StartupPros: seq<string> := [
    "Faster learning through hands-on responsibilities",
    "Greater ownership and impact in early-stage teams"]
  const StartupCons: seq<string> := [
    "Lower job stability compared to established firms",
    "Work-life balance may be unpredictable"]
  const StartupRisks: seq<string> := [
    "Business sustainability depends on funding and market conditions"]
  const CorporatePros: seq<string> := [
    "Higher job stability and structured career paths",
    "Clear processes and established support systems"]
  const CorporateCons: seq<string> := [
    "Slower skill diversification",
    "Limited autonomy in decision-making"]
  const CorporateRisks: seq<string> := [
    "Career growth may be slower due to hierarchy"]
  const GeneralPros: seq<string> := ["Meets some stated requirements"]
  const GeneralCons: seq<string> := ["Insufficient information to fully evaluate"]
  const GeneralRisks: seq<string> := ["Unclear long-term implications"]

  const Summary: string := "Decision evaluated using structured reasoning based on provided context."
  const Criteria: seq<string> := ["Risk tolerance", "Stability", "Growth potential"]
  const TradeOffs: seq<string> := [
    "Higher growth often comes with increased risk",
    "Stability may limit rapid skill expansion"]
  const ReasoningSuffix: string := " aligns better with the stated risk tolerance and constraints."
  const Confidence: real := 0.75

  /** The category of an option, decided on its lower-cased name: a name
      holding "startup" is a startup whatever else it holds, and a name
      holding neither word is general. */
  function Classify(name: string): (c: Category)
    ensures c == Startup <==> Contains(Lower(name), "startup")
    ensures c == Corporate <==> !Contains(Lower(name), "startup") && Contains(Lower(name), "corporate")
    ensures c == General <==> !Contains(Lower(name), "startup") && !Contains(Lower(name), "corporate")
  {
    var lowered := Lower(name);
    if Contains(lowered, "startup") then Startup
    else if Contains(lowered, "corporate") then Corporate
    else General
  }

  /** The score of a category. The risk tolerance is compared, case-sensitively,
      with the literals "low" and "high": exactly "low" drops a startup from 7
      to 5, exactly "high" raises a corporate option from 6 to 7, and a
      general option scores 5 whatever the tolerance. */
  function Score(category: Category, riskTolerance: string): (score: int)
    ensures 5 <= score <= 7
    ensures category == Startup ==> score == 5 || score == 7
    ensures category == Startup ==> (score == 5 <==> riskTolerance == "low")
    ensures category == Corporate ==> score == 6 || score == 7
    ensures category == Corporate ==> (score == 7 <==> riskTolerance == "high")
    ensures category == General ==> score == 5
  {
    match category
    case Startup => if riskTolerance != "low" then 7 else 5
    case Corporate => if riskTolerance != "high" then 6 else 7
    case General => 5
  }

  /** What the engine's loop appends for one option. */
  function Assess(option: Option, riskTolerance: string): (a: AnalyzedOption)
    ensures a.name == option.name
    ensures a.score in {5, 6, 7} && 0 <= a.score <= 10
    ensures |a.risks| > 0 && |a.pros| > 0 && |a.cons| > 0
  {
    var category := Classify(option.name);
    var score := Score(category, riskTolerance);
    match category
    case Startup => AnalyzedOption(option.name, StartupPros, StartupCons, StartupRisks, score)
    case Corporate => AnalyzedOption(option.name, CorporatePros, CorporateCons, CorporateRisks, score)
    case General => AnalyzedOption(option.name, GeneralPros, GeneralCons, GeneralRisks, score)
  }

  /** Entry `k` has a maximal score and every earlier entry scores strictly less. */
  predicate IsFirstMax(analyses: seq<AnalyzedOption>, k: nat) {
    && k < |analyses|
    && (forall j :: 0 <= j < |analyses| ==> analyses[j].score <= analyses[k].score)
    && (forall j :: 0 <= j < k ==> analyses[j].score < analyses[k].score)
  }

  /** Python's `max(..., key=score)` from position `i` on, with `best` the
      winner among the first `i` entries: a later entry replaces the current
      winner only when its score is strictly greater. */
  function MaxFrom(analyses: seq<AnalyzedOption>, i: nat, best: nat): (k: nat)
    requires best < i <= |analyses|
    requires IsFirstMax(analyses[..i], best)
    ensures IsFirstMax(analyses, k)
    decreases |analyses| - i
  {
    if i == |analyses| then
      assert analyses[..i] == analyses;
      best
    else if analyses[i].score > analyses[best].score then
      MaxFrom(analyses, i + 1, i)
    else
      MaxFrom(analyses, i + 1, best)
  }

  /** The index `max` selects: the first entry of maximal score. */
  function BestIndex(analyses: seq<AnalyzedOption>): (k: nat)
    requires |analyses| > 0
    ensures IsFirstMax(analyses, k)
  {
    MaxFrom(analyses, 1, 0)
  }

  /** The first-maximum property determines the index. */
  lemma FirstMaxUnique(analyses: seq<AnalyzedOption>, k1: nat, k2: nat)
    requires IsFirstMax(analyses, k1) && IsFirstMax(analyses, k2)
    ensures k1 == k2
  {
    assert analyses[k1].score == analyses[k2].score;
  }

  /** The result assembled from the per-option analyses: the recommendation is
      the first best-scoring option, the reasoning is its name followed by a
      fixed sentence, and the other fields are constants. */
  function Recommend(analyses: seq<AnalyzedOption>): (r: Result<DecisionAnalysis, EngineError>)
    ensures r.Failure? <==> |analyses| == 0
    ensures r.Success? ==>
      && r.value.optionsAnalysis == analyses
      && (exists k: nat :: IsFirstMax(analyses, k) && r.value.recommendation == analyses[k].name)
      && r.value.reasoning == r.value.recommendation + ReasoningSuffix
      && r.value.summary == Summary && r.value.criteria == Criteria
      && r.value.tradeOffs == TradeOffs && r.value.confidenceScore == Confidence
  {
    if |analyses| == 0 then Failure(NoOptions)
    else
      var best := analyses[BestIndex(analyses)];
      Success(DecisionAnalysis(Summary, Criteria, analyses, TradeOffs,
                               best.name, best.name + ReasoningSuffix, Confidence))
  }

  /** The engine's result as a function of its inputs. The description and
      the constraints are accepted and ignored, as in the source. */
  function FallbackDecision(description: string, options: seq<Option>, constraints: seq<string>,
                            riskTolerance: string): (r: Result<DecisionAnalysis, EngineError>)
    ensures r.Failure? <==> |options| == 0
    ensures r.Success? ==>
      && |r.value.optionsAnalysis| == |options|
      && (forall i :: 0 <= i < |options| ==> r.value.optionsAnalysis[i] == Assess(options[i], riskTolerance))
  {
    Recommend(seq(|options|, i requires 0 <= i < |options| => Assess(options[i], riskTolerance)))
  }

  /** `fallback_decision_engine`: one pass over the options that builds the
      pros, cons, risks and score of each, then the `max` selection. */
  method FallbackDecisionEngine(description: string, options: seq<Option>, constraints: seq<string>,
                                riskTolerance: string) returns (r: Result<DecisionAnalysis, EngineError>)
    ensures r == FallbackDecision(description, options, constraints, riskTolerance)
  {
    var analyses: seq<AnalyzedOption> := [];
    for idx := 0 to |options|
      invariant |analyses| == idx
      invariant forall j :: 0 <= j < idx ==> analyses[j] == Assess(options[j], riskTolerance)
    {
      var option := options[idx];
      var pros: seq<string> := [];
      var cons: seq<string> := [];
      var risks: seq<string> := [];
      var score: int;
      var name := Lower(option.name);
      if Contains(name, "startup") {
        assert Classify(option.name) == Startup;
        pros := pros + StartupPros;
        cons := cons + StartupCons;
        risks := risks + StartupRisks;
        score := if riskTolerance != "low" then 7 else 5;
      } else if Contains(name, "corporate") {
        assert Classify(option.name) == Corporate;
        pros := pros + CorporatePros;
        cons := cons + CorporateCons;
        risks := risks + CorporateRisks;
        score := if riskTolerance != "high" then 6 else 7;
      } else {
        assert Classify(option.name) == General;
        pros := pros + GeneralPros;
        cons := cons + GeneralCons;
        risks := risks + GeneralRisks;
        score := 5;
      }
      var analysed := AnalyzedOption(option.name, pros, cons, risks, score);
      assert analysed == Assess(option, riskTolerance);
      analyses := analyses + [analysed];
    }
    assert analyses == seq(|options|, i requires 0 <= i < |options| => Assess(options[i], riskTolerance));
    r := Recommend(analyses);
  }

  // ---------------------------------------------------------------------
  // Properties of the engine

  /** The score table, stated on the lower-cased name and the exact
      risk-tolerance string. */
  lemma ScoreTable(option: Option, riskTolerance: string)
    ensures var lowered := Lower(option.name);
      Assess(option, riskTolerance).score ==
        if Contains(lowered, "startup") then (if riskTolerance == "low" then 5 else 7)
        else if Contains(lowered, "corporate") then (if riskTolerance == "high" then 7 else 6)
        else 5
  {
  }

  /** Classification ignores ASCII case: a name and its lower-cased form fall
      in the same branch. */
  lemma ClassifyIgnoresCase(name: string)
    ensures Classify(Lower(name)) == Classify(name)
  {
    LowerIdempotent(name);
  }

  /** A name containing both words is a startup: that test comes first. */
  lemma StartupBeforeCorporate(option: Option, riskTolerance: string)
    requires Contains(Lower(option.name), "startup") && Contains(Lower(option.name), "corporate")
    ensures Classify(option.name) == Startup
    ensures Assess(option, riskTolerance).risks == StartupRisks
  {
  }

  /** The recommendation is the name of one of the input options, one whose
      score is maximal and that comes first among those; the reasoning ends
      with the fixed sentence. */
  lemma {:induction false} RecommendationIsFirstBestOption(description: string, options: seq<Option>,
                                                           constraints: seq<string>, riskTolerance: string)
    requires |options| > 0
    ensures var r := FallbackDecision(description, options, constraints, riskTolerance);
      && r.Success?
      && var analyses := r.value.optionsAnalysis;
      && (exists k :: 0 <= k < |options|
            && r.value.recommendation == options[k].name
            && (forall j :: 0 <= j < |options| ==> analyses[j].score <= analyses[k].score)
            && (forall j :: 0 <= j < k ==> analyses[j].score < analyses[k].score))
      && r.value.reasoning == r.value.recommendation + ReasoningSuffix
  {
    var r := FallbackDecision(description, options, constraints, riskTolerance);
    var analyses := r.value.optionsAnalysis;
    var k: nat :| IsFirstMax(analyses, k) && r.value.recommendation == analyses[k].name;
    assert analyses[k] == Assess(options[k], riskTolerance);
    assert r.value.recommendation == options[k].name;
  }
}

/** The report view (src/components/AnalysisResult.tsx), reduced to what it
    decides: the colour band of each score, which sections of an option
    card appear, and the order of the listed items. */
module Render {
  import opened Types

  /** The three colours of the score badge. */
  datatype Band = Green | Yellow | Red

  /** The nested conditional of the score badge. */
  function ScoreBand(score: int): (b: Band)
    ensures b == Green <==> 8 <= score
    ensures b == Yellow <==> 5 <= score < 8
    ensures b == Red <==> score < 5
  {
    if score >= 8 then Green else if score >= 5 then Yellow else Red
  }

  /** The bands in increasing order of merit. */
  function BandRank(b: Band): nat {
    match b
    case Red => 0
    case Yellow => 1
    case Green => 2
  }

  /** A higher score never gets a lower band. */
  lemma BandMonotone(low: int, high: int)
    requires low <= high
    ensures BandRank(ScoreBand(low)) <= BandRank(ScoreBand(high))
  {
  }

  /** What one option card shows. The risks section is `Nothing` when it is
      not rendered; the pros and cons lists are always rendered. */
  datatype Card = Card(
    name: string,
    score: int,
    band: Band,
    pros: seq<string>,
    cons: seq<string>,
    risks: Maybe<seq<string>>)

  /** `OptionCard`. */
  function OptionCard(option: AnalyzedOption): (c: Card)
    ensures c.name == option.name && c.score == option.score
    ensures c.band == ScoreBand(option.score)
    ensures c.pros == option.pros && c.cons == option.cons
    ensures c.risks.Just? <==> |option.risks| > 0
    ensures c.risks.Just? ==> c.risks.value == option.risks
  {
    Card(option.name, option.score, ScoreBand(option.score), option.pros, option.cons,
         if |option.risks| > 0 then Just(option.risks) else Nothing)
  }

  /** What the report shows, top to bottom. The confidence bar is left out. */
  datatype Report = Report(
    summary: string,
    criteria: seq<string>,
    recommendation: string,
    reasoning: string,
    cards: seq<Card>,
    tradeOffs: seq<string>)

  /** `AnalysisResult`: one card per analysed option, in order, and one item
      per criterion and per trade-off, in order. */
  function AnalysisReport(analysis: DecisionAnalysis): (r: Report)
    ensures |r.cards| == |analysis.optionsAnalysis|
    ensures forall i :: 0 <= i < |r.cards| ==> r.cards[i] == OptionCard(analysis.optionsAnalysis[i])
    ensures r.criteria == analysis.criteria && r.tradeOffs == analysis.tradeOffs
    ensures r.summary == analysis.summary && r.recommendation == analysis.recommendation
    ensures r.reasoning == analysis.reasoning
  {
    var options := analysis.optionsAnalysis;
    Report(analysis.summary, analysis.criteria, analysis.recommendation, analysis.reasoning,
           seq(|options|, i requires 0 <= i < |options| => OptionCard(options[i])),
           analysis.tradeOffs)
  }

  /** Every analysed option is on screen, as its own card. */
  lemma EveryOptionShown(analysis: DecisionAnalysis, option: AnalyzedOption)
    requires option in analysis.optionsAnalysis
    ensures OptionCard(option) in AnalysisReport(analysis).cards
  {
    var i :| 0 <= i < |analysis.optionsAnalysis| && analysis.optionsAnalysis[i] == option;
    var cards := AnalysisReport(analysis).cards;
    assert cards[i] == OptionCard(option);
  }
}

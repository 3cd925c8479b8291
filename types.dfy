/** The request and response records shared by the API service and the web
    client (backend/models.py, src/types.ts). Field names are the wire names
    in Dafny's camelCase: `riskTolerance` is `risk_tolerance`,
    `optionsAnalysis` is `options_analysis`, `tradeOffs` is `trade_offs` and
    `confidenceScore` is `confidence_score`. */
module Types {

  /** An optional value: Python's `Optional[...]`, TypeScript's `T | null`. */
  datatype Maybe<+T> = Nothing | Just(value: T)

  /** A value or an error raised on the way to it. */
  datatype Result<+T, +E> = Success(value: T) | Failure(error: E)

  /** One option the user is choosing between. The description may be absent. */
  datatype Option = Option(name: string, description: Maybe<string>)

  /** The payload the form sends and the service receives. The service does
      not restrict `riskTolerance`; the form only ever sends "Low", "Medium"
      or "High". */
  datatype DecisionRequest = DecisionRequest(
    description: string,
    options: seq<Option>,
    constraints: seq<string>,
    riskTolerance: string)

  /** The analysis of one option; `score` is an integer "out of 10". */
  datatype AnalyzedOption = AnalyzedOption(
    name: string,
    pros: seq<string>,
    cons: seq<string>,
    risks: seq<string>,
    score: int)

  /** The whole analysis returned to the client. The confidence score is a
      float in the source; it is carried here as an uninterpreted real. */
  datatype DecisionAnalysis = DecisionAnalysis(
    summary: string,
    criteria: seq<string>,
    optionsAnalysis: seq<AnalyzedOption>,
    tradeOffs: seq<string>,
    recommendation: string,
    reasoning: string,
    confidenceScore: real)
}

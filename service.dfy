/** The `/api/analyze` handler (backend/main.py): it builds a prompt from the
    request, asks the language-model agent, strips a markdown code fence from
    the answer, parses it, and answers with the rule-based engine whenever
    any of those steps raises. */
module Service {
  import opened Types
  import opened Strings
  import opened Fallback

  const JsonFence: string := "```json"
  const Fence: string := "```"

  /** What awaiting the agent yields: the text of its answer, or an exception. */
  datatype AgentOutcome = Answered(data: string) | Raised

  // ---------------------------------------------------------------------
  // Fence cleaning

  /** The cleaning the handler applies to the agent's answer: after the
      first "```json" (or, failing that, the first "```"), the piece up to
      the next occurrence of that marker, cut again at its first "```",
      then stripped. Text with no fence is left as it is. Either way the
      result is a contiguous piece of the answer: cleaning only cuts. */
  function CleanFences(raw: string): (r: string)
    ensures Contains(raw, r)
  {
    if Contains(raw, JsonFence) then
      CutIsSlice(raw, JsonFence);
      Trim(Before(Before(After(raw, JsonFence), JsonFence), Fence))
    else if Contains(raw, Fence) then
      CutIsSlice(raw, Fence);
      Trim(Before(Before(After(raw, Fence), Fence), Fence))
    else
      assert raw[0..|raw|] == raw;
      ContainsAt(raw, raw, 0);
      raw
  }

  /** Each step of the cleaning keeps a contiguous piece of its input. */
  lemma {:induction false} CutIsSlice(raw: string, marker: string)
    requires Contains(raw, marker) && |marker| > 0
    ensures Contains(raw, Trim(Before(Before(After(raw, marker), marker), Fence)))
  {
    var a := After(raw, marker);
    ContainsTail(raw, a);
    var b := Before(a, marker);
    ContainsHead(a, b);
    ContainsTrans(raw, a, b);
    var c := Before(b, Fence);
    ContainsHead(b, c);
    ContainsTrans(raw, b, c);
    TrimContained(c);
    ContainsTrans(raw, c, Trim(c));
  }

  /** "```json" starts with "```", so text without "```" has no "```json" either. */
  lemma NoFenceNoJsonFence(s: string)
    requires !Contains(s, Fence)
    ensures !Contains(s, JsonFence)
  {
    AbsentExtension(s, JsonFence, Fence);
  }

  /** Text without a fence comes back unchanged, not even stripped. */
  lemma UnfencedTextUnchanged(raw: string)
    requires !Contains(raw, Fence)
    ensures CleanFences(raw) == raw
  {
    NoFenceNoJsonFence(raw);
  }

  /** Cutting a prefix of `s` at the first `q`: if the first `q` of `s` ends
      inside the prefix, the cut is the same as on `s`; otherwise the prefix
      has no `q` at all. */
  lemma {:induction false} BeforeOfPrefix(s: string, n: nat, q: string)
    requires |q| > 0 && n <= |s|
    ensures Before(s[..n], q) ==
      if Contains(s, q) && |Before(s, q)| + |q| <= n then Before(s, q) else s[..n]
  {
    var m := |Before(s, q)|;
    var t := s[..n];
    forall k: nat | k + |q| <= n ensures OccursAt(t, q, k) == OccursAt(s, q, k) {
      SliceOfSlice(s, 0, n, k, |q|);
    }
    if Contains(s, q) && m + |q| <= n {
      FindFirst(t, q, 0, m);
    } else {
      assert !Contains(t, q);
    }
  }

  /** Four backticks in a row at `i`. */
  predicate BacktickRunAt(s: string, i: nat) {
    OccursAt(s, "````", i)
  }

  /** Two fences that start less than three characters apart make a run of
      four backticks. */
  lemma OverlappingFences(s: string, m: nat, k: nat)
    requires m < k < m + 3 && OccursAt(s, Fence, m) && OccursAt(s, Fence, k)
    ensures BacktickRunAt(s, m)
  {
    assert s[m] == '`' && s[m + 1] == '`' && s[m + 2] == '`';
    assert s[k + 2] == '`';
    assert s[m + 3] == '`';
    assert s[m..m + 4] == "````";
  }

  /** With a "```json" fence, the result is the stripped text after it up to
      the next "```", except when a second "```json" starts one or two
      characters after that "```" (four or five backticks followed by
      "json"): then the piece runs up to that second "```json" and keeps one
      or two backticks. */
  lemma {:induction false} JsonFenceExact(raw: string)
    requires Contains(raw, JsonFence)
    ensures var rest := After(raw, JsonFence);
      var m, k := |Before(rest, Fence)|, |Before(rest, JsonFence)|;
      CleanFences(raw) == if m < k < m + 3 then Trim(rest[..k]) else Trim(Before(rest, Fence))
  {
    var rest := After(raw, JsonFence);
    var piece := Before(rest, JsonFence);
    var k := |piece|;
    var m := |Before(rest, Fence)|;
    var cut := Before(piece, Fence);
    assert CleanFences(raw) == Trim(cut);
    assert piece == rest[..k];
    BeforeOfPrefix(rest, k, Fence);
    if k < |rest| {
      PrefixOccurs(rest, JsonFence, Fence, k);
      ContainsAt(rest, Fence, k);
      assert m <= k;
    }
    if m < k < m + 3 {
      assert cut == rest[..k];
    } else if k <= m {
      assert k == m;
      assert cut == rest[..k];
    } else {
      assert m < |rest|;
      assert cut == Before(rest, Fence);
    }
  }

  /** In particular the result is the text up to the next "```" when the
      text after the fence has no run of four backticks. */
  lemma {:induction false} JsonFenceCase(raw: string)
    requires Contains(raw, JsonFence)
    requires !Contains(After(raw, JsonFence), "````")
    ensures CleanFences(raw) == Trim(Before(After(raw, JsonFence), Fence))
  {
    var rest := After(raw, JsonFence);
    var k := |Before(rest, JsonFence)|;
    var m := |Before(rest, Fence)|;
    JsonFenceExact(raw);
    if m < k < m + 3 {
      assert OccursAt(rest, Fence, m);
      assert OccursAt(rest, JsonFence, k);
      PrefixOccurs(rest, JsonFence, Fence, k);
      OverlappingFences(rest, m, k);
      ContainsAt(rest, "````", m);
    }
  }

  /** With only a bare fence, the result is the stripped text between the
      first and the second "```", or everything after the first when there
      is no second. */
  lemma PlainFenceCase(raw: string)
    requires !Contains(raw, JsonFence) && Contains(raw, Fence)
    ensures CleanFences(raw) == Trim(Before(After(raw, Fence), Fence))
  {
  }

  /** The handler's own split chains, `s.split("```json")[1].split("```")[0]`
      and `s.split("```")[1].split("```")[0]`, are the pieces
      `CleanFences` names with `Before` and `After`. */
  lemma SplitChains(raw: string)
    ensures Contains(raw, JsonFence) ==>
      |Split(raw, JsonFence)| >= 2
      && CleanFences(raw) == Trim(Split(Split(raw, JsonFence)[1], Fence)[0])
    ensures !Contains(raw, JsonFence) && Contains(raw, Fence) ==>
      |Split(raw, Fence)| >= 2
      && CleanFences(raw) == Trim(Split(Split(raw, Fence)[1], Fence)[0])
  {
    SplitPieces(raw, JsonFence);
    SplitPieces(raw, Fence);
    if Contains(raw, JsonFence) {
      SplitPieces(Split(raw, JsonFence)[1], Fence);
    }
    if Contains(raw, Fence) {
      SplitPieces(Split(raw, Fence)[1], Fence);
    }
  }

  /** An example of the four-backtick case: the piece is cut at the second
      "```json", one backtick after the first "```" behind the fence. */
  lemma BacktickRunExample()
    ensures CleanFences("```json````json") == "`"
  {
    var raw := "```json````json";
    var rest := "````json";
    FenceAtStart();
    assert raw[7..] == rest;
    SecondFenceAtOne();
    assert Before(rest, JsonFence) == "`";
    BacktickCleaned();
  }

  lemma FenceAtStart()
    ensures Find("```json````json", JsonFence, 0) == Just(0)
  {
    assert OccursAt("```json````json", JsonFence, 0);
    FindFirst("```json````json", JsonFence, 0, 0);
  }

  lemma SecondFenceAtOne()
    ensures Find("````json", JsonFence, 0) == Just(1)
  {
    var rest := "````json";
    assert rest[0..7][3] != JsonFence[3];
    assert OccursAt(rest, JsonFence, 1);
    FindFirst(rest, JsonFence, 0, 1);
  }

  lemma BacktickCleaned()
    ensures Before("`", Fence) == "`" && Trim("`") == "`"
  {
  }

  /** When a fence was present, the cleaned text contains no fence. */
  lemma {:induction false} CleanedHasNoFence(raw: string)
    requires Contains(raw, Fence)
    ensures !Contains(CleanFences(raw), Fence)
  {
    if Contains(raw, JsonFence) {
      TrimKeepsAbsence(Before(Before(After(raw, JsonFence), JsonFence), Fence), Fence);
    } else {
      TrimKeepsAbsence(Before(Before(After(raw, Fence), Fence), Fence), Fence);
    }
  }

  /** Cleaning twice is cleaning once. */
  lemma {:induction false} CleaningIdempotent(raw: string)
    ensures CleanFences(CleanFences(raw)) == CleanFences(raw)
  {
    if Contains(raw, Fence) {
      CleanedHasNoFence(raw);
      UnfencedTextUnchanged(CleanFences(raw));
    } else {
      UnfencedTextUnchanged(raw);
      UnfencedTextUnchanged(raw);
    }
  }

  // ---------------------------------------------------------------------
  // Prompt

  /** The constraints joined by ", ", or "None" for an empty list. */
  function ConstraintsText(constraints: seq<string>): string {
    if |constraints| > 0 then Join(constraints, ", ") else "None"
  }

  /** An f-string renders a missing description as "None". */
  function DescriptionText(description: Maybe<string>): string {
    match description
    case Nothing => "None"
    case Just(text) => text
  }

  function OptionLine(option: Option): string {
    "- " + option.name + ": " + DescriptionText(option.description)
  }

  function OptionLines(options: seq<Option>): (lines: seq<string>)
    ensures |lines| == |options|
    ensures forall i :: 0 <= i < |options| ==> lines[i] == OptionLine(options[i])
  {
    seq(|options|, i requires 0 <= i < |options| => OptionLine(options[i]))
  }

  const LineBreak: string := "\n"
  const ContextLabel: string := "Decision Context: "
  const RiskLabel: string := "Risk Tolerance: "
  const ConstraintsLabel: string := "Constraints: "
  const OptionsHeading: string := "Options:"

  /** The prompt the handler sends to the agent: the f-string's text, with
      its line breaks written as `LineBreak`. It is exactly its lines (see
      `PromptLines`) joined by line breaks. */
  function BuildPrompt(request: DecisionRequest): (prompt: string)
    ensures prompt == Join(PromptLines(request), LineBreak)
  {
    PromptIsJoinedLines(request);
    LineBreak + ContextLabel + request.description
    + LineBreak + RiskLabel + request.riskTolerance
    + LineBreak + ConstraintsLabel + ConstraintsText(request.constraints)
    + LineBreak + LineBreak + OptionsHeading
    + LineBreak + Join(OptionLines(request.options), LineBreak) + LineBreak
  }

  predicate SingleLine(s: string) {
    '\n' !in s
  }

  /** No field of the request contains a line break. */
  predicate SingleLineFields(request: DecisionRequest) {
    && SingleLine(request.description)
    && SingleLine(request.riskTolerance)
    && (forall c :: c in request.constraints ==> SingleLine(c))
    && (forall o :: o in request.options ==> SingleLine(o.name) && SingleLine(DescriptionText(o.description)))
  }

  /** The first six lines: a blank line, the context, the risk tolerance,
      the constraints, a blank line and the "Options:" heading. */
  function HeaderLines(request: DecisionRequest): seq<string> {
    ["", ContextLabel + request.description,
     RiskLabel + request.riskTolerance,
     ConstraintsLabel + ConstraintsText(request.constraints),
     "", OptionsHeading]
  }

  /** The lines the prompt is made of: the header, one line per option in
      order (a single empty line when there are none), and a final empty
      piece after the closing line break. */
  function PromptLines(request: DecisionRequest): seq<string> {
    HeaderLines(request)
    + (if |request.options| == 0 then [""] else OptionLines(request.options))
    + [""]
  }

  /** Six lines joined, written out. */
  lemma {:induction false} HeaderLinesJoin(l1: string, l2: string, l3: string, l4: string, nl: string)
    ensures Join(["", l1, l2, l3, "", l4], nl) == nl + l1 + nl + l2 + nl + l3 + nl + nl + l4
  {
    Join6("", l1, l2, l3, "", l4, nl);
    assert "" + nl + l1 == nl + l1;
    assert nl + l1 + nl + l2 + nl + l3 + nl + "" + nl + l4 == nl + l1 + nl + l2 + nl + l3 + nl + nl + l4;
  }

  /** Regrouping the prompt's pieces: each label with its field. */
  lemma PromptRegrouped(nl: string, cl: string, d: string, rl: string, rt: string,
                        kl: string, c: string, oh: string, opts: string)
    ensures nl + (cl + d) + nl + (rl + rt) + nl + (kl + c) + nl + nl + oh + nl + opts + nl
         == nl + cl + d + nl + rl + rt + nl + kl + c + nl + nl + oh + nl + opts + nl
  {
    var p1 := nl + cl + d;
    assert nl + (cl + d) == p1;
    var p2 := p1 + nl + rl + rt;
    assert p1 + nl + (rl + rt) == p2;
    var p3 := p2 + nl + kl + c;
    assert p2 + nl + (kl + c) == p3;
  }

  /** The f-string's text is its lines joined by line breaks. */
  lemma PromptIsJoinedLines(request: DecisionRequest)
    ensures Join(PromptLines(request), LineBreak) ==
      LineBreak + ContextLabel + request.description
      + LineBreak + RiskLabel + request.riskTolerance
      + LineBreak + ConstraintsLabel + ConstraintsText(request.constraints)
      + LineBreak + LineBreak + OptionsHeading
      + LineBreak + Join(OptionLines(request.options), LineBreak) + LineBreak
  {
    var header := HeaderLines(request);
    var body := if |request.options| == 0 then [""] else OptionLines(request.options);
    var options := Join(OptionLines(request.options), LineBreak);
    var c := ConstraintsText(request.constraints);
    var l1 := ContextLabel + request.description;
    var l2 := RiskLabel + request.riskTolerance;
    var l3 := ConstraintsLabel + c;
    HeaderLinesJoin(l1, l2, l3, OptionsHeading, LineBreak);
    var h := LineBreak + l1 + LineBreak + l2 + LineBreak + l3 + LineBreak + LineBreak + OptionsHeading;
    assert header == ["", l1, l2, l3, "", OptionsHeading];
    assert Join(body, LineBreak) == options;
    assert PromptLines(request) == header + body + [""];
    JoinAppend(header, body, LineBreak);
    JoinAppend(header + body, [""], LineBreak);
    assert Join(PromptLines(request), LineBreak) == h + LineBreak + options + LineBreak + "";
    assert h + LineBreak + options + LineBreak + "" == h + LineBreak + options + LineBreak;
    PromptRegrouped(LineBreak, ContextLabel, request.description, RiskLabel, request.riskTolerance,
                    ConstraintsLabel, c, OptionsHeading, options);
  }

  /** When no field contains a line break, splitting the prompt on line
      breaks recovers its lines: in particular one `- name: description`
      line per option, in the order of the request. */
  lemma PromptLayout(request: DecisionRequest)
    requires SingleLineFields(request)
    ensures Split(BuildPrompt(request), LineBreak) == PromptLines(request)
  {
    var lines := PromptLines(request);
    LinesAvoidBreak(request);
    assert LineBreak == ['\n'];
    SplitJoin(lines, '\n');
  }

  lemma LabelsAvoidBreak()
    ensures '\n' !in ContextLabel && '\n' !in RiskLabel
    ensures '\n' !in ConstraintsLabel && '\n' !in OptionsHeading
    ensures '\n' !in ", " && '\n' !in "None" && '\n' !in "- " && '\n' !in ": "
  {
  }

  lemma LinesAvoidBreak(request: DecisionRequest)
    requires SingleLineFields(request)
    ensures forall x :: x in PromptLines(request) ==> '\n' !in x
  {
    LabelsAvoidBreak();
    JoinAvoids(request.constraints, ", ", '\n');
    assert '\n' !in ConstraintsText(request.constraints);
    var header := HeaderLines(request);
    var options := OptionLines(request.options);
    forall x | x in options ensures '\n' !in x {
      var i :| 0 <= i < |request.options| && x == OptionLine(request.options[i]);
      assert request.options[i] in request.options;
    }
    assert PromptLines(request) == header + (if |request.options| == 0 then [""] else options) + [""];
  }

  // ---------------------------------------------------------------------
  // The handler

  /** `analyze_decision`. The agent and the JSON-and-schema parse are given as
      functions; any exception on the way (the agent raising, the parse
      failing) leads to the fallback engine run on the request's own fields.
      An error of the fallback engine itself is the handler's error. */
  method AnalyzeDecision(request: DecisionRequest, agent: string -> AgentOutcome,
                         parse: string -> Maybe<DecisionAnalysis>)
    returns (response: Result<DecisionAnalysis, EngineError>)
    ensures var outcome := agent(BuildPrompt(request));
      if outcome.Answered? && parse(CleanFences(outcome.data)).Just?
      then response == Success(parse(CleanFences(outcome.data)).value)
      else response == FallbackDecision(request.description, request.options,
                                        request.constraints, request.riskTolerance)
  {
    var prompt := BuildPrompt(request);
    var outcome := agent(prompt);
    match outcome {
      case Raised =>
        response := FallbackDecisionEngine(request.description, request.options,
                                           request.constraints, request.riskTolerance);
      case Answered(rawResponse) =>
        SplitChains(rawResponse);
        var cleanJson := rawResponse;
        if Contains(cleanJson, JsonFence) {
          cleanJson := Trim(Split(Split(cleanJson, JsonFence)[1], Fence)[0]);
        } else if Contains(cleanJson, Fence) {
          cleanJson := Trim(Split(Split(cleanJson, Fence)[1], Fence)[0]);
        }
        match parse(cleanJson) {
          case Nothing =>
            response := FallbackDecisionEngine(request.description, request.options,
                                               request.constraints, request.riskTolerance);
          case Just(analysis) =>
            response := Success(analysis);
        }
    }
  }
}

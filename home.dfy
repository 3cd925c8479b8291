/** The page (src/app/page.tsx): it shows the form while there is no
    analysis, sends a submission to the service, and shows either the report
    or an error message. The network call is a parameter: its outcome is
    given to the handler. */
module Home {
  import opened Types
  import opened Form

  /** How the request to the analysis endpoint ends: a response with status
      2xx and its decoded body, a response with another status, or an
      exception (network failure, undecodable body). */
  datatype FetchOutcome = Ok(payload: DecisionAnalysis) | NotOk(status: int) | Threw

  const FailureMessage: string :=
    "Failed to analyze decision. Please ensure the backend is running and try again."

  class Home {
    var analysis: Maybe<DecisionAnalysis>
    var isLoading: bool
    var error: Maybe<string>
    /** The requests sent to the service so far, in order. */
    ghost var requests: seq<DecisionRequest>

    /** While a request is in flight there is no error, and the only error
        ever shown is the fixed message. */
    ghost predicate Valid()
      reads this
    {
      && (isLoading ==> error == Nothing)
      && (error.Just? ==> error.value == FailureMessage)
    }

    constructor ()
      ensures Valid()
      ensures analysis == Nothing && !isLoading && error == Nothing
      ensures requests == []
    {
      analysis := Nothing;
      isLoading := false;
      error := Nothing;
      requests := [];
    }

    /** The form is rendered iff there is no analysis. */
    predicate FormShown()
      reads this
    {
      analysis == Nothing
    }

    /** The submit button is enabled iff not loading. */
    predicate SubmitEnabled()
      reads this
    {
      !isLoading
    }

    /** The start of `handleAnalyze`, up to the suspended `fetch`: loading on,
        previous error cleared, one request issued. */
    method BeginAnalyze(data: DecisionRequest)
      requires Valid()
      modifies this
      ensures Valid()
      ensures isLoading && error == Nothing
      ensures analysis == old(analysis)
      ensures requests == old(requests) + [data]
    {
      isLoading := true;
      error := Nothing;
      requests := requests + [data];
    }

    /** The rest of `handleAnalyze`: a non-ok status is thrown and caught like
        any other exception, and the `finally` clause turns loading off. */
    method Settle(outcome: FetchOutcome)
      requires Valid() && isLoading && error == Nothing
      modifies this
      ensures Valid()
      ensures !isLoading
      ensures outcome.Ok? ==> analysis == Just(outcome.payload) && error == Nothing
      ensures !outcome.Ok? ==> analysis == old(analysis) && error == Just(FailureMessage)
      ensures requests == old(requests)
    {
      var failed := false;
      match outcome {
        case Ok(payload) =>
          analysis := Just(payload);
        case NotOk(status) =>
          failed := true;
        case Threw =>
          failed := true;
      }
      if failed {
        error := Just(FailureMessage);
      }
      isLoading := false;
    }

    /** `handleAnalyze`: exactly one request, and one of two end states. */
    method HandleAnalyze(data: DecisionRequest, outcome: FetchOutcome)
      requires Valid()
      modifies this
      ensures Valid()
      ensures !isLoading
      ensures requests == old(requests) + [data]
      ensures outcome.Ok? ==> analysis == Just(outcome.payload) && error == Nothing
      ensures !outcome.Ok? ==> analysis == old(analysis) && error == Just(FailureMessage)
      ensures (analysis.Just? && error == Nothing) || error == Just(FailureMessage)
    {
      BeginAnalyze(data);
      Settle(outcome);
    }

    /** `handleReset`: back to the form; loading is left as it is. */
    method HandleReset()
      requires Valid()
      modifies this
      ensures Valid()
      ensures analysis == Nothing && error == Nothing
      ensures isLoading == old(isLoading)
      ensures requests == old(requests)
    {
      analysis := Nothing;
      error := Nothing;
    }

    /** A click on the form's submit button: the form must be on screen and
        the button enabled, the browser's `required` check must pass, and the
        form's own guard must pass. Only then is a request sent. */
    method SubmitForm(form: DecisionForm, outcome: FetchOutcome) returns (sent: bool)
      requires Valid()
      modifies this
      ensures Valid()
      ensures sent <==> old(FormShown()) && old(SubmitEnabled()) && form.RequiredFilled()
                        && form.Submission().Just?
      ensures sent ==> requests == old(requests) + [form.Submission().value] && !isLoading
      ensures sent && outcome.Ok? ==> analysis == Just(outcome.payload) && error == Nothing
      ensures sent && !outcome.Ok? ==> analysis == old(analysis) && error == Just(FailureMessage)
      ensures !sent ==> analysis == old(analysis) && isLoading == old(isLoading)
                        && error == old(error) && requests == old(requests)
    {
      sent := false;
      if FormShown() && SubmitEnabled() && form.RequiredFilled() {
        var submission := form.Submission();
        if submission.Just? {
          HandleAnalyze(submission.value, outcome);
          sent := true;
        }
      }
    }
  }
}

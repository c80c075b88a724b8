/**
 * The submit state machine shared by the solver page (app/solver/page.tsx)
 * and the home page (app/page.tsx): four state slots, `result`, `error`,
 * `isLoading` and `currentFormula`, updated in a fixed order around one
 * call of the solver client.
 */
module SolverPage {
  import opened Js
  import opened MarinaClient
  import opened ResultDisplay

  /** What `await solveSAT(formula)` does: resolve with a response, or throw. */
  datatype SubmitOutcome = Resolved(response: SolveResponse) | Threw(thrown: Thrown)

  /** The `result` and `error` slots. */
  datatype Slots = Slots(result: Option<string>, error: Option<string>)

  const UnknownError: string := "Unknown error"

  /**
   * The slots once `handleSubmit` has finished, starting from the cleared
   * slots: a truthy `apiError` wins, then a truthy `assignment`; a thrown
   * value records its message or "Unknown error".
   */
  function Settle(outcome: SubmitOutcome): (s: Slots)
    ensures !(s.result.Some? && s.error.Some?)
    ensures s.result.Some? ==> outcome.Resolved? && Truthy(s.result) && s.result == outcome.response.assignment
    ensures s.error.Some? <==> outcome.Threw? || Truthy(outcome.response.error)
    ensures outcome.Threw? ==> s.error == Some(MessageOr(outcome.thrown, UnknownError))
    ensures outcome.Resolved? && Truthy(outcome.response.error) ==> s.error == outcome.response.error
    ensures outcome.Resolved? && !Truthy(outcome.response.error) ==>
      s.result == (if Truthy(outcome.response.assignment) then outcome.response.assignment else None)
  {
    match outcome
    case Threw(t) => Slots(None, Some(MessageOr(t, UnknownError)))
    case Resolved(r) =>
      if Truthy(r.error) then Slots(None, r.error)
      else if Truthy(r.assignment) then Slots(r.assignment, None)
      else Slots(None, None)
  }

  /**
   * What the result panel shows after a resolved submit: the error panel
   * for an error, the verdict and chips for an assignment, nothing when
   * the response carried neither.
   */
  lemma SettledView(r: SolveResponse)
    ensures var s := Settle(Resolved(r));
      (Truthy(r.error) ==> Render(s.result, s.error) == ErrorPanel(r.error.value))
      && (!Truthy(r.error) && Truthy(r.assignment) ==>
            Render(s.result, s.error).ResultPanel?
            && Render(s.result, s.error).satisfiable == IsSatisfiable(r.assignment))
      && (!Truthy(r.error) && !Truthy(r.assignment) ==> Render(s.result, s.error) == Hidden)
  {
    var s := Settle(Resolved(r));
    if Truthy(r.error) {
      ErrorWins(s.result, r.error.value);
    }
  }

  /** A non-2xx answer from the solver always ends on the error panel with its status text. */
  lemma HttpFailureShown(status: nat, body: BodyOutcome)
    requires !Ok(status)
    ensures var s := Settle(Resolved(Fold(Received(status, body))));
      s == Slots(None, Some(HttpErrorText(status)))
      && Render(s.result, s.error) == ErrorPanel(HttpErrorText(status))
  {
    assert HttpErrorText(status) != "" by {
      assert |HttpErrorText(status)| >= |HttpErrorPrefix|;
    }
    ErrorWins(None, HttpErrorText(status));
  }

  /**
   * Through the solver client, a result is shown only for a 2xx JSON
   * answer whose `assignment` is that string and whose `error` is falsy;
   * every failed exchange leaves the result slot empty.
   */
  lemma ResultOnlyFromSuccess(o: FetchOutcome)
    ensures var s := Settle(Resolved(Fold(o)));
      (!Succeeded(o) ==> s.result == None)
      && (s.result.Some? ==>
            Succeeded(o) && Field(o.body.obj, "assignment") == Some(JString(s.result.value))
            && !Truthy(StringField(o.body.obj, "error")))
  {
    if Settle(Resolved(Fold(o))).result.Some? {
      AssignmentOnlyFromSuccess(o);
    }
  }

  /** The four state slots of the page. */
  class Session {
    var result: Option<string>
    var error: Option<string>
    var isLoading: bool
    var currentFormula: string

    /** At rest, at most one of `result` and `error` is set. */
    predicate Valid()
      reads this
    {
      !(result.Some? && error.Some?)
    }

    /** `useState(null)`, `useState(null)`, `useState(false)`, `useState('')` */
    constructor ()
      ensures Valid()
      ensures result == None && error == None && !isLoading && currentFormula == ""
    {
      result, error, isLoading, currentFormula := None, None, false, "";
    }

    /** The four setters before the `try`: loading on, slots cleared, formula recorded. */
    method BeginSubmit(formula: string)
      modifies this
      ensures Valid()
      ensures isLoading && result == None && error == None && currentFormula == formula
    {
      isLoading := true;
      error := None;
      result := None;
      currentFormula := formula;
    }

    /** The `try`/`catch`/`finally` after the call: the slots are settled and loading is off. */
    method Complete(outcome: SubmitOutcome)
      requires result == None && error == None
      modifies this
      ensures Valid()
      ensures Slots(result, error) == Settle(outcome)
      ensures !isLoading && currentFormula == old(currentFormula)
    {
      match outcome {
        case Threw(t) =>
          error := Some(MessageOr(t, UnknownError));
        case Resolved(r) =>
          if Truthy(r.error) {
            error := r.error;
          } else if Truthy(r.assignment) {
            result := r.assignment;
          }
      }
      isLoading := false;
    }

    /** One sequential `handleSubmit(formula)` whose awaited call ends with `outcome`. */
    method HandleSubmit(formula: string, outcome: SubmitOutcome)
      modifies this
      ensures Valid()
      ensures Slots(result, error) == Settle(outcome)
      ensures !isLoading && currentFormula == formula
    {
      BeginSubmit(formula);
      Complete(outcome);
    }

    /** `handleSubmit(formula)` calling the solver client over `transport`. */
    method Solve(formula: string, env: Option<string>, transport: HttpRequest -> FetchOutcome)
      modifies this
      ensures Valid()
      ensures Slots(result, error) == Settle(Resolved(SolveSAT(formula, env, transport)))
      ensures !isLoading && currentFormula == formula
    {
      var response := SolveSAT(formula, env, transport);
      HandleSubmit(formula, Resolved(response));
    }
  }
}

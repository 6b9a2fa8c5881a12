/** Properties that tie the admission check, the activities and the
    orchestrator together: what an accepted request leads to. */
module Workflow {
  import opened Values
  import opened Activities
  import opened Orchestration
  import Admission

  /** The admission check and the validator overlap: a request that
      `start_workflow` accepts can fail validation only because Details is
      missing or falsy. */
  lemma AcceptedFailsOnlyOnDetails(d: Request)
    requires Admission.StartWorkflow(Some(d)).Accept?
    ensures ValidateOrder(d).Validated? <==> Present(d, "Details")
    ensures ValidateOrder(d).Invalid? ==> ValidateOrder(d).error == DetailsEmpty
  {
  }

  /** The whole run of an instance: validation first, approval second with
      the same input, and the output built from both; a failed validation
      ends the run before approval is scheduled. */
  lemma OrchestrationOutcome(input: Request)
    ensures var (h, a) := Orchestrate(input);
      match ValidateOrder(input)
      case Validated(v) =>
        && h == [Completed("Validated"), Completed(ApproveOrder(input))]
        && a == Complete(Output(Get(input, "OrderID"), "Validated", ApproveOrder(input)))
      case Invalid(e) =>
        && h == [Failed(Message(e))]
        && a == FailWith(ValidateOrderActivity, Message(e))
  {
    if ValidateOrder(input).Validated? {
      RunValidated(input);
    } else {
      RunInvalid(input);
    }
  }

  /** Replay reproduces the run: resuming from any recorded prefix schedules
      exactly the activity whose result is recorded next, with the same input,
      and the full history yields the recorded final action. */
  lemma ReplayReproducesDecisions(input: Request)
    ensures var (h, a) := Orchestrate(input);
      && (forall k :: 0 <= k < |h| ==>
            Step(input, h[..k]) == Schedule(ActivityAt(k), input) && h[k] == Execute(ActivityAt(k), input))
      && Step(input, h) == a
  {
  }

  /** An accepted request starts an instance that completes exactly when
      Details is present; otherwise it fails in validation with
      "Details field must not be empty", before any approval. */
  lemma {:induction false} AcceptedRequestOutcome(d: Request)
    requires Admission.StartWorkflow(Some(d)).Accept?
    ensures var input := Admission.StartWorkflow(Some(d)).call.input;
      input == d &&
      if Present(d, "Details") then
        Orchestrate(input).1 == Complete(Output(d["OrderID"], "Validated", ApproveOrder(d)))
      else
        Orchestrate(input) == ([Failed("Details field must not be empty")],
                               FailWith(ValidateOrderActivity, "Details field must not be empty"))
  {
    Admission.AcceptedEchoes(d);
    AcceptedFailsOnlyOnDetails(d);
    OrchestrationOutcome(d);
  }
}

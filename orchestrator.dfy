/** `orchestrator` as a replay step function. Under replay the generator runs
    from the start each time; every `yield context.call_activity(...)` either
    takes the result recorded for it or, when there is none yet, becomes the
    next scheduling decision. `Step` is that decision as a function of the
    results recorded so far. */
module Orchestration {
  import opened Values
  import Activities

  /** The activities the orchestrator calls. */
  datatype Activity = ValidateOrderActivity | ApproveOrderActivity

  /** The name each activity is registered under, and the name the
      orchestrator calls it by. */
  function ActivityName(a: Activity): string
  {
    match a
    case ValidateOrderActivity => "ValidateOrderActivity"
    case ApproveOrderActivity => "ApproveOrderActivity"
  }

  /** The function registry: the activity registered under `name`, if any. */
  function Registered(name: string): Option<Activity>
  {
    if name == "ValidateOrderActivity" then Some(ValidateOrderActivity)
    else if name == "ApproveOrderActivity" then Some(ApproveOrderActivity)
    else None
  }

  /** Every name the orchestrator calls resolves to the activity it means,
      and only those two names are registered. */
  lemma {:induction false} RegistryResolvesCalls(a: Activity, name: string)
    ensures Registered(ActivityName(a)) == Some(a)
    ensures Registered(name).Some? ==> ActivityName(Registered(name).value) == name
  {
    match a
    case ValidateOrderActivity =>
    case ApproveOrderActivity =>
  }

  /** A recorded activity outcome: its return value, or the message of the
      exception it raised. */
  datatype ActivityResult = Completed(value: string) | Failed(reason: string)

  /** The orchestrator's return value. */
  datatype Output = Output(orderId: Value, validationResult: string, approvalResult: string)

  /** What a replay pass decides. */
  datatype Action =
    | Schedule(activity: Activity, input: Request)
    | Complete(output: Output)
    | FailWith(activity: Activity, reason: string)   // an activity's exception left the orchestrator

  /** The activity the orchestrator awaits at its `k`-th `yield`. */
  function ActivityAt(k: nat): Activity
    requires k < 2
  {
    if k == 0 then ValidateOrderActivity else ApproveOrderActivity
  }

  /** One replay pass over the results recorded so far. */
  function Step(input: Request, history: seq<ActivityResult>): (a: Action)
    ensures a.Schedule? ==> |history| < 2 && a.activity == ActivityAt(|history|) && a.input == input
    ensures a.Schedule? <==> |history| < 2 && forall k :: 0 <= k < |history| ==> history[k].Completed?
    ensures a.FailWith? ==> exists k :: 0 <= k < |history| && k < 2 && history[k] == Failed(a.reason)
                                        && a.activity == ActivityAt(k)
  {
    if |history| == 0 then Schedule(ValidateOrderActivity, input)
    else if history[0].Failed? then FailWith(ValidateOrderActivity, history[0].reason)
    else if |history| == 1 then Schedule(ApproveOrderActivity, input)
    else if history[1].Failed? then FailWith(ApproveOrderActivity, history[1].reason)
    else Complete(Output(Get(input, "OrderID"), history[0].value, history[1].value))
  }

  /** What the orchestrator returns once both activities completed. */
  lemma CompletesWithBothResults(input: Request, v: string, w: string)
    ensures Step(input, [Completed(v), Completed(w)]) == Complete(Output(Get(input, "OrderID"), v, w))
  {
  }

  /** A failed validation is final: approval is never scheduled, whatever
      else is recorded after it. */
  lemma {:induction false} ValidationFailureIsFinal(input: Request, history: seq<ActivityResult>)
    requires |history| > 0 && history[0].Failed?
    ensures Step(input, history) == FailWith(ValidateOrderActivity, history[0].reason)
  {
  }

  /** Only the first two recorded results are ever read. */
  lemma StepReadsTwoResults(input: Request, history: seq<ActivityResult>, later: seq<ActivityResult>)
    requires |history| >= 2
    ensures Step(input, history + later) == Step(input, history)
  {
  }

  /** The activity functions of this app, as the engine runs them. */
  function Execute(a: Activity, input: Request): (r: ActivityResult)
    ensures r.Failed? <==> a == ValidateOrderActivity && exists e :: !Activities.Passes(input, e)
    ensures r.Failed? ==> exists e :: r.reason == Activities.Message(e) && !Activities.Passes(input, e)
    ensures a == ValidateOrderActivity && r.Completed? ==> r.value == "Validated"
    ensures a == ApproveOrderActivity ==>
      r.Completed? && r.value in {"Auto-Approved", "Manager Approval (Auto-Approved for demo)", "Executive Approval Required"}
  {
    match a
    case ValidateOrderActivity =>
      (match Activities.ValidateOrder(input)
       case Validated(v) => Completed(v)
       case Invalid(e) => Failed(Activities.Message(e)))
    case ApproveOrderActivity => Completed(Activities.ApproveOrder(input))
  }

  /** The engine's loop: replay, run what was scheduled, record its result,
      replay again, until the orchestration completes or fails. Returns the
      recorded history and the final action. */
  function Run(input: Request, history: seq<ActivityResult>): (r: (seq<ActivityResult>, Action))
    requires |history| <= 2
    ensures !r.1.Schedule? && r.1 == Step(input, r.0)
    ensures |history| <= |r.0| <= 2 && r.0[..|history|] == history
    decreases 2 - |history|
  {
    match Step(input, history)
    case Schedule(a, arg) => Run(input, history + [Dispatch(a, arg)])
    case other => (history, other)
  }

  /** The engine runs a scheduled activity by looking its name up in the
      registry, which yields the activity that was scheduled. */
  function Dispatch(a: Activity, arg: Request): (r: ActivityResult)
    ensures r == Execute(a, arg)
  {
    RegistryResolvesCalls(a, ActivityName(a));
    Execute(Registered(ActivityName(a)).value, arg)
  }

  /** The run of an instance whose input passes validation. */
  lemma RunValidated(input: Request)
    requires Activities.ValidateOrder(input).Validated?
    ensures Run(input, []) == ([Completed("Validated"), Completed(Activities.ApproveOrder(input))],
                               Complete(Output(Get(input, "OrderID"), "Validated", Activities.ApproveOrder(input))))
  {
    var v := Execute(ValidateOrderActivity, input);
    assert v == Completed("Validated");
    assert Step(input, []) == Schedule(ValidateOrderActivity, input);
    assert [] + [v] == [v];
    assert Run(input, []) == Run(input, [v]);
    var w := Execute(ApproveOrderActivity, input);
    assert w == Completed(Activities.ApproveOrder(input));
    assert Step(input, [v]) == Schedule(ApproveOrderActivity, input);
    assert [v] + [w] == [v, w];
    assert Run(input, [v]) == Run(input, [v, w]);
  }

  /** The run of an instance whose input fails validation with `e`. */
  lemma RunInvalid(input: Request)
    requires Activities.ValidateOrder(input).Invalid?
    ensures var e := Activities.ValidateOrder(input).error;
      Run(input, []) == ([Failed(Activities.Message(e))], FailWith(ValidateOrderActivity, Activities.Message(e)))
  {
    var v := Execute(ValidateOrderActivity, input);
    assert v == Failed(Activities.Message(Activities.ValidateOrder(input).error));
    assert Step(input, []) == Schedule(ValidateOrderActivity, input);
    assert [] + [v] == [v];
    assert Run(input, []) == Run(input, [v]);
  }

  /** A whole instance, from an empty history. */
  function Orchestrate(input: Request): (r: (seq<ActivityResult>, Action))
    ensures r.1.Complete? <==> Activities.ValidateOrder(input).Validated?
    ensures r.1.FailWith? <==> Activities.ValidateOrder(input).Invalid?
    ensures r.1.FailWith? ==> r.1.activity == ValidateOrderActivity && |r.0| == 1
    ensures r.1.Complete? ==> r.1.output.approvalResult == Activities.ApproveOrder(input) && |r.0| == 2
  {
    if Activities.ValidateOrder(input).Validated? then
      RunValidated(input);
      Run(input, [])
    else
      RunInvalid(input);
      Run(input, [])
  }
}

/** The admission decision of the `start-po-workflow` HTTP endpoint
    (`start_workflow`): which request bodies are refused with 400, and what an
    accepted one starts and answers with 202. */
module Admission {
  import opened Values
  import Text
  import Activities

  /** The fields a start request must carry, in the order they are reported. */
  const RequiredFields: seq<string> := ["DurableInstanceId", "OrderID", "Status"]

  const MissingPrefix: string := "Missing required fields: "
  /** The validator's own Draft message with " to start workflow" appended. */
  const NotDraftError: string := Activities.Message(Activities.NotDraft) + " to start workflow"
  const Orchestrator: string := "PurchaseOrderOrchestrator"
  const StartedMessage: string := "Started Purchase Order approval workflow"
  const StartedStatus: string := "Workflow Started"

  /** The `client.start_new` call an accepted request makes. */
  datatype StartCall = StartCall(orchestrator: string, instanceId: Value, input: Request)

  /** The JSON object of the 202 answer. */
  datatype StartedBody = StartedBody(message: string, instanceId: Value, orderId: Value, status: string)

  datatype StartOutcome =
    | Reject(error: string)                        // 400 {"error": ...}
    | Accept(call: StartCall, body: StartedBody)   // 202
    | ServerError                                  // 500: the body was not a JSON object

  function HttpStatus(o: StartOutcome): int
  {
    match o
    case Reject(_) => 400
    case Accept(_, _) => 202
    case ServerError => 500
  }

  /** `[f for f in fields if not d.get(f)]`. */
  function MissingFields(d: Request, fields: seq<string>): (r: seq<string>)
    ensures forall f :: f in r <==> f in fields && !Present(d, f)
    ensures |r| <= |fields|
    decreases |fields|
  {
    if |fields| == 0 then []
    else
      var rest := MissingFields(d, fields[1..]);
      if !Present(d, fields[0]) then [fields[0]] + rest else rest
  }

  /** Filtering a list is filtering its parts: the comprehension keeps the
      order of `fields` and keeps each occurrence once. */
  lemma {:induction false} MissingFieldsAppend(d: Request, a: seq<string>, b: seq<string>)
    ensures MissingFields(d, a + b) == MissingFields(d, a) + MissingFields(d, b)
    decreases |a|
  {
    if |a| == 0 {
      assert a + b == b;
    } else {
      assert (a + b)[0] == a[0];
      assert (a + b)[1..] == a[1..] + b;
      MissingFieldsAppend(d, a[1..], b);
    }
  }

  /** One field is reported exactly when it is absent or falsy. */
  lemma MissingFieldsSingle(d: Request, f: string)
    ensures MissingFields(d, [f]) == (if Present(d, f) then [] else [f])
  {
    assert [f][1..] == [];
  }

  function MissingMessage(missing: seq<string>): string
  {
    MissingPrefix + Text.Join(missing, ", ")
  }

  /** `start_workflow` on a request body; `None` stands for a body that
      `get_json()` cannot turn into a JSON object. */
  function StartWorkflow(body: Option<Request>): (o: StartOutcome)
    ensures o.ServerError? <==> body.None?
    ensures o.Reject? ==>
      o.error == MissingMessage(MissingRequired(body.value)) || o.error == NotDraftError
    ensures o.Accept? ==>
      && Present(body.value, "DurableInstanceId") && Present(body.value, "OrderID")
      && Get(body.value, "Status") == Str("Draft")
      && o.call.input == body.value
      && o.call.instanceId == o.body.instanceId == Get(body.value, "DurableInstanceId")
      && o.body.orderId == Get(body.value, "OrderID")
  {
    match body
    case None => ServerError
    case Some(d) =>
      var missing := MissingRequired(d);
      if |missing| > 0 then Reject(MissingMessage(missing))
      else if Get(d, "Status") != Str("Draft") then Reject(NotDraftError)
      else
        var id := d["DurableInstanceId"];
        Accept(StartCall(Orchestrator, id, d), StartedBody(StartedMessage, id, d["OrderID"], StartedStatus))
  }

  /** The missing fields of the required three, in the order they are listed. */
  function MissingRequired(d: Request): (r: seq<string>)
    ensures r == (if Present(d, "DurableInstanceId") then [] else ["DurableInstanceId"])
               + (if Present(d, "OrderID") then [] else ["OrderID"])
               + (if Present(d, "Status") then [] else ["Status"])
    ensures |r| == 0 <==> forall f :: f in RequiredFields ==> Present(d, f)
  {
    var r := MissingFields(d, RequiredFields);
    assert RequiredFields[1..] == ["OrderID", "Status"];
    assert RequiredFields[1..][1..] == ["Status"];
    r
  }

  /** Splitting the tail of a missing-fields message gives the missing list back. */
  function ReportedFields(error: string): seq<string>
  {
    if |error| >= |MissingPrefix| && error[..|MissingPrefix|] == MissingPrefix
    then Text.SplitList(error[|MissingPrefix|..])
    else []
  }

  lemma ReportedFieldsOfMessage(m: seq<string>)
    requires |m| >= 1 && Text.NoComma(m)
    ensures ReportedFields(MissingMessage(m)) == m
  {
    var msg := MissingMessage(m);
    assert msg[..|MissingPrefix|] == MissingPrefix;
    assert msg[|MissingPrefix|..] == Text.Join(m, ", ");
    Text.SplitJoin(m);
  }

  lemma RequiredNamesNoComma(d: Request)
    ensures Text.NoComma(MissingRequired(d))
  {
  }

  lemma DraftErrorNotReported()
    ensures ReportedFields(NotDraftError) == []
  {
    assert NotDraftError[..|MissingPrefix|][0] == 'O' && MissingPrefix[0] == 'M';
  }

  /** A request is refused for missing fields exactly when some required field
      is absent or falsy, and the message names exactly those fields, in
      order. */
  lemma {:induction false} MissingFieldsRejected(d: Request)
    ensures var o := StartWorkflow(Some(d));
      (o.Reject? && ReportedFields(o.error) != []) <==> MissingRequired(d) != []
    ensures var o := StartWorkflow(Some(d));
      MissingRequired(d) != [] ==>
        o == Reject(MissingMessage(MissingRequired(d))) && ReportedFields(o.error) == MissingRequired(d)
  {
    var m := MissingRequired(d);
    var o := StartWorkflow(Some(d));
    if m != [] {
      assert o == Reject(MissingMessage(m));
      RequiredNamesNoComma(d);
      ReportedFieldsOfMessage(m);
    } else {
      assert o.Reject? ==> o.error == NotDraftError;
      DraftErrorNotReported();
    }
  }

  /** The missing-field check comes first; with all three fields present the
      request is refused exactly when Status is not the string "Draft", and
      accepted otherwise. */
  lemma StatusDecides(d: Request)
    requires Present(d, "DurableInstanceId") && Present(d, "OrderID") && Present(d, "Status")
    ensures StartWorkflow(Some(d)) == Reject(NotDraftError) <==> Get(d, "Status") != Str("Draft")
    ensures StartWorkflow(Some(d)).Accept? <==> Get(d, "Status") == Str("Draft")
  {
  }

  /** What an accepted request starts and answers: an instance of the
      orchestrator under the requested id whose input is the whole request,
      and a body echoing that id and the OrderID. */
  lemma AcceptedEchoes(d: Request)
    requires StartWorkflow(Some(d)).Accept?
    ensures var o := StartWorkflow(Some(d));
      && o.call == StartCall(Orchestrator, d["DurableInstanceId"], d)
      && o.body == StartedBody(StartedMessage, d["DurableInstanceId"], d["OrderID"], StartedStatus)
      && HttpStatus(o) == 202
    ensures Present(d, "DurableInstanceId") && Present(d, "OrderID") && Get(d, "Status") == Str("Draft")
  {
  }

  /** A body that is not a JSON object is answered with 500 and starts nothing. */
  lemma UnreadableBody()
    ensures HttpStatus(StartWorkflow(None)) == 500
  {
  }
}

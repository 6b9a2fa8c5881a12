/** The request bodies the repository's test client sends, and what the model
    says happens to each. */
module Scenarios {
  import opened Values
  import opened Activities
  import opened Orchestration
  import opened Admission
  import Workflow

  function DraftOrder(id: string, order: string, details: string, amount: real): Request
  {
    map["DurableInstanceId" := Str(id), "OrderID" := Str(order), "Details" := Str(details),
        "Status" := Str("Draft"), "Amount" := Num(amount)]
  }

  /** A Draft order with every field filled in is accepted and runs to
      completion with the tier its amount calls for. */
  lemma {:induction false} CompleteDraftOrderRuns(id: string, order: string, details: string, amount: real)
    requires id != "" && order != "" && details != ""
    ensures StartWorkflow(Some(DraftOrder(id, order, details, amount))).Accept?
    ensures Orchestrate(DraftOrder(id, order, details, amount)).1
      == Complete(Output(Str(order), "Validated", Label(TierFor(amount))))
  {
    var d := DraftOrder(id, order, details, amount);
    assert Present(d, "DurableInstanceId") && Present(d, "OrderID") && Present(d, "Status");
    StatusDecides(d);
    assert Present(d, "Details");
    Workflow.AcceptedRequestOutcome(d);
    assert AmountOf(d) == amount;
  }

  /** The three complete Draft orders of the test client (amounts 500, 5000
      and 25000) get the three tiers. */
  lemma {:induction false} ValidDraftOrders()
    ensures Orchestrate(DraftOrder("TEST001", "ORD001", "Office supplies - pens, paper, notebooks", 500.0)).1
      == Complete(Output(Str("ORD001"), "Validated", "Auto-Approved"))
    ensures Orchestrate(DraftOrder("TEST002", "ORD002", "Computer equipment - laptop, monitor, keyboard", 5000.0)).1
      == Complete(Output(Str("ORD002"), "Validated", "Manager Approval (Auto-Approved for demo)"))
    ensures Orchestrate(DraftOrder("TEST003", "ORD003", "Server infrastructure upgrade", 25000.0)).1
      == Complete(Output(Str("ORD003"), "Validated", "Executive Approval Required"))
  {
    CompleteDraftOrderRuns("TEST001", "ORD001", "Office supplies - pens, paper, notebooks", 500.0);
    CompleteDraftOrderRuns("TEST002", "ORD002", "Computer equipment - laptop, monitor, keyboard", 5000.0);
    CompleteDraftOrderRuns("TEST003", "ORD003", "Server infrastructure upgrade", 25000.0);
  }

  /** An order without Details passes admission but its orchestration fails in
      validation, and approval never runs. */
  lemma {:induction false} MissingDetailsScenario()
    ensures var d := map["DurableInstanceId" := Str("TEST004"), "OrderID" := Str("ORD004"),
                         "Status" := Str("Draft"), "Amount" := Num(1000.0)];
      StartWorkflow(Some(d)).Accept?
      && Orchestrate(d) == ([Failed("Details field must not be empty")],
                            FailWith(ValidateOrderActivity, "Details field must not be empty"))
  {
    var d := map["DurableInstanceId" := Str("TEST004"), "OrderID" := Str("ORD004"),
                 "Status" := Str("Draft"), "Amount" := Num(1000.0)];
    assert MissingRequired(d) == [];
    Workflow.AcceptedRequestOutcome(d);
  }

  /** A non-Draft order is refused at admission. */
  lemma {:induction false} NonDraftScenario()
    ensures var d := map["DurableInstanceId" := Str("TEST005"), "OrderID" := Str("ORD005"),
                         "Details" := Str("Marketing materials"), "Status" := Str("Approved"),
                         "Amount" := Num(800.0)];
      StartWorkflow(Some(d)) == Reject(NotDraftError)
  {
    var d := map["DurableInstanceId" := Str("TEST005"), "OrderID" := Str("ORD005"),
                 "Details" := Str("Marketing materials"), "Status" := Str("Approved"),
                 "Amount" := Num(800.0)];
    assert MissingRequired(d) == [];
    StatusDecides(d);
  }

  /** A request without OrderID is refused naming just that field. */
  lemma {:induction false} MissingOrderIdScenario()
    ensures var d := map["DurableInstanceId" := Str("TEST006"), "Details" := Str("Test order without OrderID"),
                         "Status" := Str("Draft"), "Amount" := Num(300.0)];
      StartWorkflow(Some(d)) == Reject("Missing required fields: OrderID")
  {
    var d := map["DurableInstanceId" := Str("TEST006"), "Details" := Str("Test order without OrderID"),
                 "Status" := Str("Draft"), "Amount" := Num(300.0)];
    assert !Present(d, "OrderID") && Present(d, "DurableInstanceId") && Present(d, "Status");
    var m := MissingRequired(d);
    assert m == ["OrderID"];
    assert MissingMessage(m) == "Missing required fields: OrderID";
  }
}

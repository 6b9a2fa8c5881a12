# Purchase-order durable function: a Dafny model of its decision logic

The repository is an Azure Durable Functions app for purchase orders. A client
POSTs an order to `start-po-workflow`. `start_workflow` either refuses the order
with a 400 answer or starts an orchestration instance. The orchestrator
`orchestrator` then runs two activities in turn: `validate_order`, then
`approve_order`. Its output holds the OrderID and both results.

This project models that logic as pure Dafny functions and proves its
properties as lemmas:

- `values.dfy` (`Values`) covers JSON scalars (`Null`, `Bool`, `Num`, `Str`). It also
  defines Python truthiness (`Truthy`) and `dict.get` (`Get`, where an absent key
  gives `Null`). Request bodies are `map<string, Value>`.
- `text.dfy` (`Text`) defines `", ".join(...)` and its inverse split.
- `float_parse.dfy` (`FloatParse`) covers the part of Python's `float(str)` used
  on string amounts.
- `activities.dfy` (`Activities`) models `validate_order` as a function that
  returns `Validated("Validated")` or the first failing check. It also models
  `approve_order` as a three-tier classifier over the parsed amount.
- `start_workflow.dfy` (`Admission`) models the admission decision of
  `start_workflow`. The result is `Reject(error)` (400), `Accept(call, body)` (202)
  or `ServerError` (500). `call` is the `client.start_new` call, with its
  orchestrator name, instance id and input. `body` is the 202 answer.
- `orchestrator.dfy` (`Orchestration`) models the generator as a replay step
  function. `Step(input, history)` takes the activity results recorded so far. It
  returns the next decision: schedule `ValidateOrderActivity`, schedule
  `ApproveOrderActivity`, complete with an output, or fail. `Execute` runs the
  two activity functions of `Activities`. `Run` loops step, execute, record until the
  instance finishes, looking each scheduled activity up in the registry by name.
- `workflow.dfy` (`Workflow`) holds the properties that connect admission, the
  validator and the orchestrator.
- `scenarios.dfy` (`Scenarios`) works through the request bodies sent by
  `test_po_workflow.py`.

Two facts about the code shape the model:

- The middle approval label is `"Manager Approval (Auto-Approved for demo)"`
  (function_app.py:95).
- The orchestrator calls only the two activities (function_app.py:60-61). It
  sends no approver notification, waits for no external event and records no
  final status.

## Model

| member | source | states |
|---|---|---|
| `Values.MissingMeansAbsentOrFalsy` | function_app.py:18 | `not d.get(k)` holds exactly when the key is absent or holds `None`, `False`, `0` or `""` |
| `Text.Join` | function_app.py:21 | an empty list joins to the empty text; otherwise the joined text starts with the first item and its length is the items' total length plus one separator per neighbouring pair |
| `Text.JoinAppend` | function_app.py:21 | appending an item to a non-empty list appends one separator and that item, so (with the one-item case fixed by `Join`'s length and prefix) the joined text is the items in order with one separator between neighbours |
| `Text.SplitJoin` | function_app.py:21 | for a non-empty list of names none of which contains a comma, splitting `", ".join(names)` at ", " gives back exactly `names` |
| `FloatParse.ParseFloat` | function_app.py:89 | `float` succeeds only on text holding at least one decimal digit; what it returns is stated by `ParseDecimalText` (padded, signed decimals) and `ParseBlank` (empty or all-blank text fails) |
| `FloatParse.ParseDecimalText` | function_app.py:89 | `float` of any string made of blanks, an optional sign, digits with an optional point and fraction (at least one digit), and blanks is the signed value those digits spell |
| `FloatParse.ParseBlank` | function_app.py:89-91 | `float` of an empty or all-blank string fails, so the amount falls back to 0 |
| `FloatParse.ParseShowNat` | function_app.py:89 | `float(str(n))` is `n`, for every natural `n` |
| `FloatParse.ParseNegatedShowNat` | function_app.py:89 | `float("-" + str(n))` is `-n`, for every natural `n` |
| `Admission.MissingFields` | function_app.py:18 | the list comprehension keeps exactly the listed fields that are absent or falsy, and never grows the list |
| `Admission.MissingFieldsAppend` | function_app.py:18 | the comprehension over `a + b` is the comprehension over `a` followed by that over `b`; with the one-field case this fixes the order and the multiplicity of the result |
| `Admission.MissingFieldsSingle` | function_app.py:18 | a single field is kept exactly when it is absent or falsy |
| `Admission.MissingRequired` | function_app.py:17-18 | the missing list is exactly the falsy ones among DurableInstanceId, OrderID and Status, in that order, and is empty exactly when all three are truthy |
| `Admission.StartWorkflow` | function_app.py:13-53 | 500 exactly when the body is not a JSON object; a 400 carries either the missing-fields message for the missing required fields or the Draft message; an acceptance has all three checks passed, starts the instance under DurableInstanceId with the whole request as input, and answers with that id and the OrderID |
| `Admission.MissingFieldsRejected` | function_app.py:17-24 | the answer is a missing-fields 400 exactly when some required field is falsy; the message is "Missing required fields: " plus the missing names joined by ", ", and the message gives back exactly those names |
| `Admission.StatusDecides` | function_app.py:25-30 | with all three fields truthy, the answer is the Draft 400 exactly when Status is not the string "Draft", and is an acceptance otherwise |
| `Admission.AcceptedEchoes` | function_app.py:32-46 | an accepted request starts `PurchaseOrderOrchestrator` under DurableInstanceId with the whole unchanged request as input; the 202 body echoes that id and OrderID; acceptance implies both fields truthy and Status "Draft" |
| `Admission.UnreadableBody` | function_app.py:47-53 | a body that is not a JSON object gets status 500 |
| `Activities.ValidateOrder` | function_app.py:72-82 | returns "Validated" exactly when all four checks pass; otherwise the reported check fails and every earlier check passes |
| `Activities.ValidatedExactly` | function_app.py:74-82 | validation succeeds exactly when OrderID and Details are truthy and Status is the string "Draft" |
| `Activities.FirstFailureWins` | function_app.py:74-81 | when any check fails, validation fails with a check no later than it in the order OrderID, Status, Details, Draft |
| `Activities.TierFor` | function_app.py:92-97 | the chosen tier's band holds the amount: ≤ 1000, (1000, 10000], > 10000 |
| `Activities.BandsAreDisjoint` | function_app.py:92-97 | an amount lies in exactly one tier's band, so the tier is determined by the band |
| `Activities.TierMonotone` | function_app.py:92-97 | a larger amount never gets a lower tier |
| `Activities.AmountOf` | function_app.py:87 | an absent Amount counts as 0; a present one is converted with `float`, so a numeric Amount is compared as itself |
| `Activities.ApproveOrder` | function_app.py:86-97 | never fails, and the result is always one of the three labels |
| `Activities.ApprovalThresholds` | function_app.py:92-97 | amount ≤ 1000 gives "Auto-Approved", 1000 < amount ≤ 10000 gives the Manager label, amount > 10000 gives "Executive Approval Required"; 1000 and 10000 fall in the lower tier |
| `Activities.UnusableAmountAutoApproved` | function_app.py:87-93 | an absent, `None` or unparsable-string Amount counts as 0 and gives "Auto-Approved" |
| `Activities.AmountFromValue` | function_app.py:87-91 | every falsy Amount (`None`, `False`, `0`, `""`) converts to 0; a number converts to itself, `True` to 1, and a string `float` accepts to the number it parses to |
| `Activities.NumericAmountClassified` | function_app.py:87-97 | a numeric Amount is compared as itself, so the label is that of its tier |
| `Activities.StringAmountParsed` | function_app.py:87-89 | an Amount given as a decimal string (blanks, optional sign, digits with optional point and fraction, blanks) is compared as the signed number it spells |
| `Orchestration.Step` | function_app.py:58-67 | schedules only when fewer than two results are recorded and all of them completed; then it schedules validation first and approval second, both with the orchestration input; a failure carries the reason recorded for one of the two activities |
| `Orchestration.CompletesWithBothResults` | function_app.py:63-67 | two completed results give the output {OrderID from the input, ValidationResult, ApprovalResult} |
| `Orchestration.ValidationFailureIsFinal` | function_app.py:60-61 | a failed validation fails the orchestration whatever is recorded after it, so approval is never scheduled |
| `Orchestration.StepReadsTwoResults` | function_app.py:60-67 | results recorded after the first two never change the decision |
| `Orchestration.Execute` | function_app.py:60-61 | only validation can fail, and exactly when one of its checks fails, with that check's message; a completed validation returns "Validated"; approval always completes with one of the three labels |
| `Orchestration.RegistryResolvesCalls` | function_app.py:60-61 | each name the orchestrator calls resolves in the registry to the activity it means, and every registered name is one of those two |
| `Orchestration.Run` | function_app.py:58-67 | the engine loop ends on a non-scheduling action, which is the step's decision on the final history; the history only grows by at most two results |
| `Orchestration.Orchestrate` | function_app.py:58-67 | a whole run completes exactly when validation passes and fails exactly when it does not; a failure comes from validation after one recorded result, and a completion carries `approve_order`'s label after two |
| `Workflow.AcceptedFailsOnlyOnDetails` | function_app.py:74-81 | a request accepted by `start_workflow` passes validation exactly when Details is truthy, and can fail only with the Details check |
| `Workflow.OrchestrationOutcome` | function_app.py:58-67 | a run records [Validated, approval label] and completes with {OrderID, "Validated", `approve_order` result} when validation passes; otherwise it records only the validation failure and fails with its message |
| `Workflow.ReplayReproducesDecisions` | function_app.py:59-61 | replaying any recorded prefix schedules exactly the activity whose result comes next, with the same input, and the full history gives the recorded final action |
| `Workflow.AcceptedRequestOutcome` | function_app.py:32-36 | the instance started for an accepted request completes exactly when Details is truthy; otherwise it fails with "Details field must not be empty" before approval |
| `Scenarios.ValidDraftOrders` | test_po_workflow.py:60-88 | the three complete Draft orders (amounts 500, 5000, 25000) complete with the Auto, Manager and Executive labels |
| `Scenarios.MissingDetailsScenario` | test_po_workflow.py:90-98 | the order without Details is accepted, then fails in validation with only the validation activity run |
| `Scenarios.NonDraftScenario` | test_po_workflow.py:100-108 | the order with Status "Approved" is refused with the Draft message |
| `Scenarios.MissingOrderIdScenario` | test_po_workflow.py:110-118 | the order without OrderID is refused with "Missing required fields: OrderID" |

## Left out

- The Azure Functions and Durable Functions SDK are left out. This covers the decorators,
  `func.FunctionApp`, `HttpResponse`, `client.start_new`, `context.call_activity` and JSON
  encoding. They are library code. The replay engine and its history store are
  reduced to `Step`/`Run` over a list of results.
- `Admission.StartWorkflow`: `client.start_new` is assumed to return the instance id it was
  given and to succeed. Errors raised by the SDK, such as a duplicate id, are not modelled.
  The input passed to the instance is the request unchanged; the JSON round trip is not modelled.
- `Admission.UnreadableBody`: the 500 answer carries `str(e)` of a library exception.
  The model has `ServerError` without the message. Only an unreadable or non-object
  body leads to it; other library failures are not modelled.
- `Orchestration.Step`: when an activity raises, the SDK rethrows inside the
  orchestrator with its own wrapping text. The model keeps the activity and the
  activity's own message (`FailWith`), not the SDK's wording.
- `health_check` is left out. It only reads the wall clock and formats a response.
- Logging is left out (function_app.py:48).
- `FloatParse.ParseFloat` does not cover all of Python's `float` grammar. It leaves
  out exponents (`"1e3"`), digit-group underscores (`"1_000"`), `inf`/`nan` and non-ASCII
  digits; the model treats those strings as unparsable, so they count as 0. The blanks it
  skips are ASCII tab, line feed, vertical tab, form feed, carriage return and space, and
  the non-ASCII Unicode white space; the ASCII separators 0x1C-0x1F are not skipped. Float rounding
  and overflow are not modelled either: amounts are exact reals, so an integer too large for a
  float, or a NaN amount, does not behave as in Python.
- JSON arrays and objects as field values are not represented. Their truthiness and their
  effect on `float` are not modelled.
- `test_po_workflow.py` is an interactive HTTP client (network calls, `input()`,
  printing). It is left out. The model only works through its request bodies, in `Scenarios`.
- The code has no approver notification, no wait for an approval event and no
  final-status update, so the model has none either.

/** The two activity functions of the purchase-order workflow:
    `validate_order` and `approve_order`. */
module Activities {
  import opened Values
  import FloatParse

  // ---------------------------------------------------------------- validate_order

  /** The four checks of `validate_order`, in the order they run. */
  datatype ValidationError = OrderIdRequired | StatusRequired | DetailsEmpty | NotDraft

  datatype ValidationResult = Validated(result: string) | Invalid(error: ValidationError)

  /** The text of the exception each failed check raises. */
  function Message(e: ValidationError): string
  {
    match e
    case OrderIdRequired => "OrderID is required"
    case StatusRequired => "Status is required"
    case DetailsEmpty => "Details field must not be empty"
    case NotDraft => "Order status must be 'Draft'"
  }

  /** The position of a check in the order `validate_order` runs them. */
  function Rank(e: ValidationError): nat
  {
    match e
    case OrderIdRequired => 0
    case StatusRequired => 1
    case DetailsEmpty => 2
    case NotDraft => 3
  }

  /** Whether `input` passes the check `e` on its own. */
  predicate Passes(input: Request, e: ValidationError)
  {
    match e
    case OrderIdRequired => Present(input, "OrderID")
    case StatusRequired => Present(input, "Status")
    case DetailsEmpty => Present(input, "Details")
    case NotDraft => Get(input, "Status") == Str("Draft")
  }

  /** `validate_order`: "Validated" when every check passes, otherwise the
      first check that fails. */
  function ValidateOrder(input: Request): (r: ValidationResult)
    ensures r.Validated? <==> forall e: ValidationError :: Passes(input, e)
    ensures r.Validated? ==> r.result == "Validated"
    ensures r.Invalid? ==> !Passes(input, r.error)
    ensures r.Invalid? ==> forall e: ValidationError :: Rank(e) < Rank(r.error) ==> Passes(input, e)
  {
    if !Present(input, "OrderID") then
      assert !Passes(input, OrderIdRequired);
      Invalid(OrderIdRequired)
    else if !Present(input, "Status") then
      assert !Passes(input, StatusRequired);
      Invalid(StatusRequired)
    else if !Present(input, "Details") then
      assert !Passes(input, DetailsEmpty);
      Invalid(DetailsEmpty)
    else if Get(input, "Status") != Str("Draft") then
      assert !Passes(input, NotDraft);
      Invalid(NotDraft)
    else Validated("Validated")
  }

  /** The same decision stated directly on the input's fields. */
  lemma ValidatedExactly(input: Request)
    ensures ValidateOrder(input).Validated? <==>
      Present(input, "OrderID") && Present(input, "Details") && Get(input, "Status") == Str("Draft")
  {
  }

  /** The order of the checks decides the failure: when several fail, the
      one reported is the earliest. */
  lemma FirstFailureWins(input: Request, e: ValidationError)
    requires !Passes(input, e)
    ensures ValidateOrder(input).Invalid?
    ensures Rank(ValidateOrder(input).error) <= Rank(e)
  {
  }

  // ---------------------------------------------------------------- approve_order

  /** The three approval tiers, from the lowest. */
  datatype Tier = AutoApproved | ManagerApproval | ExecutiveApproval

  const AutoLimit: real := 1000.0
  const ManagerLimit: real := 10000.0

  function Label(t: Tier): string
  {
    match t
    case AutoApproved => "Auto-Approved"
    case ManagerApproval => "Manager Approval (Auto-Approved for demo)"
    case ExecutiveApproval => "Executive Approval Required"
  }

  function Level(t: Tier): nat
  {
    match t
    case AutoApproved => 0
    case ManagerApproval => 1
    case ExecutiveApproval => 2
  }

  /** The band of amounts a tier covers: up to and including 1000, above 1000
      up to and including 10000, and above 10000. */
  predicate InBand(amount: real, t: Tier)
  {
    match t
    case AutoApproved => amount <= AutoLimit
    case ManagerApproval => AutoLimit < amount <= ManagerLimit
    case ExecutiveApproval => ManagerLimit < amount
  }

  /** The tier whose band holds `amount`. */
  function TierFor(amount: real): (t: Tier)
    ensures InBand(amount, t)
  {
    if amount <= AutoLimit then AutoApproved
    else if amount <= ManagerLimit then ManagerApproval
    else ExecutiveApproval
  }

  /** Every amount lies in exactly one band, so `TierFor` is the only choice. */
  lemma BandsAreDisjoint(amount: real, t: Tier)
    requires InBand(amount, t)
    ensures t == TierFor(amount)
  {
  }

  /** A larger amount never needs a lower tier. */
  lemma TierMonotone(a: real, b: real)
    requires a <= b
    ensures Level(TierFor(a)) <= Level(TierFor(b))
  {
  }

  /** `float(v)` inside `approve_order`'s `try`, where every exception falls
      back to 0: `None` and unparsable strings give 0, `True` gives 1, and
      so every falsy value (`None`, `False`, `0`, `""`) counts as 0. */
  function AmountFromValue(v: Value): (a: real)
    ensures !Truthy(v) ==> a == 0.0
    ensures v.Num? ==> a == v.r
    ensures v == Bool(true) ==> a == 1.0
    ensures v.Str? && FloatParse.ParseFloat(v.s).Some? ==> a == FloatParse.ParseFloat(v.s).value
  {
    match v
    case Null => 0.0
    case Bool(b) => if b then 1.0 else 0.0
    case Num(r) => r
    case Str(s) =>
      match FloatParse.ParseFloat(s)
      case Some(x) => x
      case None => 0.0
  }

  /** The amount `approve_order` compares: `input_data.get("Amount", 0)`
      converted with `float`, with 0 for anything that does not convert. */
  function AmountOf(input: Request): (a: real)
    ensures "Amount" !in input ==> a == 0.0
    ensures "Amount" in input ==> a == AmountFromValue(input["Amount"])
    ensures Get(input, "Amount").Num? ==> a == Get(input, "Amount").r
  {
    if "Amount" in input then AmountFromValue(input["Amount"]) else 0.0
  }

  /** `approve_order`: never fails, and always returns one of the three labels. */
  function ApproveOrder(input: Request): (r: string)
    ensures r in {"Auto-Approved", "Manager Approval (Auto-Approved for demo)", "Executive Approval Required"}
  {
    Label(TierFor(AmountOf(input)))
  }

  /** The thresholds of `approve_order` on the parsed amount, both boundaries
      falling in the lower tier. */
  lemma ApprovalThresholds(input: Request)
    ensures AmountOf(input) <= 1000.0 ==> ApproveOrder(input) == "Auto-Approved"
    ensures 1000.0 < AmountOf(input) <= 10000.0 ==>
      ApproveOrder(input) == "Manager Approval (Auto-Approved for demo)"
    ensures 10000.0 < AmountOf(input) ==> ApproveOrder(input) == "Executive Approval Required"
  {
  }

  /** A numeric Amount, as every test body sends it, is compared as itself. */
  lemma NumericAmountClassified(input: Request, r: real)
    requires "Amount" in input && input["Amount"] == Num(r)
    ensures AmountOf(input) == r
    ensures ApproveOrder(input) == Label(TierFor(r))
  {
  }

  /** An amount that is absent, `None`, or a string `float` rejects counts as
      0 and is auto-approved. */
  lemma UnusableAmountAutoApproved(input: Request)
    requires "Amount" !in input || input["Amount"] == Null
      || (input["Amount"].Str? && FloatParse.ParseFloat(input["Amount"].s).None?)
    ensures AmountOf(input) == 0.0
    ensures ApproveOrder(input) == "Auto-Approved"
  {
  }

  /** An Amount given as a decimal string (surrounding blanks, an optional
      sign, digits with an optional point and fraction) is compared as the
      number it spells. */
  lemma StringAmountParsed(input: Request, lead: string, sign: string, ip: string, fp: string,
                           point: bool, trail: string)
    requires FloatParse.WellFormedDecimal(lead, sign, ip, fp, point, trail)
    requires "Amount" in input && input["Amount"] == Str(FloatParse.DecimalText(lead, sign, ip, fp, point, trail))
    ensures AmountOf(input) == FloatParse.DecimalValue(sign, ip, fp)
  {
    FloatParse.ParseDecimalText(lead, sign, ip, fp, point, trail);
  }
}

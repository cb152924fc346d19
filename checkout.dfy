/**
 * `POST /api/stripe/checkout`: validates a debtor's settlement offer and
 * creates a Stripe Checkout session for it, as a destination charge with a
 * 5% platform fee when the merchant has a connected account.
 *
 * `Decide` is the specification of the handler: what it answers, and the
 * session it asks Stripe for, if any. `Post` is the handler itself, which
 * builds the session options and then sets `payment_intent_data` in place.
 */
module Checkout {
  import opened Js
  import opened Store

  /** A value decoded from the JSON request body. */
  datatype JsValue = Undefined | Null | Bool(b: bool) | Number(n: Num) | Str(s: string) | Other

  /** JavaScript truthiness. */
  predicate Truthy(v: JsValue) {
    match v
    case Undefined => false
    case Null => false
    case Bool(b) => b
    case Number(n) => !(n.NaN? || n == Finite(0.0))
    case Str(s) => s != ""
    case Other => true
  }

  /** The `typeof` operator. */
  function TypeOf(v: JsValue): string {
    match v
    case Undefined => "undefined"
    case Bool(_) => "boolean"
    case Number(_) => "number"
    case Str(_) => "string"
    case _ => "object"
    // `null`, arrays and objects
  }

  /** The destructured `{ debtorId, amount, currency }` of the body. */
  datatype CheckoutRequest = CheckoutRequest(debtorId: JsValue, amount: JsValue, currency: JsValue)

  datatype PaymentIntentData = PaymentIntentData(applicationFeeAmount: int, destination: string, onBehalfOf: string)

  /** The `Stripe.Checkout.SessionCreateParams` the handler builds; the one
      line item is flattened into `currency` .. `quantity`. */
  datatype SessionParams = SessionParams(
    paymentMethodTypes: seq<string>,
    currency: JsValue,
    productName: string,
    unitAmount: int,
    quantity: int,
    mode: string,
    successUrl: string,
    cancelUrl: string,
    metadata: map<string, string>,
    paymentIntentData: Option<PaymentIntentData>)

  /** What `stripe.checkout.sessions.create` does: a session (whose `url`
      may be null) or a thrown error. */
  datatype StripeResult = Created(url: Option<string>) | StripeFailed(message: string)

  datatype Response =
    | Text(status: int, body: string)       // `new Response(text, { status })`
    | SessionJson(url: Option<string>)     // 200 with `{ url: session.url }`
    | Threw(message: string)                // an exception escapes the handler

  /** The handler's decision before it calls Stripe. */
  datatype Decision = Reject(status: int, error: string) | Crash | Charge(params: SessionParams)

  // ---------------------------------------------------------------------
  // Input checks (lines 12-17)
  // ---------------------------------------------------------------------

  function InputError(req: CheckoutRequest): Option<string> {
    if !Truthy(req.debtorId) || TypeOf(req.debtorId) != "string" then Some("Invalid request")
    else if TypeOf(req.amount) != "number" || NumAtMostZero(req.amount.n) || !IsFinite(req.amount.n) then
      Some("Invalid amount")
    else None
  }

  /** `amount <= 0`, which is false for NaN. */
  predicate NumAtMostZero(n: Num) {
    match n
    case Finite(v) => v <= 0.0
    case NegInf => true
    case _ => false
  }

  /** The input checks let through exactly a non-empty string id and a
      finite positive number; the id is checked first. */
  lemma InputErrorCases(req: CheckoutRequest)
    ensures InputError(req).None? <==>
      req.debtorId.Str? && req.debtorId.s != "" && req.amount.Number? && req.amount.n.Finite? && req.amount.n.val > 0.0
    ensures !(req.debtorId.Str? && req.debtorId.s != "") ==> InputError(req) == Some("Invalid request")
    ensures req.debtorId.Str? && req.debtorId.s != "" && !(req.amount.Number? && req.amount.n.Finite? && req.amount.n.val > 0.0) ==>
      InputError(req) == Some("Invalid amount")
  {
  }

  /** `currency = 'usd'`: the default applies only to an absent field. */
  function CurrencyOf(v: JsValue): (c: JsValue)
    ensures v.Undefined? ==> c == Str("usd")
    ensures !v.Undefined? ==> c == v
  {
    if v.Undefined? then Str("usd") else v
  }

  // ---------------------------------------------------------------------
  // The settlement floor (lines 32-39)
  // ---------------------------------------------------------------------

  /** `total_debt * Math.max(0.7, settlement_floor)` */
  function EffectiveFloor(totalDebt: real, settlementFloor: real): real {
    totalDebt * Max(0.7, settlementFloor)
  }

  function AmountError(amount: real, totalDebt: real, settlementFloor: real): Option<string> {
    if amount < EffectiveFloor(totalDebt, settlementFloor) * 0.99 then Some("Amount below settlement floor")
    else if amount > totalDebt * 1.01 then Some("Amount exceeds debt")
    else None
  }

  /** An amount passes exactly when it lies in `[0.99 * floor, 1.01 * debt]`. */
  lemma AcceptedRange(amount: real, totalDebt: real, settlementFloor: real)
    ensures AmountError(amount, totalDebt, settlementFloor).None? <==>
      0.99 * EffectiveFloor(totalDebt, settlementFloor) <= amount <= 1.01 * totalDebt
    ensures amount < 0.99 * EffectiveFloor(totalDebt, settlementFloor) ==>
      AmountError(amount, totalDebt, settlementFloor) == Some("Amount below settlement floor")
  {
  }

  /** However low the merchant sets its floor, no offer under 69.3% of the
      debt passes. */
  lemma FloorAtLeastSeventyPercent(amount: real, totalDebt: real, settlementFloor: real)
    requires totalDebt >= 0.0
    requires AmountError(amount, totalDebt, settlementFloor).None?
    ensures amount >= 0.693 * totalDebt
  {
    var f := Max(0.7, settlementFloor);
    assert totalDebt * f >= totalDebt * 0.7;
  }

  /** A floor above 1.01/0.99 of the debt admits no amount at all. */
  lemma FloorAboveCapRejectsAll(amount: real, totalDebt: real, settlementFloor: real)
    requires totalDebt > 0.0 && settlementFloor * 0.99 > 1.01
    ensures AmountError(amount, totalDebt, settlementFloor).Some?
  {
    var f := Max(0.7, settlementFloor);
    assert f == settlementFloor;
    assert totalDebt * f * 0.99 > totalDebt * 1.01 by {
      assert totalDebt * (f * 0.99) > totalDebt * 1.01;
    }
  }

  /** A debt of 1000 with a merchant floor of 50%: the floor is raised to
      700, so 693 is the least accepted amount and 1010 the greatest. */
  lemma SettlementScenario()
    ensures EffectiveFloor(1000.0, 0.5) == 700.0
    ensures AmountError(693.0, 1000.0, 0.5).None?
    ensures AmountError(692.99, 1000.0, 0.5) == Some("Amount below settlement floor")
    ensures AmountError(1010.0, 1000.0, 0.5).None?
    ensures AmountError(1010.01, 1000.0, 0.5) == Some("Amount exceeds debt")
  {
  }

  /** A debt of 1000 with a merchant floor of 60%: the floor is raised to
      700 here too, so 650 is rejected although it is above 60%, and 710
      passes. */
  lemma RaisedFloorScenario()
    ensures EffectiveFloor(1000.0, 0.6) == 700.0
    ensures AmountError(650.0, 1000.0, 0.6) == Some("Amount below settlement floor")
    ensures AmountError(710.0, 1000.0, 0.6).None?
  {
  }

  // ---------------------------------------------------------------------
  // The session (lines 43-76)
  // ---------------------------------------------------------------------

  /** `${process.env.NEXT_PUBLIC_URL}`: an unset variable prints as
      "undefined". */
  function Interpolate(v: Option<string>): string {
    match v
    case None => "undefined"
    case Some(s) => s
  }

  /** The session options before the connected-account branch. */
  function BaseSession(debtorId: string, amount: real, currency: JsValue, d: Debtor, m: Merchant,
                       publicUrl: Option<string>): SessionParams {
    SessionParams(
      ["card"], currency, "Debt Settlement - " + m.name, Round(amount * 100.0), 1, "payment",
      Interpolate(publicUrl) + "/pay/" + debtorId + "/success?session_id={CHECKOUT_SESSION_ID}",
      Interpolate(publicUrl) + "/chat/" + debtorId,
      map["debtor_id" := debtorId, "merchant_id" := d.merchantId],
      None)
  }

  /** `if (merchant.stripe_account_id)` */
  predicate HasConnectedAccount(m: Merchant) {
    m.stripeAccountId.Some? && m.stripeAccountId.value != ""
  }

  /** The destination charge: a 5% application fee, paid out to and on
      behalf of the connected account. */
  function DestinationCharge(amount: real, account: string): PaymentIntentData {
    PaymentIntentData(Round(amount * 100.0 * 0.05), account, account)
  }

  function SessionFor(debtorId: string, amount: real, currency: JsValue, d: Debtor, m: Merchant,
                      publicUrl: Option<string>): SessionParams {
    var base := BaseSession(debtorId, amount, currency, d, m, publicUrl);
    if HasConnectedAccount(m) then base.(paymentIntentData := Some(DestinationCharge(amount, m.stripeAccountId.value)))
    else base
  }

  /** The handler's checks in their order, and the session it then creates. */
  function Decide(t: Tables, req: CheckoutRequest, publicUrl: Option<string>): Decision {
    match InputError(req)
    case Some(e) => Reject(400, e)
    case None =>
      var debtorId := req.debtorId.s;
      var amount := req.amount.n.val;
      match DebtorById(t.debtors, debtorId)
      case None => Reject(404, "Debtor not found")
      case Some(d) =>
        match MerchantOf(t.merchants, d)
        case None => Crash
        case Some(m) =>
          match AmountError(amount, d.totalDebt, m.settlementFloor)
          case Some(e) => Reject(400, e)
          case None => Charge(SessionFor(debtorId, amount, CurrencyOf(req.currency), d, m, publicUrl))
  }

  /** A malformed body is refused whatever the tables hold, so before any
      lookup; an unknown debtor is refused with 404. */
  lemma RejectionsBeforeLookup(t: Tables, req: CheckoutRequest, publicUrl: Option<string>)
    ensures InputError(req).Some? ==> Decide(t, req, publicUrl) == Reject(400, InputError(req).value)
    ensures InputError(req).None? && DebtorById(t.debtors, req.debtorId.s).None? ==>
      Decide(t, req, publicUrl) == Reject(404, "Debtor not found")
  {
  }

  /** A session is created only for a valid body, a known debtor with a
      merchant, and an amount in the accepted range; it is the session for
      that debtor, amount and currency. */
  lemma ChargedSession(t: Tables, req: CheckoutRequest, publicUrl: Option<string>)
    requires Decide(t, req, publicUrl).Charge?
    ensures InputError(req).None?
    ensures req.debtorId.Str? && req.debtorId.s != "" && req.amount.Number? && req.amount.n.Finite? && req.amount.n.val > 0.0
    ensures DebtorById(t.debtors, req.debtorId.s).Some?
    ensures DebtorById(t.debtors, req.debtorId.s).value.id == req.debtorId.s
    ensures MerchantOf(t.merchants, DebtorById(t.debtors, req.debtorId.s).value).Some?
    ensures var d := DebtorById(t.debtors, req.debtorId.s).value;
      var m := MerchantOf(t.merchants, d).value;
      && AmountError(req.amount.n.val, d.totalDebt, m.settlementFloor).None?
      && Decide(t, req, publicUrl).params == SessionFor(req.debtorId.s, req.amount.n.val, CurrencyOf(req.currency), d, m, publicUrl)
  {
    InputErrorCases(req);
    SingleWhere(t.debtors, (x: Debtor) => x.id == req.debtorId.s);
  }

  /** The one line item charges `round(amount * 100)` minor units once in
      the given currency; the metadata carry the debtor id and the debtor's
      merchant id; success and cancel lead back to the debtor's pages. */
  lemma SessionShape(debtorId: string, amount: real, currency: JsValue, d: Debtor, m: Merchant,
                     publicUrl: Option<string>)
    ensures var p := SessionFor(debtorId, amount, currency, d, m, publicUrl);
      && p.paymentMethodTypes == ["card"] && p.mode == "payment"
      && p.unitAmount == Round(amount * 100.0) && p.quantity == 1 && p.currency == currency
      && p.productName == "Debt Settlement - " + m.name
      && p.metadata == map["debtor_id" := debtorId, "merchant_id" := d.merchantId]
      && p.successUrl == Interpolate(publicUrl) + "/pay/" + debtorId + "/success?session_id={CHECKOUT_SESSION_ID}"
      && p.cancelUrl == Interpolate(publicUrl) + "/chat/" + debtorId
  {
    var base := BaseSession(debtorId, amount, currency, d, m, publicUrl);
    var p := SessionFor(debtorId, amount, currency, d, m, publicUrl);
    assert p.(paymentIntentData := None) == base;
  }

  /** `payment_intent_data` is present exactly for a merchant with a
      connected account; the fee is `round(amount * 5)`, never more than the
      charge, and both the destination and `on_behalf_of` are that account. */
  lemma DestinationChargeIff(debtorId: string, amount: real, currency: JsValue, d: Debtor, m: Merchant,
                             publicUrl: Option<string>)
    requires amount > 0.0
    ensures var p := SessionFor(debtorId, amount, currency, d, m, publicUrl);
      && (p.paymentIntentData.Some? <==> HasConnectedAccount(m))
      && (p.paymentIntentData.Some? ==>
            && p.paymentIntentData.value.applicationFeeAmount == Round(amount * 100.0 * 0.05)
            && 0 <= p.paymentIntentData.value.applicationFeeAmount <= p.unitAmount
            && p.paymentIntentData.value.destination == m.stripeAccountId.value
            && p.paymentIntentData.value.onBehalfOf == m.stripeAccountId.value)
  {
    RoundMonotone(amount * 100.0 * 0.05, amount * 100.0);
    RoundMonotone(0.0, amount * 100.0 * 0.05);
  }

  lemma RoundMonotone(x: real, y: real)
    requires x <= y
    ensures Round(x) <= Round(y)
  {
  }

  // ---------------------------------------------------------------------
  // The handler
  // ---------------------------------------------------------------------

  /** `stripe` stands for `stripe.checkout.sessions.create`; `calls` lists
      the options it was called with. */
  method Post(db: Db, req: CheckoutRequest, publicUrl: Option<string>, stripe: SessionParams -> StripeResult)
    returns (resp: Response, calls: seq<SessionParams>)
    ensures match Decide(db.Snapshot(), req, publicUrl)
      case Reject(status, e) => resp == Text(status, e) && calls == []
      case Crash => resp.Threw? && calls == []
      case Charge(p) =>
        && calls == [p]
        && resp == (match stripe(p) case Created(url) => SessionJson(url) case StripeFailed(msg) => Threw(msg))
  {
    var currency := CurrencyOf(req.currency);
    var inputError := InputError(req);
    if inputError.Some? {
      return Text(400, inputError.value), [];
    }
    var debtorId := req.debtorId.s;
    var amount := req.amount.n.val;

    var debtor := DebtorById(db.debtors, debtorId);
    if debtor.None? {
      return Text(404, "Debtor not found"), [];
    }
    var merchant := MerchantOf(db.merchants, debtor.value);
    if merchant.None? {
      // `merchant.settlement_floor` on a null join
      return Threw("Cannot read properties of null (reading 'settlement_floor')"), [];
    }
    var d := debtor.value;
    var m := merchant.value;

    var amountError := AmountError(amount, d.totalDebt, m.settlementFloor);
    if amountError.Some? {
      return Text(400, amountError.value), [];
    }

    var sessionOptions := BaseSession(debtorId, amount, currency, d, m, publicUrl);
    if HasConnectedAccount(m) {
      sessionOptions := sessionOptions.(paymentIntentData := Some(DestinationCharge(amount, m.stripeAccountId.value)));
    }

    calls := [sessionOptions];
    match stripe(sessionOptions)
    case Created(url) => resp := SessionJson(url);
    case StripeFailed(msg) => resp := Threw(msg);
  }
}

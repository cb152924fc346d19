/**
 * `POST /api/stripe/webhook`: Stripe's event callback. A completed checkout
 * session records a payment and marks the debtor settled; an updated
 * connected account with its details submitted marks the merchant
 * onboarded. Signature verification (`stripe.webhooks.constructEvent`) is
 * an oracle; the clock reading (`new Date().toISOString()`) is a parameter.
 *
 * `Dispatch` is the specification of what a verified event does to the
 * tables and what the handler answers; `Post` is the handler, a sequence of
 * writes with early returns.
 */
module Webhook {
  import opened Js
  import opened Store

  /** The fields of `event.data.object` the handler reads: a checkout
      session (`id`, `metadata`, `amount_total`) or an account (`id`,
      `details_submitted`). */
  datatype EventObject = EventObject(
    id: string,
    metadata: Option<map<string, string>>,
    amountTotal: Option<int>,
    detailsSubmitted: bool)

  datatype Event = Event(kind: string, obj: EventObject)

  /** What `constructEvent` does: the parsed event, or the message of the
      error it throws. */
  datatype Verification = Verified(event: Event) | Rejected(message: string)

  datatype Response = Text(status: int, body: string)

  /** The errors the database reports for the payment insert, the debtor
      update and the merchant update (None: the write succeeds). */
  datatype Faults = Faults(payment: Option<DbError>, debtor: Option<DbError>, merchant: Option<DbError>)

  const NoFaults := Faults(None, None, None)

  const Received := Text(200, "{\"received\":true}")
  const DatabaseError := Text(500, "Database error")

  /** `session.metadata?.debtor_id`, when it is truthy. */
  function DebtorIdOf(o: EventObject): (r: Option<string>)
    ensures r.Some? <==> o.metadata.Some? && "debtor_id" in o.metadata.value && o.metadata.value["debtor_id"] != ""
  {
    if o.metadata.Some? && "debtor_id" in o.metadata.value && o.metadata.value["debtor_id"] != "" then
      Some(o.metadata.value["debtor_id"])
    else None
  }

  /** `session.amount_total ? session.amount_total / 100 : 0` */
  function AmountOf(o: EventObject): (a: real)
    ensures o.amountTotal.Some? ==> a * 100.0 == o.amountTotal.value as real
    ensures o.amountTotal.None? ==> a == 0.0
  {
    match o.amountTotal
    case None => 0.0
    case Some(n) => if n == 0 then 0.0 else n as real / 100.0
  }

  /** The row the payment insert writes (lines 37-42). */
  function PaymentFor(debtorId: string, o: EventObject): Payment {
    Payment(debtorId, AmountOf(o), "success", o.id)
  }

  datatype Outcome = Outcome(tables: Tables, response: Response)

  /** What a verified event does, given the database's answers to each
      write in turn. */
  function Dispatch(t: Tables, e: Event, f: Faults, now: string): Outcome {
    if e.kind == "checkout.session.completed" then
      match DebtorIdOf(e.obj)
      case None => Outcome(t, Received)
      case Some(id) =>
        if f.payment.Some? then Outcome(t, DatabaseError)
        else
          var paid := t.(payments := t.payments + [PaymentFor(id, e.obj)]);
          if f.debtor.Some? then Outcome(paid, DatabaseError)
          else Outcome(paid.(debtors := SettleDebtor(paid.debtors, id, now)), Received)
    else if e.kind == "account.updated" then
      if !e.obj.detailsSubmitted then Outcome(t, Received)
      else if f.merchant.Some? then Outcome(t, DatabaseError)
      else Outcome(t.(merchants := MarkOnboarded(t.merchants, e.obj.id)), Received)
    else Outcome(t, Received)
  }

  // ---------------------------------------------------------------------
  // Properties of the dispatch
  // ---------------------------------------------------------------------

  /** Any other event type, and a completed session without a debtor id,
      change nothing and are acknowledged. */
  lemma IgnoredEvents(t: Tables, e: Event, f: Faults, now: string)
    requires e.kind != "account.updated"
    requires e.kind == "checkout.session.completed" ==> DebtorIdOf(e.obj).None?
    ensures Dispatch(t, e, f, now) == Outcome(t, Received)
  {
  }

  /** A completed session with a debtor id appends one payment row of
      `amount_total / 100`, status "success" and the session id, then
      settles that debtor; merchants and the other tables stay as they
      were. A failed payment insert changes nothing and answers 500. */
  lemma CompletedSession(t: Tables, e: Event, f: Faults, now: string)
    requires e.kind == "checkout.session.completed" && DebtorIdOf(e.obj).Some?
    ensures var id := DebtorIdOf(e.obj).value;
      var o := Dispatch(t, e, f, now);
      && (f.payment.Some? ==> o == Outcome(t, DatabaseError))
      && (f.payment.None? ==>
            && o.tables.payments == t.payments + [Payment(id, AmountOf(e.obj), "success", e.obj.id)]
            && o.tables.merchants == t.merchants
            && o.tables.contracts == t.contracts
            && o.tables.embeddings == t.embeddings
            && o.tables.conversations == t.conversations
            && o.tables.files == t.files)
      && (f.payment.None? && f.debtor.Some? ==> o.tables.debtors == t.debtors && o.response == DatabaseError)
      && (f.payment.None? && f.debtor.None? ==> o.tables.debtors == SettleDebtor(t.debtors, id, now) && o.response == Received)
  {
  }

  /** After a successful completed-session event every row of that debtor
      is settled, each other debtor row is untouched, and the debt itself is
      not changed. */
  lemma SettlesOnlyThatDebtor(t: Tables, e: Event, now: string)
    requires e.kind == "checkout.session.completed" && DebtorIdOf(e.obj).Some?
    ensures var id := DebtorIdOf(e.obj).value;
      var ds := Dispatch(t, e, NoFaults, now).tables.debtors;
      && |ds| == |t.debtors|
      && (forall i :: 0 <= i < |ds| && t.debtors[i].id == id ==>
            ds[i].status == "settled" && ds[i].lastContacted == Some(now) && ds[i].totalDebt == t.debtors[i].totalDebt)
      && (forall i :: 0 <= i < |ds| && t.debtors[i].id != id ==> ds[i] == t.debtors[i])
  {
    var id := DebtorIdOf(e.obj).value;
    assert Dispatch(t, e, NoFaults, now).tables.debtors == SettleDebtor(t.debtors, id, now);
  }

  /** `account.updated` touches only the merchants table, and there only the
      onboarding flag of the rows with that account id, and only when the
      details are submitted. */
  lemma AccountUpdated(t: Tables, e: Event, f: Faults, now: string)
    requires e.kind == "account.updated"
    ensures var o := Dispatch(t, e, f, now);
      && o.tables.debtors == t.debtors && o.tables.payments == t.payments
      && (!e.obj.detailsSubmitted ==> o == Outcome(t, Received))
      && (e.obj.detailsSubmitted && f.merchant.Some? ==> o == Outcome(t, DatabaseError))
      && (e.obj.detailsSubmitted && f.merchant.None? ==>
            && o.response == Received
            && |o.tables.merchants| == |t.merchants|
            && forall i :: 0 <= i < |t.merchants| ==>
                 o.tables.merchants[i] ==
                   if t.merchants[i].stripeAccountId == Some(e.obj.id) then t.merchants[i].(stripeOnboardingComplete := true)
                   else t.merchants[i])
  {
  }

  /** Nothing de-duplicates on `stripe_session_id`: the same completed
      event delivered twice leaves two identical payment rows, and the
      debtor is settled either way. */
  lemma ReplayRecordsTwice(t: Tables, e: Event, now1: string, now2: string)
    requires e.kind == "checkout.session.completed" && DebtorIdOf(e.obj).Some?
    ensures var id := DebtorIdOf(e.obj).value;
      var p := PaymentFor(id, e.obj);
      var once := Dispatch(t, e, NoFaults, now1);
      var twice := Dispatch(once.tables, e, NoFaults, now2);
      && once.tables.payments == t.payments + [p]
      && twice.tables.payments == t.payments + [p, p]
      && twice.response == Received
      && |twice.tables.debtors| == |t.debtors|
      && forall i :: 0 <= i < |t.debtors| && t.debtors[i].id == id ==> twice.tables.debtors[i].status == "settled"
  {
    var id := DebtorIdOf(e.obj).value;
    var p := PaymentFor(id, e.obj);
    var once := Dispatch(t, e, NoFaults, now1);
    assert once.tables.debtors == SettleDebtor(t.debtors, id, now1);
    var twice := Dispatch(once.tables, e, NoFaults, now2);
    assert twice.tables.payments == once.tables.payments + [p];
    assert twice.tables.debtors == SettleDebtor(once.tables.debtors, id, now2);
    assert t.payments + [p] + [p] == t.payments + [p, p];
  }

  /** A concrete replay: a 500.00 session paid twice. */
  lemma ReplayExample(t: Tables)
    ensures var o := EventObject("cs_1", Some(map["debtor_id" := "d1", "merchant_id" := "m1"]), Some(50000), false);
      var e := Event("checkout.session.completed", o);
      var twice := Dispatch(Dispatch(t, e, NoFaults, "t1").tables, e, NoFaults, "t2");
      twice.tables.payments == t.payments + [Payment("d1", 500.0, "success", "cs_1"), Payment("d1", 500.0, "success", "cs_1")]
  {
    var o := EventObject("cs_1", Some(map["debtor_id" := "d1", "merchant_id" := "m1"]), Some(50000), false);
    var e := Event("checkout.session.completed", o);
    assert DebtorIdOf(o) == Some("d1");
    assert AmountOf(o) == 500.0;
    ReplayRecordsTwice(t, e, "t1", "t2");
  }

  // ---------------------------------------------------------------------
  // The handler
  // ---------------------------------------------------------------------

  /** `secret` is `STRIPE_WEBHOOK_SECRET`; `constructEvent` checks
      `signature` over `body`; `faults` are the database's answers and `now`
      the clock. */
  method Post(db: Db, body: string, signature: string, secret: Option<string>,
              constructEvent: (string, string, string) -> Verification, faults: Faults, now: string)
    returns (resp: Response)
    modifies db
    ensures secret.None? || secret.value == "" ==>
      resp == Text(500, "Webhook secret not configured") && db.Snapshot() == old(db.Snapshot())
    ensures secret.Some? && secret.value != "" && constructEvent(body, signature, secret.value).Rejected? ==>
      resp == Text(400, "Webhook Error: " + constructEvent(body, signature, secret.value).message)
      && db.Snapshot() == old(db.Snapshot())
    ensures secret.Some? && secret.value != "" && constructEvent(body, signature, secret.value).Verified? ==>
      Outcome(db.Snapshot(), resp) == Dispatch(old(db.Snapshot()), constructEvent(body, signature, secret.value).event, faults, now)
  {
    if secret.None? || secret.value == "" {
      return Text(500, "Webhook secret not configured");
    }
    var verification := constructEvent(body, signature, secret.value);
    if verification.Rejected? {
      return Text(400, "Webhook Error: " + verification.message);
    }
    var event := verification.event;

    if event.kind == "checkout.session.completed" {
      var session := event.obj;
      var debtorId := DebtorIdOf(session);
      if debtorId.Some? {
        var paymentError := db.InsertPayment(PaymentFor(debtorId.value, session), faults.payment);
        if paymentError.Some? {
          return DatabaseError;
        }
        var debtorError := db.SettleDebtorRow(debtorId.value, now, faults.debtor);
        if debtorError.Some? {
          return DatabaseError;
        }
      }
    } else if event.kind == "account.updated" {
      var account := event.obj;
      if account.detailsSubmitted {
        var merchantError := db.MarkOnboardedRows(account.id, faults.merchant);
        if merchantError.Some? {
          return DatabaseError;
        }
      }
    }
    return Received;
  }
}

/**
 * `GET /api/auth/callback`: the OAuth return. A non-empty `code` is
 * exchanged for a session; with a user the merchant row is reconciled
 * (by id, else by email with an unconditional rebind, else inserted with a
 * sample debtor) and the browser is sent to `next`, by default the
 * dashboard. A missing code or a failed exchange lands on the auth error
 * page. Errors of the reconciliation writes never change the redirect.
 *
 * The code exchange is an oracle; the database's answers are faults; the
 * id the database generates for the sample debtor is a parameter.
 */
module AuthCallback {
  import opened Js
  import opened Store
  import opened MerchantAccount

  /** The parts of the request URL the handler reads. */
  datatype CallbackRequest = CallbackRequest(origin: string, code: Option<string>, next: Option<string>)

  datatype Faults = Faults(rebind: Option<DbError>, merchantInsert: Option<DbError>, debtorInsert: Option<DbError>)

  /** The new tables, the redirect's location and the codes exchanged. */
  datatype Callbacked = Callbacked(tables: Tables, location: string, exchanged: seq<string>)

  const ErrorPath := "/auth/auth-code-error"
  const DefaultNext := "/dashboard"

  /** The sample debtor a new merchant is seeded with (lines 51-60). */
  function SampleDebtor(id: string, merchantId: string): Debtor {
    Debtor(id, merchantId, "John Sample", "john@example.com", 1250.0, "USD", "pending", None)
  }

  /** `searchParams.get('next') ?? '/dashboard'` */
  function NextPath(next: Option<string>): string {
    if next.Some? then next.value else DefaultNext
  }

  /** Lines 17-65: the merchant reconciliation and the seeding. */
  function Reconcile(t: Tables, u: AuthUser, strictness: int, floor: real, faults: Faults, sampleId: string): Tables {
    if MerchantById(t.merchants, u.id).Some? then t
    else if MerchantByEmail(t.merchants, u.email).Some? then
      if faults.rebind.None? then t.(merchants := RebindMerchant(t.merchants, u.email, u.id)) else t
    else if faults.merchantInsert.None? then
      var withMerchant := t.(merchants := t.merchants + [NewRow(u, strictness, floor)]);
      if faults.debtorInsert.None? then withMerchant.(debtors := t.debtors + [SampleDebtor(sampleId, u.id)])
      else withMerchant
    else t
  }

  function Callback(t: Tables, req: CallbackRequest, exchange: string -> Option<AuthUser>,
                    strictness: int, floor: real, faults: Faults, sampleId: string): Callbacked {
    var failed := Callbacked(t, req.origin + ErrorPath, []);
    if req.code.None? || req.code.value == "" then failed
    else
      var code := req.code.value;
      match exchange(code)
      case None => failed.(exchanged := [code])
      case Some(u) =>
        Callbacked(Reconcile(t, u, strictness, floor, faults, sampleId), req.origin + NextPath(req.next), [code])
  }

  // ---------------------------------------------------------------------
  // Properties
  // ---------------------------------------------------------------------

  /** A missing or empty code redirects to the error page without an
      exchange; a failed exchange redirects there too; neither writes. */
  lemma ErrorRedirect(t: Tables, req: CallbackRequest, exchange: string -> Option<AuthUser>,
                      strictness: int, floor: real, faults: Faults, sampleId: string)
    ensures var c := Callback(t, req, exchange, strictness, floor, faults, sampleId);
      && (req.code.None? || req.code == Some("") ==> c == Callbacked(t, req.origin + "/auth/auth-code-error", []))
      && (req.code.Some? && req.code.value != "" && exchange(req.code.value).None? ==>
            c == Callbacked(t, req.origin + "/auth/auth-code-error", [req.code.value]))
  {
  }

  /** A successful exchange redirects to `origin + next`, the dashboard
      when `next` is absent, whatever the reconciliation writes answer. */
  lemma SuccessRedirect(t: Tables, req: CallbackRequest, exchange: string -> Option<AuthUser>,
                        strictness: int, floor: real, faults: Faults, sampleId: string)
    requires req.code.Some? && req.code.value != "" && exchange(req.code.value).Some?
    ensures var c := Callback(t, req, exchange, strictness, floor, faults, sampleId);
      && c.location == req.origin + (if req.next.Some? then req.next.value else "/dashboard")
      && c.exchanged == [req.code.value]
      && forall f: Faults :: Callback(t, req, exchange, strictness, floor, f, sampleId).location == c.location
  {
  }

  /** A row found by id is left alone; a row found only by email has every
      row with that email rebound to the user's id, whether or not the ids
      already agree. Neither touches the debtors. */
  lemma ExistingMerchantRows(t: Tables, u: AuthUser, strictness: int, floor: real, faults: Faults, sampleId: string)
    ensures MerchantById(t.merchants, u.id).Some? ==> Reconcile(t, u, strictness, floor, faults, sampleId) == t
    ensures MerchantById(t.merchants, u.id).None? && MerchantByEmail(t.merchants, u.email).Some? ==>
      var r := Reconcile(t, u, strictness, floor, faults, sampleId);
      && r.debtors == t.debtors
      && r.merchants == (if faults.rebind.None? then RebindMerchant(t.merchants, u.email, u.id) else t.merchants)
  {
  }

  /** One sample debtor, owned by the new merchant, is seeded exactly when
      the new-merchant insert (and the seeding insert) succeed; every other
      path leaves the debtors as they were. */
  lemma SeedsOneSample(t: Tables, u: AuthUser, strictness: int, floor: real, faults: Faults, sampleId: string)
    ensures var r := Reconcile(t, u, strictness, floor, faults, sampleId);
      var inserting := MerchantById(t.merchants, u.id).None? && MerchantByEmail(t.merchants, u.email).None?;
      && (r.debtors != t.debtors <==> inserting && faults.merchantInsert.None? && faults.debtorInsert.None?)
      && (r.debtors != t.debtors ==>
            r.debtors == t.debtors + [SampleDebtor(sampleId, u.id)]
            && r.merchants == t.merchants + [NewRow(u, strictness, floor)]
            && r.debtors[|t.debtors|].merchantId == r.merchants[|t.merchants|].id)
      && |t.debtors| <= |r.debtors| <= |t.debtors| + 1
  {
    var inserting := MerchantById(t.merchants, u.id).None? && MerchantByEmail(t.merchants, u.email).None?;
    if inserting && faults.merchantInsert.None? && faults.debtorInsert.None? {
      var r := Reconcile(t, u, strictness, floor, faults, sampleId);
      assert |r.debtors| == |t.debtors| + 1;
    }
  }

  /** With no failed write the callback leaves the same merchant rows as
      `ensureMerchant`: its unconditional rebind changes nothing when the
      one row with the email already has the user's id. */
  lemma AgreesWithEnsureMerchant(t: Tables, u: AuthUser, strictness: int, floor: real, sampleId: string)
    ensures Reconcile(t, u, strictness, floor, Faults(None, None, None), sampleId).merchants ==
      Ensure(t, Some(u), strictness, floor, None, None).tables.merchants
  {
    var ms := t.merchants;
    if MerchantById(ms, u.id).None? && MerchantByEmail(ms, u.email).Some? && MerchantByEmail(ms, u.email).value.id == u.id {
      RebindNoOp(ms, u.email, u.id);
    }
  }

  /** Rebinding the one row with an email to the id it already has changes
      nothing. */
  lemma RebindNoOp(ms: seq<Merchant>, email: string, id: string)
    requires MerchantByEmail(ms, email).Some? && MerchantByEmail(ms, email).value.id == id
    ensures RebindMerchant(ms, email, id) == ms
  {
    var p := (m: Merchant) => m.email == email;
    var after := RebindMerchant(ms, email, id);
    forall i | 0 <= i < |ms|
      ensures after[i] == ms[i]
    {
      if ms[i].email == email {
        SingleIsOnly(ms, p, ms[i]);
      }
    }
  }

  // ---------------------------------------------------------------------
  // The handler
  // ---------------------------------------------------------------------

  method Get(db: Db, req: CallbackRequest, exchange: string -> Option<AuthUser>, faults: Faults, sampleId: string)
    returns (location: string, exchanged: seq<string>)
    modifies db
    ensures Callbacked(db.Snapshot(), location, exchanged) ==
      Callback(old(db.Snapshot()), req, exchange, db.defaultStrictness, db.defaultFloor, faults, sampleId)
  {
    var next := NextPath(req.next);
    exchanged := [];

    if req.code.Some? && req.code.value != "" {
      var code := req.code.value;
      exchanged := [code];
      var user := exchange(code);

      if user.Some? {
        var u := user.value;
        var merchant: Option<string> := None;
        var found := MerchantById(db.merchants, u.id);
        if found.Some? {
          merchant := Some(found.value.id);
        }

        if merchant.None? {
          var existingByEmail := MerchantByEmail(db.merchants, u.email);
          if existingByEmail.Some? {
            var _ := db.RebindMerchantRows(u.email, u.id, faults.rebind);
            merchant := Some(u.id);
          } else {
            var merchantError := db.InsertMerchant(NewRow(u, db.defaultStrictness, db.defaultFloor), faults.merchantInsert);
            if merchantError.None? {
              merchant := Some(u.id);
              var _ := db.InsertDebtor(SampleDebtor(sampleId, u.id), faults.debtorInsert);
            }
          }
        }

        return req.origin + next, exchanged;
      }
    }

    return req.origin + ErrorPath, exchanged;
  }
}

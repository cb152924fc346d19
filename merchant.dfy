/**
 * `ensureMerchant`: make sure the signed-in user has a merchant row. The
 * row is looked up by the user's id, then by the user's email (and its id
 * rebound to the user's when they differ), and otherwise inserted; a
 * unique-key conflict on the insert counts as success.
 *
 * The session lookup is the `user` parameter; the answers of the two
 * writes are the fault parameters. `Ensure` specifies the function and
 * `EnsureMerchant` is the function as written.
 */
module MerchantAccount {
  import opened Js
  import opened Store

  /** The fields of the auth user the reconciliation reads. */
  datatype AuthUser = AuthUser(id: string, email: string, fullName: Option<string>)

  datatype EnsureResult = Null | MerchantId(id: string) | Threw(message: string)

  datatype Ensured = Ensured(tables: Tables, result: EnsureResult)

  /** The Postgres error code of a unique-key violation. */
  const UniqueViolation := "23505"

  /** `user.user_metadata?.full_name || user.email?.split('@')[0] || 'New Merchant'` */
  function NameFallback(fullName: Option<string>, email: string): (name: string)
    ensures name != ""
    ensures fullName.Some? && fullName.value != "" ==> name == fullName.value
    ensures (fullName.None? || fullName.value == "") && BeforeFirst(email, '@') != "" ==>
      name == BeforeFirst(email, '@') && '@' !in name && StartsWith(email, name)
    ensures (fullName.None? || fullName.value == "") && BeforeFirst(email, '@') == "" ==> name == "New Merchant"
  {
    if fullName.Some? && fullName.value != "" then fullName.value
    else if BeforeFirst(email, '@') != "" then BeforeFirst(email, '@')
    else "New Merchant"
  }

  /** The row a new user gets, with the schema's column defaults. */
  function NewRow(u: AuthUser, strictness: int, floor: real): Merchant {
    NewMerchant(u.id, u.email, NameFallback(u.fullName, u.email), strictness, floor)
  }

  function Ensure(t: Tables, user: Option<AuthUser>, strictness: int, floor: real,
                  rebindFault: Option<DbError>, insertFault: Option<DbError>): Ensured {
    match user
    case None => Ensured(t, Null)
    case Some(u) =>
      match MerchantById(t.merchants, u.id)
      case Some(existing) => Ensured(t, MerchantId(existing.id))
      case None =>
        match MerchantByEmail(t.merchants, u.email)
        case Some(byEmail) =>
          if byEmail.id != u.id && rebindFault.None? then
            Ensured(t.(merchants := RebindMerchant(t.merchants, u.email, u.id)), MerchantId(u.id))
          else Ensured(t, MerchantId(u.id))
        case None =>
          match insertFault
          case None => Ensured(t.(merchants := t.merchants + [NewRow(u, strictness, floor)]), MerchantId(u.id))
          case Some(e) =>
            if e.code == UniqueViolation then Ensured(t, MerchantId(u.id))
            else Ensured(t, Threw("Failed to initialize merchant account: " + e.message))
  }

  // ---------------------------------------------------------------------
  // Properties
  // ---------------------------------------------------------------------

  /** No user: `null`, and nothing is written. */
  lemma NoUser(t: Tables, strictness: int, floor: real, rebindFault: Option<DbError>, insertFault: Option<DbError>)
    ensures Ensure(t, None, strictness, floor, rebindFault, insertFault) == Ensured(t, Null)
  {
  }

  /** Every result other than `null` and a thrown error is the user's own
      id, whichever branch produced it; `null` comes only from a missing
      user; only the rows of the `merchants` table change. */
  lemma ReturnsUserId(t: Tables, user: Option<AuthUser>, strictness: int, floor: real,
                      rebindFault: Option<DbError>, insertFault: Option<DbError>)
    ensures var e := Ensure(t, user, strictness, floor, rebindFault, insertFault);
      && (e.result.Null? <==> user.None?)
      && (e.result.MerchantId? ==> e.result.id == user.value.id)
      && e.tables == t.(merchants := e.tables.merchants)
  {
    if user.Some? {
      var u := user.value;
      if MerchantById(t.merchants, u.id).Some? {
        FoundById(t.merchants, u.id);
      }
    }
  }

  /** The row `.eq('id', id).single()` returns carries that id. */
  lemma FoundById(ms: seq<Merchant>, id: string)
    requires MerchantById(ms, id).Some?
    ensures MerchantById(ms, id).value.id == id
  {
    SingleWhere(ms, (m: Merchant) => m.id == id);
  }

  /** A row found by id is returned with no write; a row found by email is
      rebound to the user's id only when the ids differ. */
  lemma ExistingRows(t: Tables, u: AuthUser, strictness: int, floor: real,
                     rebindFault: Option<DbError>, insertFault: Option<DbError>)
    ensures MerchantById(t.merchants, u.id).Some? ==>
      Ensure(t, Some(u), strictness, floor, rebindFault, insertFault) == Ensured(t, MerchantId(u.id))
    ensures MerchantById(t.merchants, u.id).None? && MerchantByEmail(t.merchants, u.email).Some? ==>
      var e := Ensure(t, Some(u), strictness, floor, rebindFault, insertFault);
      && e.result == MerchantId(u.id)
      && (e.tables != t ==> MerchantByEmail(t.merchants, u.email).value.id != u.id)
      && (MerchantByEmail(t.merchants, u.email).value.id != u.id && rebindFault.None? ==>
            e.tables.merchants == RebindMerchant(t.merchants, u.email, u.id))
  {
    SingleWhere(t.merchants, (m: Merchant) => m.id == u.id);
  }

  /** No row by id or email: one row is appended, named by the fallback;
      a conflict on the insert still returns the id, any other error throws
      with the database's message. */
  lemma Inserted(t: Tables, u: AuthUser, strictness: int, floor: real,
                 rebindFault: Option<DbError>, insertFault: Option<DbError>)
    requires MerchantById(t.merchants, u.id).None? && MerchantByEmail(t.merchants, u.email).None?
    ensures var e := Ensure(t, Some(u), strictness, floor, rebindFault, insertFault);
      && (insertFault.None? ==>
            && e.result == MerchantId(u.id)
            && e.tables.merchants == t.merchants + [NewRow(u, strictness, floor)]
            && e.tables.merchants[|t.merchants|].name == NameFallback(u.fullName, u.email))
      && (insertFault.Some? ==> e.tables == t)
      && (insertFault.Some? && insertFault.value.code == "23505" ==> e.result == MerchantId(u.id))
      && (insertFault.Some? && insertFault.value.code != "23505" ==>
            e.result == Threw("Failed to initialize merchant account: " + insertFault.value.message))
  {
  }

  /** Keys unique by id and by email. */
  predicate UniqueKeys(ms: seq<Merchant>) {
    && (forall i, j :: 0 <= i < |ms| && 0 <= j < |ms| && ms[i].id == ms[j].id ==> i == j)
    && (forall i, j :: 0 <= i < |ms| && 0 <= j < |ms| && ms[i].email == ms[j].email ==> i == j)
  }

  /** With unique ids and emails and no failed write, the user's id names
      exactly one merchant row afterwards. */
  lemma Established(t: Tables, u: AuthUser, strictness: int, floor: real)
    requires UniqueKeys(t.merchants)
    ensures var e := Ensure(t, Some(u), strictness, floor, None, None);
      e.result == MerchantId(u.id) && MerchantById(e.tables.merchants, u.id).Some?
  {
    var ms := t.merchants;
    var byId := (m: Merchant) => m.id == u.id;
    var byEmail := (m: Merchant) => m.email == u.email;
    SingleWhere(ms, byId);
    if MerchantById(ms, u.id).None? {
      assert forall i :: 0 <= i < |ms| ==> ms[i].id != u.id;
      SingleWhere(ms, byEmail);
      var row := MerchantByEmail(ms, u.email);
      if row.Some? {
        var i :| 0 <= i < |ms| && ms[i] == row.value;
        var after := RebindMerchant(ms, u.email, u.id);
        assert forall j :: 0 <= j < |after| && after[j].id == u.id ==> j == i;
        SingleWhere(after, byId);
      } else {
        var after := ms + [NewRow(u, strictness, floor)];
        assert after[|ms|].id == u.id;
        assert forall j :: 0 <= j < |after| && after[j].id == u.id ==> j == |ms|;
        SingleWhere(after, byId);
      }
    }
  }

  // ---------------------------------------------------------------------
  // The function as written
  // ---------------------------------------------------------------------

  method EnsureMerchant(db: Db, user: Option<AuthUser>, rebindFault: Option<DbError>, insertFault: Option<DbError>)
    returns (result: EnsureResult)
    modifies db
    ensures Ensured(db.Snapshot(), result) ==
      Ensure(old(db.Snapshot()), user, db.defaultStrictness, db.defaultFloor, rebindFault, insertFault)
  {
    if user.None? {
      return Null;
    }
    var u := user.value;

    var existing := MerchantById(db.merchants, u.id);
    if existing.Some? {
      return MerchantId(existing.value.id);
    }

    var byEmail := MerchantByEmail(db.merchants, u.email);
    if byEmail.Some? {
      if byEmail.value.id != u.id {
        var _ := db.RebindMerchantRows(u.email, u.id, rebindFault);
      }
      return MerchantId(u.id);
    }

    var createError := db.InsertMerchant(NewMerchant(u.id, u.email, NameFallback(u.fullName, u.email),
                                                     db.defaultStrictness, db.defaultFloor), insertFault);
    if createError.Some? {
      if createError.value.code == UniqueViolation {
        return MerchantId(u.id);
      }
      return Threw("Failed to initialize merchant account: " + createError.value.message);
    }
    return MerchantId(u.id);
  }
}

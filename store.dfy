/**
 * The Supabase tables the handlers read and write. Rows are datatypes; a
 * table is a sequence of rows in insertion order; the database is the class
 * `Db`, whose writes each take the outcome the database reports (`fault`),
 * so that every handler can be followed along its error paths.
 *
 * Queries are pure functions over the tables. PostgREST's `.single()`
 * yields a row only when exactly one row matches, and an error (no data)
 * otherwise; `Single` models that.
 */
module Store {
  import opened Js

  datatype Merchant = Merchant(
    id: string,
    email: string,
    name: string,
    strictnessLevel: int,
    settlementFloor: real,
    stripeAccountId: Option<string>,
    stripeOnboardingComplete: bool)

  datatype Debtor = Debtor(
    id: string,
    merchantId: string,
    name: string,
    email: string,
    totalDebt: real,
    currency: string,
    status: string,
    lastContacted: Option<string>)

  datatype Payment = Payment(debtorId: string, amount: real, status: string, stripeSessionId: string)

  datatype Contract = Contract(
    id: string,
    merchantId: string,
    fileName: string,
    filePath: string,
    rawText: string,
    createdAt: int)

  datatype Embedding = Embedding(contractId: string, content: string, embedding: seq<real>)

  /** A row of the `conversations` table. */
  datatype Turn = Turn(debtorId: string, role: string, message: string)

  /** An object in the contracts storage bucket. */
  datatype StoredFile = StoredFile(bytes: seq<bv8>, contentType: string)

  /** The `{ code, message }` of a failed Supabase call. */
  datatype DbError = DbError(code: string, message: string)

  datatype Tables = Tables(
    merchants: seq<Merchant>,
    debtors: seq<Debtor>,
    payments: seq<Payment>,
    contracts: seq<Contract>,
    embeddings: seq<Embedding>,
    conversations: seq<Turn>,
    files: map<string, StoredFile>)

  // ---------------------------------------------------------------------
  // Queries
  // ---------------------------------------------------------------------

  /** The rows satisfying `p` (`.eq(column, value)`), in table order. */
  function Where<T(!new)>(rows: seq<T>, p: T -> bool): (r: seq<T>)
    ensures |r| <= |rows|
    ensures forall x :: x in r <==> x in rows && p(x)
    decreases |rows|
  {
    if rows == [] then []
    else (if p(rows[0]) then [rows[0]] else []) + Where(rows[1..], p)
  }

  /** The filter keeps every matching row as many times as it occurs and
      drops every other row. */
  lemma {:induction false} WhereCounts<T(!new)>(rows: seq<T>, p: T -> bool)
    ensures forall x :: multiset(Where(rows, p))[x] == if p(x) then multiset(rows)[x] else 0
    decreases |rows|
  {
    if rows != [] {
      WhereCounts(rows[1..], p);
      assert rows == [rows[0]] + rows[1..];
    }
  }

  /** `.single()`: the row when exactly one matched. */
  function Single<T>(rows: seq<T>): Option<T> {
    if |rows| == 1 then Some(rows[0]) else None
  }

  /** `.single()` after a filter gives a matching row, gives nothing when no
      row matches, and gives the row when it is the only match. */
  lemma {:induction false} SingleWhere<T(!new)>(rows: seq<T>, p: T -> bool)
    ensures Single(Where(rows, p)).Some? ==>
      Single(Where(rows, p)).value in rows && p(Single(Where(rows, p)).value)
    ensures (forall x :: x in rows ==> !p(x)) ==> Single(Where(rows, p)).None?
    ensures forall i :: 0 <= i < |rows| && p(rows[i]) && (forall j :: 0 <= j < |rows| && p(rows[j]) ==> j == i) ==>
      Single(Where(rows, p)) == Some(rows[i])
  {
    forall i | 0 <= i < |rows| && p(rows[i]) && (forall j :: 0 <= j < |rows| && p(rows[j]) ==> j == i)
      ensures Single(Where(rows, p)) == Some(rows[i])
    {
      OnlyMatch(rows, p, i);
    }
    if Where(rows, p) == [] {
      assert Single(Where(rows, p)).None?;
    } else {
      assert Where(rows, p)[0] in Where(rows, p);
    }
  }

  /** The row `.single()` returns is the only matching row. */
  lemma SingleIsOnly<T(!new)>(rows: seq<T>, p: T -> bool, x: T)
    requires Single(Where(rows, p)).Some? && x in rows && p(x)
    ensures x == Single(Where(rows, p)).value
  {
    assert x in Where(rows, p);
  }

  lemma {:induction false} OnlyMatch<T(!new)>(rows: seq<T>, p: T -> bool, i: nat)
    requires i < |rows| && p(rows[i])
    requires forall j :: 0 <= j < |rows| && p(rows[j]) ==> j == i
    ensures Where(rows, p) == [rows[i]]
    decreases |rows|
  {
    if i == 0 {
      assert forall x :: x in rows[1..] ==> !p(x) by {
        forall x | x in rows[1..] ensures !p(x) {
          var k :| 0 <= k < |rows[1..]| && rows[1..][k] == x;
          assert rows[k + 1] == x;
        }
      }
      NoneMatch(rows[1..], p);
    } else {
      assert !p(rows[0]);
      forall j | 0 <= j < |rows[1..]| && p(rows[1..][j]) ensures j == i - 1 {
        assert rows[1..][j] == rows[j + 1];
      }
      OnlyMatch(rows[1..], p, i - 1);
    }
  }

  lemma NoneMatch<T(!new)>(rows: seq<T>, p: T -> bool)
    requires forall x :: x in rows ==> !p(x)
    ensures Where(rows, p) == []
  {
    if Where(rows, p) != [] {
      assert Where(rows, p)[0] in Where(rows, p);
    }
  }

  function MerchantById(ms: seq<Merchant>, id: string): Option<Merchant> {
    Single(Where(ms, (m: Merchant) => m.id == id))
  }

  function MerchantByEmail(ms: seq<Merchant>, email: string): Option<Merchant> {
    Single(Where(ms, (m: Merchant) => m.email == email))
  }

  function DebtorById(ds: seq<Debtor>, id: string): Option<Debtor> {
    Single(Where(ds, (d: Debtor) => d.id == id))
  }

  /** The row an embedded `merchants(*)` join attaches to a debtor: the
      merchant whose primary key the debtor references, if any. */
  function MerchantOf(ms: seq<Merchant>, d: Debtor): (r: Option<Merchant>)
    ensures r.Some? ==> r.value in ms && r.value.id == d.merchantId
    ensures r.None? <==> forall m :: m in ms ==> m.id != d.merchantId
  {
    if ms == [] then None
    else if ms[0].id == d.merchantId then Some(ms[0])
    else MerchantOf(ms[1..], d)
  }

  /** A contract with the greatest `created_at` (the first such one in
      table order), or None for no contracts. */
  function Newest(cs: seq<Contract>): (r: Option<Contract>)
    ensures r.None? <==> cs == []
    ensures r.Some? ==> r.value in cs && forall c :: c in cs ==> c.createdAt <= r.value.createdAt
  {
    if cs == [] then None
    else match Newest(cs[1..])
      case None => Some(cs[0])
      case Some(c) => if cs[0].createdAt >= c.createdAt then Some(cs[0]) else Some(c)
  }

  /** `.eq('merchant_id', id).order('created_at', desc).limit(1).single()` */
  function LatestContract(cs: seq<Contract>, merchantId: string): (r: Option<Contract>)
    ensures r.Some? ==> r.value in cs && r.value.merchantId == merchantId
    ensures r.Some? ==> forall c :: c in cs && c.merchantId == merchantId ==> c.createdAt <= r.value.createdAt
    ensures r.None? <==> forall c :: c in cs ==> c.merchantId != merchantId
  {
    var mine := Where(cs, (c: Contract) => c.merchantId == merchantId);
    assert mine != [] ==> mine[0] in mine;
    Newest(mine)
  }

  // ---------------------------------------------------------------------
  // Updates: `.update(values).eq(column, value)` changes every matching row
  // ---------------------------------------------------------------------

  function Update<T>(rows: seq<T>, p: T -> bool, f: T -> T): (r: seq<T>)
    ensures |r| == |rows|
    ensures forall i :: 0 <= i < |rows| ==> r[i] == if p(rows[i]) then f(rows[i]) else rows[i]
  {
    seq(|rows|, i requires 0 <= i < |rows| => if p(rows[i]) then f(rows[i]) else rows[i])
  }

  /** Marks the debtor `id` settled at time `now`. */
  function SettleDebtor(ds: seq<Debtor>, id: string, now: string): (r: seq<Debtor>)
    ensures |r| == |ds|
    ensures forall i :: 0 <= i < |ds| && ds[i].id != id ==> r[i] == ds[i]
    ensures forall i :: 0 <= i < |ds| && ds[i].id == id ==>
      r[i] == ds[i].(status := "settled", lastContacted := Some(now))
  {
    Update(ds, (d: Debtor) => d.id == id, (d: Debtor) => d.(status := "settled", lastContacted := Some(now)))
  }

  /** Sets the onboarding flag of the merchants with Stripe account `account`. */
  function MarkOnboarded(ms: seq<Merchant>, account: string): (r: seq<Merchant>)
    ensures |r| == |ms|
    ensures forall i :: 0 <= i < |ms| && ms[i].stripeAccountId != Some(account) ==> r[i] == ms[i]
    ensures forall i :: 0 <= i < |ms| && ms[i].stripeAccountId == Some(account) ==>
      r[i] == ms[i].(stripeOnboardingComplete := true)
  {
    Update(ms, (m: Merchant) => m.stripeAccountId == Some(account),
      (m: Merchant) => m.(stripeOnboardingComplete := true))
  }

  /** Gives every merchant with email `email` the id `id`. */
  function RebindMerchant(ms: seq<Merchant>, email: string, id: string): (r: seq<Merchant>)
    ensures |r| == |ms|
    ensures forall i :: 0 <= i < |ms| && ms[i].email != email ==> r[i] == ms[i]
    ensures forall i :: 0 <= i < |ms| && ms[i].email == email ==> r[i] == ms[i].(id := id)
  {
    Update(ms, (m: Merchant) => m.email == email, (m: Merchant) => m.(id := id))
  }

  // ---------------------------------------------------------------------
  // The database
  // ---------------------------------------------------------------------

  /** The row `.insert({ id, email, name })` creates: the other columns
      take the schema's defaults, with no connected Stripe account. */
  function NewMerchant(id: string, email: string, name: string, strictness: int, floor: real): Merchant {
    Merchant(id, email, name, strictness, floor, None, false)
  }

  class Db {
    var merchants: seq<Merchant>
    var debtors: seq<Debtor>
    var payments: seq<Payment>
    var contracts: seq<Contract>
    var embeddings: seq<Embedding>
    var conversations: seq<Turn>
    var files: map<string, StoredFile>
    /** The column defaults the schema gives a new merchant row. */
    const defaultStrictness: int
    const defaultFloor: real

    constructor (t: Tables, defaultStrictness: int, defaultFloor: real)
      ensures Snapshot() == t
      ensures this.defaultStrictness == defaultStrictness && this.defaultFloor == defaultFloor
    {
      merchants := t.merchants;
      debtors := t.debtors;
      payments := t.payments;
      contracts := t.contracts;
      embeddings := t.embeddings;
      conversations := t.conversations;
      files := t.files;
      this.defaultStrictness := defaultStrictness;
      this.defaultFloor := defaultFloor;
    }

    function Snapshot(): Tables
      reads this
    {
      Tables(merchants, debtors, payments, contracts, embeddings, conversations, files)
    }

    method InsertPayment(p: Payment, fault: Option<DbError>) returns (err: Option<DbError>)
      modifies this
      ensures err == fault
      ensures Snapshot() == if fault.Some? then old(Snapshot()) else old(Snapshot()).(payments := old(payments) + [p])
    {
      err := fault;
      if fault.None? {
        payments := payments + [p];
      }
    }

    method InsertMerchant(m: Merchant, fault: Option<DbError>) returns (err: Option<DbError>)
      modifies this
      ensures err == fault
      ensures Snapshot() == if fault.Some? then old(Snapshot()) else old(Snapshot()).(merchants := old(merchants) + [m])
    {
      err := fault;
      if fault.None? {
        merchants := merchants + [m];
      }
    }

    method InsertDebtor(d: Debtor, fault: Option<DbError>) returns (err: Option<DbError>)
      modifies this
      ensures err == fault
      ensures Snapshot() == if fault.Some? then old(Snapshot()) else old(Snapshot()).(debtors := old(debtors) + [d])
    {
      err := fault;
      if fault.None? {
        debtors := debtors + [d];
      }
    }

    method InsertContract(c: Contract, fault: Option<DbError>) returns (err: Option<DbError>)
      modifies this
      ensures err == fault
      ensures Snapshot() == if fault.Some? then old(Snapshot()) else old(Snapshot()).(contracts := old(contracts) + [c])
    {
      err := fault;
      if fault.None? {
        contracts := contracts + [c];
      }
    }

    /** A batch insert: all rows or none. */
    method InsertEmbeddings(rows: seq<Embedding>, fault: Option<DbError>) returns (err: Option<DbError>)
      modifies this
      ensures err == fault
      ensures Snapshot() == if fault.Some? then old(Snapshot()) else old(Snapshot()).(embeddings := old(embeddings) + rows)
    {
      err := fault;
      if fault.None? {
        embeddings := embeddings + rows;
      }
    }

    method InsertTurns(rows: seq<Turn>, fault: Option<DbError>) returns (err: Option<DbError>)
      modifies this
      ensures err == fault
      ensures Snapshot() == if fault.Some? then old(Snapshot()) else old(Snapshot()).(conversations := old(conversations) + rows)
    {
      err := fault;
      if fault.None? {
        conversations := conversations + rows;
      }
    }

    /** A storage upload with `upsert: true`: an object already at `path` is
        replaced. */
    method Upsert(path: string, file: StoredFile, fault: Option<DbError>) returns (err: Option<DbError>)
      modifies this
      ensures err == fault
      ensures Snapshot() == if fault.Some? then old(Snapshot()) else old(Snapshot()).(files := old(files)[path := file])
    {
      err := fault;
      if fault.None? {
        files := files[path := file];
      }
    }

    method SettleDebtorRow(id: string, now: string, fault: Option<DbError>) returns (err: Option<DbError>)
      modifies this
      ensures err == fault
      ensures Snapshot() == if fault.Some? then old(Snapshot()) else old(Snapshot()).(debtors := SettleDebtor(old(debtors), id, now))
    {
      err := fault;
      if fault.None? {
        debtors := SettleDebtor(debtors, id, now);
      }
    }

    method MarkOnboardedRows(account: string, fault: Option<DbError>) returns (err: Option<DbError>)
      modifies this
      ensures err == fault
      ensures Snapshot() == if fault.Some? then old(Snapshot()) else old(Snapshot()).(merchants := MarkOnboarded(old(merchants), account))
    {
      err := fault;
      if fault.None? {
        merchants := MarkOnboarded(merchants, account);
      }
    }

    method RebindMerchantRows(email: string, id: string, fault: Option<DbError>) returns (err: Option<DbError>)
      modifies this
      ensures err == fault
      ensures Snapshot() == if fault.Some? then old(Snapshot()) else old(Snapshot()).(merchants := RebindMerchant(old(merchants), email, id))
    {
      err := fault;
      if fault.None? {
        merchants := RebindMerchant(merchants, email, id);
      }
    }
  }
}

/**
 * The merchant dashboard's logic: the outstanding and recovered totals
 * over the merchant's debtors, the settings form's conversion, and the
 * status label of each debtor row. The page's rendering is not modelled.
 */
module Dashboard {
  import opened Js
  import opened Store

  /** The seeded merchant the page shows. */
  const DummyMerchantId := "00000000-0000-0000-0000-000000000001"

  /** `.from('debtors').select('*').eq('merchant_id', DUMMY_MERCHANT_ID)`:
      the rows, or None when the query fails. */
  function MerchantDebtors(t: Tables, ok: bool): (r: Option<seq<Debtor>>)
    ensures r.Some? ==> forall d :: d in r.value <==> d in t.debtors && d.merchantId == DummyMerchantId
    ensures r.Some? ==> forall d :: multiset(r.value)[d] == if d.merchantId == DummyMerchantId then multiset(t.debtors)[d] else 0
    ensures r.None? <==> !ok
  {
    WhereCounts(t.debtors, (d: Debtor) => d.merchantId == DummyMerchantId);
    if ok then Some(Where(t.debtors, (d: Debtor) => d.merchantId == DummyMerchantId)) else None
  }

  // ---------------------------------------------------------------------
  // Totals (lines 61-62)
  // ---------------------------------------------------------------------

  /** The reducer's contribution of one row. */
  function Contribution(d: Debtor, status: string): real {
    if d.status == status then d.totalDebt else 0.0
  }

  /** `ds.reduce((acc, d) => acc + (d.status === status ? d.total_debt : 0), acc)` */
  function Reduce(ds: seq<Debtor>, status: string, acc: real): real
    decreases |ds|
  {
    if ds == [] then acc else Reduce(ds[1..], status, acc + Contribution(ds[0], status))
  }

  /** `debtors?.reduce(..., 0) || 0`: a failed query counts as 0. */
  function Total(debtors: Option<seq<Debtor>>, status: string): real {
    match debtors
    case None => 0.0
    case Some(ds) => Reduce(ds, status, 0.0)
  }

  function TotalOutstanding(debtors: Option<seq<Debtor>>): real { Total(debtors, "pending") }

  function TotalRecovered(debtors: Option<seq<Debtor>>): real { Total(debtors, "paid") }

  /** The reference definition: the sum of `total_debt` over the rows with
      the status. */
  function SumWithStatus(ds: seq<Debtor>, status: string): real
    decreases |ds|
  {
    if ds == [] then 0.0
    else (if ds[0].status == status then ds[0].totalDebt else 0.0) + SumWithStatus(ds[1..], status)
  }

  lemma {:induction false} ReduceIsSum(ds: seq<Debtor>, status: string, acc: real)
    ensures Reduce(ds, status, acc) == acc + SumWithStatus(ds, status)
    decreases |ds|
  {
    if ds != [] {
      ReduceIsSum(ds[1..], status, acc + Contribution(ds[0], status));
    }
  }

  /** The totals are the pending and the paid sums; no rows, or a failed
      query, give 0. */
  lemma TotalsAreSums(debtors: Option<seq<Debtor>>)
    ensures debtors.None? ==> TotalOutstanding(debtors) == 0.0 && TotalRecovered(debtors) == 0.0
    ensures debtors.Some? ==>
      TotalOutstanding(debtors) == SumWithStatus(debtors.value, "pending")
      && TotalRecovered(debtors) == SumWithStatus(debtors.value, "paid")
    ensures debtors == Some([]) ==> TotalOutstanding(debtors) == 0.0 && TotalRecovered(debtors) == 0.0
  {
    if debtors.Some? {
      ReduceIsSum(debtors.value, "pending", 0.0);
      ReduceIsSum(debtors.value, "paid", 0.0);
    }
  }

  lemma {:induction false} SumSplits(ds: seq<Debtor>, es: seq<Debtor>, status: string)
    ensures SumWithStatus(ds + es, status) == SumWithStatus(ds, status) + SumWithStatus(es, status)
    decreases |ds|
  {
    if ds == [] {
      assert ds + es == es;
    } else {
      assert (ds + es)[1..] == ds[1..] + es;
      SumSplits(ds[1..], es, status);
    }
  }

  /** A debtor that is neither pending nor paid, such as the "settled" one
      a payment produces, adds to neither total. */
  lemma SettledCountsNowhere(ds: seq<Debtor>, d: Debtor)
    requires d.status != "pending" && d.status != "paid"
    ensures TotalOutstanding(Some(ds + [d])) == TotalOutstanding(Some(ds))
    ensures TotalRecovered(Some(ds + [d])) == TotalRecovered(Some(ds))
  {
    TotalsAreSums(Some(ds + [d]));
    TotalsAreSums(Some(ds));
    SumSplits(ds, [d], "pending");
    SumSplits(ds, [d], "paid");
    assert [d][1..] == [];
  }

  /** Settling a debtor after its payment takes its debt out of the
      outstanding total and does not add it to the recovered total: both
      sums become those over the other debtors' rows. */
  lemma {:induction false} SettlingLeavesBothTotals(ds: seq<Debtor>, id: string, now: string, status: string)
    requires status == "pending" || status == "paid"
    ensures SumWithStatus(SettleDebtor(ds, id, now), status) == SumWithStatus(Where(ds, (d: Debtor) => d.id != id), status)
    decreases |ds|
  {
    if ds != [] {
      var settled := SettleDebtor(ds, id, now);
      assert settled[1..] == SettleDebtor(ds[1..], id, now);
      SettlingLeavesBothTotals(ds[1..], id, now, status);
      assert Where(ds, (d: Debtor) => d.id != id) ==
        (if ds[0].id != id then [ds[0]] else []) + Where(ds[1..], (d: Debtor) => d.id != id);
      SumSplits(if ds[0].id != id then [ds[0]] else [], Where(ds[1..], (d: Debtor) => d.id != id), status);
      if ds[0].id != id {
        assert [ds[0]][1..] == [];
      }
    }
  }

  // ---------------------------------------------------------------------
  // Settings (lines 49-55)
  // ---------------------------------------------------------------------

  /** The values forwarded to the settings update. */
  datatype Settings = Settings(strictnessLevel: Num, settlementFloor: Num)

  /** `formData.get(name) as string`: a missing field is `null`, which the
      parsers read as the text "null". */
  function FieldText(v: Option<string>): string {
    match v
    case None => "null"
    case Some(s) => s
  }

  function SettingsOf(strictness: Option<string>, settlement: Option<string>): (r: Settings)
    ensures r.strictnessLevel == ParseInt(FieldText(strictness))
    ensures ParseFloat(FieldText(settlement)).Finite? <==> r.settlementFloor.Finite?
    ensures r.settlementFloor.Finite? ==> r.settlementFloor.val * 100.0 == ParseFloat(FieldText(settlement)).val
  {
    Settings(ParseInt(FieldText(strictness)), DivNum(ParseFloat(FieldText(settlement)), 100.0))
  }

  /** Nothing clamps the strictness: any integer typed in is forwarded as
      it is, inside 1..10 or not. */
  lemma StrictnessNotClamped(n: int, settlement: Option<string>)
    ensures SettingsOf(Some(IntString(n)), settlement).strictnessLevel == Finite(n as real)
  {
    ParseIntDecimal(n);
  }

  /** A percentage typed as digits is forwarded divided by 100, with no
      bound: "150" becomes a floor of 1.5. */
  lemma FloorIsPercentOver100(digits: string, strictness: Option<string>)
    requires digits != [] && forall k :: 0 <= k < |digits| ==> IsDecimalDigit(digits[k])
    ensures SettingsOf(strictness, Some(digits)).settlementFloor == Finite(DigitsValue(digits, 10) as real / 100.0)
  {
    ParseFloatDigits(digits);
  }

  /** A missing or non-numeric strictness is forwarded as NaN. */
  lemma MissingStrictnessIsNaN(settlement: Option<string>)
    ensures SettingsOf(None, settlement).strictnessLevel == NaN
  {
    assert FieldText(None) == "null";
    assert !IsWhiteSpace('n') && !IsDecimalDigit('n');
  }

  // ---------------------------------------------------------------------
  // Status label (lines 241-242)
  // ---------------------------------------------------------------------

  function StatusLabel(status: string): string {
    if status == "pending" then "Recovering" else "Settled"
  }

  function BadgeClass(status: string): string {
    if status == "pending" then "badge-warning" else "badge-success"
  }

  /** "Recovering" exactly for pending debtors; every other status, the
      paid and the settled ones alike, is labelled "Settled". */
  lemma LabelIff(status: string)
    ensures StatusLabel(status) == "Recovering" <==> status == "pending"
    ensures StatusLabel(status) == "Settled" <==> status != "pending"
    ensures BadgeClass(status) == "badge-warning" <==> status == "pending"
  {
  }
}

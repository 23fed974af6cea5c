/**
 The transaction ledger: one record per row of the payment processor's export,
 already parsed. Money is held in integer cents, so every sum is exact.
 */
module Ledger {
  import opened Tally

  /** A cell that may be empty in the export. */
  datatype Option<+T> = None | Some(value: T)

  /** A calendar day. */
  datatype Date = Date(year: int, month: int, day: int)

  /** A parsed DATE cell: the calendar day plus the time elapsed since midnight
      (zero for the `YYYY-MM-DD` cells of the reformatted export). */
  datatype Timestamp = Timestamp(date: Date, clock: nat)

  /** The monetary columns of the ledger. */
  datatype Field =
    | Gross         // GROSS_AMOUNT
    | NetCredit     // NET_CREDIT_AMOUNT
    | NetDebit      // NET_DEBIT_AMOUNT
    | MpFee         // MP_FEE_AMOUNT, the processor's fee
    | FinancingFee  // FINANCING_FEE_AMOUNT
    | ShippingFee   // SHIPPING_FEE_AMOUNT
    | Taxes         // TAXES_AMOUNT
    | Coupon        // COUPON_AMOUNT

  /** One value, in cents, per monetary column. */
  datatype Amounts = Amounts(
    gross: int, netCredit: int, netDebit: int, mpFee: int,
    financingFee: int, shippingFee: int, taxes: int, coupon: int)
  {
    function Get(f: Field): int
    {
      match f
      case Gross => gross
      case NetCredit => netCredit
      case NetDebit => netDebit
      case MpFee => mpFee
      case FinancingFee => financingFee
      case ShippingFee => shippingFee
      case Taxes => taxes
      case Coupon => coupon
    }

    /** Column-wise addition. */
    function Plus(other: Amounts): (r: Amounts)
      ensures forall f: Field :: r.Get(f) == Get(f) + other.Get(f)
    {
      Amounts(
        gross + other.gross, netCredit + other.netCredit, netDebit + other.netDebit,
        mpFee + other.mpFee, financingFee + other.financingFee,
        shippingFee + other.shippingFee, taxes + other.taxes, coupon + other.coupon)
    }
  }

  const NoAmounts := Amounts(0, 0, 0, 0, 0, 0, 0, 0)

  /** One ledger row: DATE, DESCRIPTION, the monetary columns and PAYMENT_METHOD.
      An empty DATE cell parses to no timestamp (`None`). */
  datatype Record = Record(
    when: Option<Timestamp>,
    description: Option<string>,
    amounts: Amounts,
    paymentMethod: string)

  /** The record is dated on calendar day `d`, whatever its time of day. */
  predicate FallsOn(r: Record, d: Date)
  {
    r.when.Some? && r.when.value.date == d
  }

  /** The sum of column `f` over `rs`. */
  function SumOver(rs: seq<Record>, f: Field): int
  {
    if |rs| == 0 then 0 else rs[0].amounts.Get(f) + SumOver(rs[1..], f)
  }

  predicate IsDescribed(r: Record) { r.description.Some? }

  predicate IsUndescribed(r: Record) { r.description.None? }

  /** Records whose DESCRIPTION cell is filled in. */
  function Described(rs: seq<Record>): seq<Record>
  {
    Filter(rs, IsDescribed)
  }

  /** Records whose DESCRIPTION cell is empty. */
  function Undescribed(rs: seq<Record>): seq<Record>
  {
    Filter(rs, IsUndescribed)
  }

  predicate IsDated(r: Record) { r.when.Some? }

  predicate IsUndated(r: Record) { r.when.None? }

  /** Records whose DATE cell holds a timestamp. */
  function Dated(rs: seq<Record>): seq<Record>
  {
    Filter(rs, IsDated)
  }

  /** Records whose DATE cell is empty. */
  function Undated(rs: seq<Record>): seq<Record>
  {
    Filter(rs, IsUndated)
  }

  /** Sums add up across a concatenation. */
  lemma {:induction false} SumOverConcat(a: seq<Record>, b: seq<Record>, f: Field)
    ensures SumOver(a + b, f) == SumOver(a, f) + SumOver(b, f)
  {
    if |a| == 0 {
      assert a + b == b;
    } else {
      SumOverConcat(a[1..], b, f);
      assert (a + b)[1..] == a[1..] + b;
    }
  }

  /** Two complementary masks split a sum into the part one keeps and the part the other keeps. */
  lemma {:induction false} SumOverSplit(rs: seq<Record>, p: Record -> bool, q: Record -> bool, f: Field)
    requires forall r :: q(r) == !p(r)
    ensures SumOver(rs, f) == SumOver(Filter(rs, p), f) + SumOver(Filter(rs, q), f)
  {
    if |rs| > 0 {
      SumOverSplit(rs[1..], p, q, f);
      var h := if p(rs[0]) then [rs[0]] else [];
      var g := if q(rs[0]) then [rs[0]] else [];
      SumOverConcat(h, Filter(rs[1..], p), f);
      SumOverConcat(g, Filter(rs[1..], q), f);
    }
  }

  /** Every record is either described or not. */
  lemma SumOverDescribedSplit(rs: seq<Record>, f: Field)
    ensures SumOver(rs, f) == SumOver(Described(rs), f) + SumOver(Undescribed(rs), f)
  {
    SumOverSplit(rs, IsDescribed, IsUndescribed, f);
  }

  /** Sign facts: a sum of non-positive (zero, positive) terms is non-positive
      (zero, positive when there is at least one term). */
  lemma {:induction false} SumOverSign(rs: seq<Record>, f: Field)
    ensures (forall r :: r in rs ==> r.amounts.Get(f) <= 0) ==> SumOver(rs, f) <= 0
    ensures (forall r :: r in rs ==> r.amounts.Get(f) == 0) ==> SumOver(rs, f) == 0
    ensures (forall r :: r in rs ==> r.amounts.Get(f) > 0) && |rs| > 0 ==> SumOver(rs, f) > 0
  {
    if |rs| > 0 {
      assert forall r :: r in rs[1..] ==> r in rs;
      SumOverSign(rs[1..], f);
    }
  }

  /** Dropping records whose column `f` is zero leaves the sum of `f` unchanged. */
  lemma SumOverDropsZeros(rs: seq<Record>, p: Record -> bool, f: Field)
    requires forall r :: r in rs && !p(r) ==> r.amounts.Get(f) == 0
    ensures SumOver(Filter(rs, p), f) == SumOver(rs, f)
  {
    var q := (r: Record) => !p(r);
    SumOverSplit(rs, p, q, f);
    SumOverSign(Filter(rs, q), f);
  }

  /** Dropping records whose column `f` is not positive can only raise the sum of `f`. */
  lemma SumOverDropsNonPositive(rs: seq<Record>, p: Record -> bool, f: Field)
    requires forall r :: r in rs && !p(r) ==> r.amounts.Get(f) <= 0
    ensures SumOver(Filter(rs, p), f) >= SumOver(rs, f)
  {
    var q := (r: Record) => !p(r);
    SumOverSplit(rs, p, q, f);
    SumOverSign(Filter(rs, q), f);
  }
}

/**
 The per-date drill-down recomputed whenever a date is picked: the day's
 records, six scalar rollups over them, and four tables that each keep the
 records passing their own test and then sum one column per DESCRIPTION.
 */
module Drilldown {
  import opened Tally
  import opened Ledger
  import opened DailySummary

  /** The scalar rollups shown above the tables. */
  datatype Rollup = Rollup(
    transactions: nat,  // number of records on the day
    revenue: int,       // sum of NET_CREDIT_AMOUNT
    mpFee: int,         // sum of MP_FEE_AMOUNT
    shipFee: int,       // sum of SHIPPING_FEE_AMOUNT
    profit: int,        // revenue plus both fee sums
    taxes: int)         // both fees together

  /** Everything the drill-down shows for one selected date. */
  datatype Breakdown = Breakdown(
    rollup: Rollup,
    entries: map<string, int>,       // NET_CREDIT_AMOUNT > 0, per DESCRIPTION
    exits: map<string, int>,         // NET_DEBIT_AMOUNT > 0, per DESCRIPTION
    mpFees: map<string, int>,        // MP_FEE_AMOUNT != 0, per DESCRIPTION
    shippingFees: map<string, int>)  // SHIPPING_FEE_AMOUNT != 0, per DESCRIPTION

  /** The test a record must pass to enter a table. */
  datatype Inclusion = Positive | NonZero

  predicate Qualifies(r: Record, f: Field, incl: Inclusion)
  {
    match incl
    case Positive => r.amounts.Get(f) > 0
    case NonZero => r.amounts.Get(f) != 0
  }

  /** The records of `ledger` whose DATE falls on calendar day `d`, whatever
      their time of day; a record with an empty DATE falls on no day. */
  function OnDay(ledger: seq<Record>, d: Date): seq<Record>
  {
    Filter(ledger, (r: Record) => FallsOn(r, d))
  }

  /** The rest of the ledger: records of other days and undated records. */
  function OffDay(ledger: seq<Record>, d: Date): seq<Record>
  {
    Filter(ledger, (r: Record) => !FallsOn(r, d))
  }

  /** The records that pass the inclusion test on column `f`. */
  function Qualified(rs: seq<Record>, f: Field, incl: Inclusion): seq<Record>
  {
    Filter(rs, (r: Record) => Qualifies(r, f, incl))
  }

  /** The records whose DESCRIPTION is `d`. */
  function WithDescription(rs: seq<Record>, d: string): seq<Record>
  {
    Filter(rs, (r: Record) => r.description == Some(d))
  }

  /** Group-by-DESCRIPTION-and-sum of column `f`; records with an empty
      DESCRIPTION form no group and are dropped. */
  function GroupByDescription(rs: seq<Record>, f: Field): map<string, int>
  {
    if |rs| == 0 then map[]
    else
      var m := GroupByDescription(rs[1..], f);
      match rs[0].description
      case None => m
      case Some(d) => Bump(m, d, rs[0].amounts.Get(f))
  }

  /** A breakdown table: filter the day's records first, then group and sum. */
  function Table(day: seq<Record>, f: Field, incl: Inclusion): map<string, int>
  {
    GroupByDescription(Qualified(day, f, incl), f)
  }

  /** The drill-down for the date picked in the dropdown. */
  function UpdateDataTable(ledger: seq<Record>, selected: Timestamp): (b: Breakdown)
    ensures b.rollup.taxes == b.rollup.mpFee + b.rollup.shipFee
    ensures b.rollup.profit == b.rollup.revenue + b.rollup.taxes
  {
    var day := OnDay(ledger, selected.date);
    var revenue := SumOver(day, NetCredit);
    var mpfee := SumOver(day, MpFee);
    var shipfee := SumOver(day, ShippingFee);
    Breakdown(
      Rollup(|day|, revenue, mpfee, shipfee, revenue + mpfee + shipfee, mpfee + shipfee),
      Table(day, NetCredit, Positive),
      Table(day, NetDebit, Positive),
      Table(day, MpFee, NonZero),
      Table(day, ShippingFee, NonZero))
  }

  /** The day filter keeps every occurrence of each record dated on `d`, at
      any time of day, and nothing else. */
  lemma DayFilterExact(ledger: seq<Record>, d: Date)
    ensures forall r :: multiset(OnDay(ledger, d))[r] == if FallsOn(r, d) then multiset(ledger)[r] else 0
    ensures forall r :: r in OnDay(ledger, d) <==> r in ledger && r.when.Some? && r.when.value.date == d
  {
    FilterCount(ledger, (r: Record) => FallsOn(r, d));
  }

  /** The scalars account for the whole ledger: the day's count and sums plus
      those of the records left out (other days and undated rows) give the
      ledger's count and sums. */
  lemma RollupsPartition(ledger: seq<Record>, selected: Timestamp)
    ensures UpdateDataTable(ledger, selected).rollup.transactions + |OffDay(ledger, selected.date)| == |ledger|
    ensures UpdateDataTable(ledger, selected).rollup.revenue + SumOver(OffDay(ledger, selected.date), NetCredit)
            == SumOver(ledger, NetCredit)
    ensures UpdateDataTable(ledger, selected).rollup.mpFee + SumOver(OffDay(ledger, selected.date), MpFee)
            == SumOver(ledger, MpFee)
    ensures UpdateDataTable(ledger, selected).rollup.shipFee + SumOver(OffDay(ledger, selected.date), ShippingFee)
            == SumOver(ledger, ShippingFee)
    ensures UpdateDataTable(ledger, selected).rollup.profit
              + SumOver(OffDay(ledger, selected.date), NetCredit)
              + SumOver(OffDay(ledger, selected.date), MpFee)
              + SumOver(OffDay(ledger, selected.date), ShippingFee)
            == SumOver(ledger, NetCredit) + SumOver(ledger, MpFee) + SumOver(ledger, ShippingFee)
  {
    var d := selected.date;
    var on := (r: Record) => FallsOn(r, d);
    var off := (r: Record) => !FallsOn(r, d);
    FilterCountSplit(ledger, on, off);
    SumOverSplit(ledger, on, off, NetCredit);
    SumOverSplit(ledger, on, off, MpFee);
    SumOverSplit(ledger, on, off, ShippingFee);
  }

  /** The groups are exactly the filled-in descriptions of `rs`. */
  lemma {:induction false} GroupByDescriptionKeys(rs: seq<Record>, f: Field)
    ensures GroupByDescription(rs, f).Keys == set r | r in rs && r.description.Some? :: r.description.value
  {
    if |rs| > 0 {
      GroupByDescriptionKeys(rs[1..], f);
      assert rs == [rs[0]] + rs[1..];
    }
  }

  /** Each group holds the sum of `f` over exactly the records carrying that description. */
  lemma GroupByDescriptionValues(rs: seq<Record>, f: Field)
    ensures forall d :: d in GroupByDescription(rs, f) ==>
              GroupByDescription(rs, f)[d] == SumOver(WithDescription(rs, d), f)
  {
    forall d | d in GroupByDescription(rs, f)
      ensures GroupByDescription(rs, f)[d] == SumOver(WithDescription(rs, d), f)
    {
      GroupValueAt(rs, f, d);
    }
  }

  lemma {:induction false} GroupValueAt(rs: seq<Record>, f: Field, d: string)
    requires d in GroupByDescription(rs, f)
    ensures GroupByDescription(rs, f)[d] == SumOver(WithDescription(rs, d), f)
  {
    var rest := rs[1..];
    var m := GroupByDescription(rest, f);
    var w := WithDescription(rest, d);
    if rs[0].description == Some(d) {
      var a := rs[0].amounts.Get(f);
      assert GroupByDescription(rs, f) == Bump(m, d, a);
      assert WithDescription(rs, d) == [rs[0]] + w;
      assert ([rs[0]] + w)[1..] == w;
      assert SumOver(WithDescription(rs, d), f) == a + SumOver(w, f);
      if d in m {
        GroupValueAt(rest, f, d);
      } else {
        NoGroupNoRecords(rest, f, d);
      }
    } else {
      assert GroupByDescription(rs, f)[d] == m[d];
      assert WithDescription(rs, d) == w;
      GroupValueAt(rest, f, d);
    }
  }

  /** A description with no group has no record and so sums to zero. */
  lemma NoGroupNoRecords(rs: seq<Record>, f: Field, d: string)
    requires d !in GroupByDescription(rs, f)
    ensures SumOver(WithDescription(rs, d), f) == 0
  {
    GroupByDescriptionKeys(rs, f);
    assert forall r :: r in rs ==> r.description != Some(d);
    FilterNone(rs, (r: Record) => r.description == Some(d));
  }

  /** The groups together hold the sum of `f` over every described record. */
  lemma {:induction false} GroupByDescriptionTotal(rs: seq<Record>, f: Field)
    ensures MapTotal(GroupByDescription(rs, f)) == SumOver(Described(rs), f)
  {
    if |rs| > 0 {
      var rest := rs[1..];
      var m := GroupByDescription(rest, f);
      GroupByDescriptionTotal(rest, f);
      match rs[0].description
      case None =>
        assert Described(rs) == Described(rest);
      case Some(d) =>
        var a := rs[0].amounts.Get(f);
        assert Described(rs) == [rs[0]] + Described(rest);
        assert ([rs[0]] + Described(rest))[1..] == Described(rest);
        assert SumOver(Described(rs), f) == a + SumOver(Described(rest), f);
        MapTotalBump(m, d, a);
    }
  }

  /** Filtering on a column's test moves that column's sum in a known direction:
      a non-zero test drops only zeros, a positivity test drops only non-positive terms. */
  lemma QualifiedSum(rs: seq<Record>, f: Field, incl: Inclusion)
    ensures incl == NonZero ==> SumOver(Qualified(rs, f, incl), f) == SumOver(rs, f)
    ensures incl == Positive ==> SumOver(Qualified(rs, f, incl), f) >= SumOver(rs, f)
  {
    var p := (r: Record) => Qualifies(r, f, incl);
    if incl == NonZero {
      SumOverDropsZeros(rs, p, f);
    } else {
      SumOverDropsNonPositive(rs, p, f);
    }
  }

  /** A breakdown table's groups are the descriptions of the qualifying records
      of the day; each group sums `f` over those records only; under a
      positivity test every group is positive. */
  lemma TableExact(ledger: seq<Record>, day: Date, f: Field, incl: Inclusion)
    ensures Table(OnDay(ledger, day), f, incl).Keys ==
            set r | r in ledger && FallsOn(r, day) && Qualifies(r, f, incl) && r.description.Some? :: r.description.value
    ensures forall d :: d in Table(OnDay(ledger, day), f, incl) ==>
              Table(OnDay(ledger, day), f, incl)[d] == SumOver(WithDescription(Qualified(OnDay(ledger, day), f, incl), d), f)
    ensures incl == Positive ==>
              forall d :: d in Table(OnDay(ledger, day), f, incl) ==> Table(OnDay(ledger, day), f, incl)[d] > 0
  {
    var q := Qualified(OnDay(ledger, day), f, incl);
    var t := Table(OnDay(ledger, day), f, incl);
    GroupByDescriptionKeys(q, f);
    GroupByDescriptionValues(q, f);
    if incl == Positive {
      forall d | d in t
        ensures t[d] > 0
      {
        var r :| r in q && r.description.Some? && r.description.value == d;
        var w := WithDescription(q, d);
        assert r in w;
        SumOverSign(w, f);
      }
    }
  }

  /** A breakdown table adds up to the sum of `f` over the day's qualifying
      records that have a description. */
  lemma TableTotal(day: seq<Record>, f: Field, incl: Inclusion)
    ensures MapTotal(Table(day, f, incl)) == SumOver(Qualified(Described(day), f, incl), f)
  {
    GroupByDescriptionTotal(Qualified(day, f, incl), f);
    FilterCommutes(day, (r: Record) => Qualifies(r, f, incl), IsDescribed);
  }

  /** Entries: one row per description of a record of the day with a positive
      net credit, holding the positive sum of those credits alone; the table
      covers the day's revenue once undescribed records are counted back in. */
  lemma EntriesTable(ledger: seq<Record>, selected: Timestamp)
    ensures UpdateDataTable(ledger, selected).entries.Keys ==
            set r | r in ledger && FallsOn(r, selected.date) && r.amounts.netCredit > 0 && r.description.Some? :: r.description.value
    ensures forall d :: d in UpdateDataTable(ledger, selected).entries ==> UpdateDataTable(ledger, selected).entries[d] > 0
    ensures MapTotal(UpdateDataTable(ledger, selected).entries) + SumOver(Undescribed(OnDay(ledger, selected.date)), NetCredit)
            >= UpdateDataTable(ledger, selected).rollup.revenue
    ensures (forall r :: r in ledger && FallsOn(r, selected.date) ==> r.description.Some?) ==>
              MapTotal(UpdateDataTable(ledger, selected).entries) >= UpdateDataTable(ledger, selected).rollup.revenue
  {
    var day := OnDay(ledger, selected.date);
    TableExact(ledger, selected.date, NetCredit, Positive);
    TableTotal(day, NetCredit, Positive);
    QualifiedSum(Described(day), NetCredit, Positive);
    SumOverDescribedSplit(day, NetCredit);
    AllDescribedDay(ledger, selected.date, NetCredit);
  }

  /** Exits: one row per description of a record of the day with a positive
      net debit, holding the positive sum of those debits alone. */
  lemma ExitsTable(ledger: seq<Record>, selected: Timestamp)
    ensures UpdateDataTable(ledger, selected).exits.Keys ==
            set r | r in ledger && FallsOn(r, selected.date) && r.amounts.netDebit > 0 && r.description.Some? :: r.description.value
    ensures forall d :: d in UpdateDataTable(ledger, selected).exits ==> UpdateDataTable(ledger, selected).exits[d] > 0
  {
    TableExact(ledger, selected.date, NetDebit, Positive);
  }

  /** Processor fees: one row per description of a record of the day with a
      non-zero processor fee; with the undescribed records the table adds up
      to the processor-fee rollup exactly, because the records left out carry
      a zero fee. */
  lemma ProcessorFeeTable(ledger: seq<Record>, selected: Timestamp)
    ensures UpdateDataTable(ledger, selected).mpFees.Keys ==
            set r | r in ledger && FallsOn(r, selected.date) && r.amounts.mpFee != 0 && r.description.Some? :: r.description.value
    ensures MapTotal(UpdateDataTable(ledger, selected).mpFees) + SumOver(Undescribed(OnDay(ledger, selected.date)), MpFee)
            == UpdateDataTable(ledger, selected).rollup.mpFee
  {
    TableExact(ledger, selected.date, MpFee, NonZero);
    FeeTableAddsUp(ledger, selected.date, MpFee);
  }

  /** Shipping fees: the same as the processor-fee table, on the shipping fee column. */
  lemma ShippingFeeTable(ledger: seq<Record>, selected: Timestamp)
    ensures UpdateDataTable(ledger, selected).shippingFees.Keys ==
            set r | r in ledger && FallsOn(r, selected.date) && r.amounts.shippingFee != 0 && r.description.Some? :: r.description.value
    ensures MapTotal(UpdateDataTable(ledger, selected).shippingFees) + SumOver(Undescribed(OnDay(ledger, selected.date)), ShippingFee)
            == UpdateDataTable(ledger, selected).rollup.shipFee
  {
    TableExact(ledger, selected.date, ShippingFee, NonZero);
    FeeTableAddsUp(ledger, selected.date, ShippingFee);
  }

  /** When every record of the day is described, each fee table adds up to its
      rollup, and the two together to the taxes. */
  lemma FeeTablesMakeTaxes(ledger: seq<Record>, selected: Timestamp)
    requires forall r :: r in ledger && FallsOn(r, selected.date) ==> r.description.Some?
    ensures MapTotal(UpdateDataTable(ledger, selected).mpFees) == UpdateDataTable(ledger, selected).rollup.mpFee
    ensures MapTotal(UpdateDataTable(ledger, selected).shippingFees) == UpdateDataTable(ledger, selected).rollup.shipFee
    ensures MapTotal(UpdateDataTable(ledger, selected).mpFees) + MapTotal(UpdateDataTable(ledger, selected).shippingFees)
            == UpdateDataTable(ledger, selected).rollup.taxes
  {
    FeeTableAddsUp(ledger, selected.date, MpFee);
    FeeTableAddsUp(ledger, selected.date, ShippingFee);
    AllDescribedDay(ledger, selected.date, MpFee);
    AllDescribedDay(ledger, selected.date, ShippingFee);
  }

  /** A non-zero table plus the undescribed records gives the plain sum of the column over the day. */
  lemma FeeTableAddsUp(ledger: seq<Record>, d: Date, f: Field)
    ensures MapTotal(Table(OnDay(ledger, d), f, NonZero)) + SumOver(Undescribed(OnDay(ledger, d)), f)
            == SumOver(OnDay(ledger, d), f)
  {
    var day := OnDay(ledger, d);
    TableTotal(day, f, NonZero);
    QualifiedSum(Described(day), f, NonZero);
    SumOverDescribedSplit(day, f);
  }

  /** When every record of the day has a description, the day has no undescribed sum. */
  lemma AllDescribedDay(ledger: seq<Record>, d: Date, f: Field)
    ensures (forall r :: r in ledger && FallsOn(r, d) ==> r.description.Some?) ==>
              SumOver(Undescribed(OnDay(ledger, d)), f) == 0
  {
    if forall r :: r in ledger && FallsOn(r, d) ==> r.description.Some? {
      FilterNone(OnDay(ledger, d), IsUndescribed);
    }
  }

  /** A date with no records is not an error: it yields a zero count, zero
      rollups and four empty tables; and a zero count means no record is dated on that day. */
  lemma EmptyDay(ledger: seq<Record>, selected: Timestamp)
    ensures UpdateDataTable(ledger, selected).rollup.transactions == 0 <==>
            forall r :: r in ledger ==> !FallsOn(r, selected.date)
    ensures UpdateDataTable(ledger, selected).rollup.transactions == 0 ==>
              && UpdateDataTable(ledger, selected).rollup == Rollup(0, 0, 0, 0, 0, 0)
              && UpdateDataTable(ledger, selected).entries == map[]
              && UpdateDataTable(ledger, selected).exits == map[]
              && UpdateDataTable(ledger, selected).mpFees == map[]
              && UpdateDataTable(ledger, selected).shippingFees == map[]
  {
    var day := OnDay(ledger, selected.date);
    if forall r :: r in ledger ==> !FallsOn(r, selected.date) {
      FilterNone(ledger, (r: Record) => FallsOn(r, selected.date));
    } else {
      var r0 :| r0 in ledger && FallsOn(r0, selected.date);
      assert r0 in day;
    }
  }

  /** On a ledger whose DATE cells carry no time of day, the rollups of a date
      picked from the summary agree with that date's summary row. */
  lemma DrillDownMatchesSummary(ledger: seq<Record>, selected: Timestamp)
    requires forall r :: r in ledger && r.when.Some? ==> r.when.value.clock == 0
    requires selected in Summarize(ledger)
    ensures UpdateDataTable(ledger, selected).rollup.revenue == Summarize(ledger)[selected].netCredit
    ensures UpdateDataTable(ledger, selected).rollup.mpFee == Summarize(ledger)[selected].mpFee
    ensures UpdateDataTable(ledger, selected).rollup.shipFee == Summarize(ledger)[selected].shippingFee
  {
    SummaryRowIsDay(ledger, selected);
  }

  /** Without times of day, a summary row sums exactly the records of its calendar day. */
  lemma SummaryRowIsDay(ledger: seq<Record>, selected: Timestamp)
    requires forall r :: r in ledger && r.when.Some? ==> r.when.value.clock == 0
    requires selected in Summarize(ledger)
    ensures forall f: Field :: Summarize(ledger)[selected].Get(f) == SumOver(OnDay(ledger, selected.date), f)
  {
    SummaryExact(ledger);
    DayIsStamp(ledger, selected);
  }

  /** Without times of day, the records of a DATE present in the ledger are
      exactly the records of its calendar day. */
  lemma DayIsStamp(ledger: seq<Record>, selected: Timestamp)
    requires forall r :: r in ledger && r.when.Some? ==> r.when.value.clock == 0
    requires exists r :: r in ledger && r.when == Some(selected)
    ensures OnDay(ledger, selected.date) == AtStamp(ledger, selected)
  {
    var r0 :| r0 in ledger && r0.when == Some(selected);
    assert selected.clock == 0;
    forall r | r in ledger
      ensures FallsOn(r, selected.date) == (r.when == Some(selected))
    {
      if r.when.Some? {
        assert r.when.value.clock == 0;
      }
    }
    FilterCongruent(ledger, (r: Record) => FallsOn(r, selected.date), (r: Record) => r.when == Some(selected));
  }

  /** The summary rows dated on calendar day `d`, whatever their time of day. */
  function RowsOnDay(m: map<Timestamp, Amounts>, d: Date): map<Timestamp, Amounts>
  {
    map t | t in m && t.date == d :: m[t]
  }

  /** Summarizing only the day's records gives exactly the summary rows of that day. */
  lemma SummaryOfDay(ledger: seq<Record>, d: Date)
    ensures Summarize(OnDay(ledger, d)) == RowsOnDay(Summarize(ledger), d)
  {
    var day := OnDay(ledger, d);
    var inDay := (r: Record) => FallsOn(r, d);
    SummaryExact(ledger);
    SummaryExact(day);
    forall t | t in Summarize(day)
      ensures Summarize(day)[t] == Summarize(ledger)[t]
    {
      var r :| r in day && r.when == Some(t);
      var atT := (r: Record) => r.when == Some(t);
      FilterCommutes(ledger, inDay, atT);
      FilterAll(AtStamp(ledger, t), inDay);
      assert AtStamp(day, t) == AtStamp(ledger, t);
      AmountsByColumn(Summarize(day)[t], Summarize(ledger)[t]);
    }
  }

  /** Two amount rows that agree on every column are equal. */
  lemma AmountsByColumn(a: Amounts, b: Amounts)
    requires forall f: Field :: a.Get(f) == b.Get(f)
    ensures a == b
  {
    assert a.Get(Gross) == b.Get(Gross) && a.Get(NetCredit) == b.Get(NetCredit);
    assert a.Get(NetDebit) == b.Get(NetDebit) && a.Get(MpFee) == b.Get(MpFee);
    assert a.Get(FinancingFee) == b.Get(FinancingFee) && a.Get(ShippingFee) == b.Get(ShippingFee);
    assert a.Get(Taxes) == b.Get(Taxes) && a.Get(Coupon) == b.Get(Coupon);
  }

  /** Whatever the time of day of the DATE cells, the rollups of a date equal the
      totals of the summary rows falling on that calendar day. */
  lemma DrillDownAddsUpSummaryRows(ledger: seq<Record>, selected: Timestamp)
    ensures UpdateDataTable(ledger, selected).rollup.revenue
            == MapTotal(Column(RowsOnDay(Summarize(ledger), selected.date), NetCredit))
    ensures UpdateDataTable(ledger, selected).rollup.mpFee
            == MapTotal(Column(RowsOnDay(Summarize(ledger), selected.date), MpFee))
    ensures UpdateDataTable(ledger, selected).rollup.shipFee
            == MapTotal(Column(RowsOnDay(Summarize(ledger), selected.date), ShippingFee))
  {
    var day := OnDay(ledger, selected.date);
    FilterAll(day, IsDated);
    SummaryOfDay(ledger, selected.date);
    SummaryConservesSums(day, NetCredit);
    SummaryConservesSums(day, MpFee);
    SummaryConservesSums(day, ShippingFee);
  }
}

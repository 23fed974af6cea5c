/**
 Worked examples of the drill-down on small hand-written ledgers.
 */
module Scenarios {
  import opened Tally
  import opened Ledger
  import opened DailySummary
  import opened Drilldown

  const Jan1 := Date(2024, 1, 1)
  const Midnight := Timestamp(Jan1, 0)

  function Row(when: Timestamp, d: string, credit: int, mpFee: int): Record
  {
    Record(Some(when), Some(d), Amounts(credit, credit, 0, mpFee, 0, 0, 0, 0), "account_money")
  }

  const SaleA := Row(Midnight, "Sale A", 100, -5)
  const SaleB := Row(Midnight, "Sale B", 0, -3)
  const Refund := Row(Midnight, "Refund", -50, 0)

  /** A sale whose DATE cell is empty. */
  const Unstamped := Record(None, Some("Sale A"), Amounts(100, 100, 0, 0, 0, 0, 0, 0), "account_money")

  /** Only positive credits enter the entries table, only non-zero fees enter
      the fee table, and the rollups add everything up unfiltered. */
  lemma SignConvention()
    ensures var b := UpdateDataTable([SaleA, SaleB, Refund], Midnight);
            && b.entries == map["Sale A" := 100]
            && b.mpFees == map["Sale A" := -5, "Sale B" := -3]
            && b.rollup.revenue == 50
            && b.rollup.taxes == -8
            && b.rollup.profit == 42
  {
    var l := [SaleA, SaleB, Refund];
    FilterAll(l, (r: Record) => FallsOn(r, Jan1));
    assert OnDay(l, Jan1) == l;
    SignConventionSums();
    SignConventionTables();
  }

  lemma SignConventionSums()
    ensures SumOver([SaleA, SaleB, Refund], NetCredit) == 50
    ensures SumOver([SaleA, SaleB, Refund], MpFee) == -8
    ensures SumOver([SaleA, SaleB, Refund], ShippingFee) == 0
  {
    var l := [SaleA, SaleB, Refund];
    assert l[1..] == [SaleB, Refund] && [SaleB, Refund][1..] == [Refund] && [Refund][1..] == [];
    SumOverSign(l, ShippingFee);
    assert SumOver([Refund], NetCredit) == -50 && SumOver([Refund], MpFee) == 0;
    assert SumOver([SaleB, Refund], NetCredit) == -50 && SumOver([SaleB, Refund], MpFee) == -3;
  }

  lemma SignConventionTables()
    ensures Table([SaleA, SaleB, Refund], NetCredit, Positive) == map["Sale A" := 100]
    ensures Table([SaleA, SaleB, Refund], MpFee, NonZero) == map["Sale A" := -5, "Sale B" := -3]
  {
    var l := [SaleA, SaleB, Refund];
    assert l[1..] == [SaleB, Refund] && [SaleB, Refund][1..] == [Refund] && [Refund][1..] == [];
    assert Qualified([Refund], NetCredit, Positive) == [] && Qualified([SaleB, Refund], NetCredit, Positive) == [];
    assert Qualified(l, NetCredit, Positive) == [SaleA];
    assert [SaleA][1..] == [];
    assert GroupByDescription([SaleA], NetCredit) == map["Sale A" := 100];
    assert Qualified([Refund], MpFee, NonZero) == [] && Qualified([SaleB, Refund], MpFee, NonZero) == [SaleB];
    assert Qualified(l, MpFee, NonZero) == [SaleA, SaleB];
    assert [SaleA, SaleB][1..] == [SaleB];
    assert GroupByDescription([SaleB], MpFee) == map["Sale B" := -3];
  }

  /** Two same-day records with one description collapse into one row. */
  lemma SameDescriptionReaggregates()
    ensures UpdateDataTable([Row(Midnight, "Sale A", 100, 0), Row(Midnight, "Sale A", 50, 0)], Midnight).entries
            == map["Sale A" := 150]
  {
    var a, b := Row(Midnight, "Sale A", 100, 0), Row(Midnight, "Sale A", 50, 0);
    var l := [a, b];
    assert l[1..] == [b] && [b][1..] == [];
    FilterAll(l, (r: Record) => FallsOn(r, Jan1));
    FilterAll(l, (r: Record) => Qualifies(r, NetCredit, Positive));
    assert GroupByDescription([b], NetCredit) == map["Sale A" := 50];
  }

  /** A record stamped 15:30 on 2024-01-01 belongs to that day. */
  lemma TimeOfDayIgnored()
    ensures UpdateDataTable([Row(Timestamp(Jan1, 15 * 3600 + 30 * 60), "Sale A", 100, 0)], Midnight).rollup.transactions == 1
  {
  }

  /** A record with an empty DATE cell reaches neither the summary nor the
      selected day, yet it still belongs to the ledger's column sums. */
  lemma UndatedRowDropped()
    ensures Summarize([SaleA, Unstamped]) == map[Midnight := SaleA.amounts]
    ensures UpdateDataTable([SaleA, Unstamped], Midnight).rollup.transactions == 1
    ensures UpdateDataTable([SaleA, Unstamped], Midnight).entries == map["Sale A" := 100]
  {
    var l := [SaleA, Unstamped];
    assert l[1..] == [Unstamped] && [Unstamped][1..] == [];
    assert Summarize([Unstamped]) == map[];
    assert NoAmounts.Plus(SaleA.amounts) == SaleA.amounts;
    assert FallsOn(SaleA, Jan1) && !FallsOn(Unstamped, Jan1);
    assert OnDay([Unstamped], Jan1) == [];
    assert OnDay(l, Jan1) == [SaleA];
    assert [SaleA][1..] == [];
    assert Qualified([SaleA], NetCredit, Positive) == [SaleA];
    assert GroupByDescription([], NetCredit) == map[];
    assert GroupByDescription([SaleA], NetCredit) == map["Sale A" := 100];
  }
}

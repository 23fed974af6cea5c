/**
 The daily summary behind the trend charts: the ledger grouped by its DATE
 column, every monetary column summed per group. DATE holds a parsed
 timestamp, so the grouping key is the whole timestamp, time of day included.
 A record with an empty DATE cell has no key and is left out of every group.
 */
module DailySummary {
  import opened Tally
  import opened Ledger

  /** The records whose DATE cell equals `t` exactly. */
  function AtStamp(rs: seq<Record>, t: Timestamp): seq<Record>
  {
    Filter(rs, (r: Record) => r.when == Some(t))
  }

  /** Group-by-DATE-and-sum: one row per distinct DATE value of the ledger. */
  function Summarize(rs: seq<Record>): map<Timestamp, Amounts>
  {
    if |rs| == 0 then map[]
    else
      var m := Summarize(rs[1..]);
      match rs[0].when
      case None => m
      case Some(t) => m[t := (if t in m then m[t] else NoAmounts).Plus(rs[0].amounts)]
  }

  /** The summary has exactly one row per distinct DATE of the ledger, and each
      row holds, for every column, the sum over exactly the records with that DATE. */
  lemma {:induction false} SummaryExact(rs: seq<Record>)
    ensures Summarize(rs).Keys == set r | r in rs && r.when.Some? :: r.when.value
    ensures forall t, f: Field :: t in Summarize(rs) ==> Summarize(rs)[t].Get(f) == SumOver(AtStamp(rs, t), f)
  {
    if |rs| > 0 {
      var rest := rs[1..];
      SummaryExact(rest);
      var m := Summarize(rest);
      var w0 := rs[0].when;
      assert rs == [rs[0]] + rest;
      forall t, f: Field | t in Summarize(rs)
        ensures Summarize(rs)[t].Get(f) == SumOver(AtStamp(rs, t), f)
      {
        var h := if w0 == Some(t) then [rs[0]] else [];
        assert AtStamp(rs, t) == h + AtStamp(rest, t);
        SumOverConcat(h, AtStamp(rest, t), f);
        if w0 == Some(t) && t !in m {
          assert forall r :: r in rest ==> r.when != Some(t);
          FilterNone(rest, (r: Record) => r.when == Some(t));
        }
      }
    }
  }

  /** On a ledger whose DATE cells carry no time of day (the reformatted
      export), the summary has exactly one row per calendar day present. */
  lemma SummaryOneRowPerDay(rs: seq<Record>)
    requires forall r :: r in rs && r.when.Some? ==> r.when.value.clock == 0
    ensures (set t | t in Summarize(rs) :: t.date) == set r | r in rs && r.when.Some? :: r.when.value.date
    ensures forall t1, t2 :: t1 in Summarize(rs) && t2 in Summarize(rs) && t1.date == t2.date ==> t1 == t2
  {
    SummaryExact(rs);
  }

  /** One monetary column of the summary, as a DATE-to-cents table. */
  function Column(m: map<Timestamp, Amounts>, f: Field): map<Timestamp, int>
  {
    map t | t in m :: m[t].Get(f)
  }

  /** Summing a column over all summary rows gives that column's sum over the
      dated records: grouping neither loses nor double-counts one of them. The
      undated records make up the rest of the ledger's sum. */
  lemma SummaryConservesSums(rs: seq<Record>, f: Field)
    ensures MapTotal(Column(Summarize(rs), f)) == SumOver(Dated(rs), f)
    ensures MapTotal(Column(Summarize(rs), f)) + SumOver(Undated(rs), f) == SumOver(rs, f)
  {
    SummaryTotal(rs, f);
    SumOverSplit(rs, IsDated, IsUndated, f);
  }

  lemma {:induction false} SummaryTotal(rs: seq<Record>, f: Field)
    ensures MapTotal(Column(Summarize(rs), f)) == SumOver(Dated(rs), f)
  {
    if |rs| > 0 {
      var rest := rs[1..];
      SummaryTotal(rest, f);
      var m := Summarize(rest);
      match rs[0].when
      case None =>
        assert Dated(rs) == Dated(rest);
      case Some(t) =>
        var a := rs[0].amounts.Get(f);
        assert Dated(rs) == [rs[0]] + Dated(rest);
        assert ([rs[0]] + Dated(rest))[1..] == Dated(rest);
        assert SumOver(Dated(rs), f) == a + SumOver(Dated(rest), f);
        ColumnAdd(m, t, rs[0].amounts, f);
        MapTotalBump(Column(m, f), t, a);
    }
  }

  /** Adding one record to the summary bumps one cell of each column. */
  lemma ColumnAdd(m: map<Timestamp, Amounts>, t: Timestamp, a: Amounts, f: Field)
    ensures Column(m[t := (if t in m then m[t] else NoAmounts).Plus(a)], f)
         == Bump(Column(m, f), t, a.Get(f))
  {
  }
}

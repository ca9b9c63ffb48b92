/** The three analyses of the dashboard all run on the cleaned table; these
    lemmas carry the cleaning guarantees over to them. */
module Dashboard {
  import opened Wrappers
  import opened Sequences
  import opened Transactions
  import opened Cleaning
  import opened Basket
  import opened Density

  lemma {:induction false} CleanedRowsAreDated(t: Table)
    ensures forall i :: 0 <= i < |Clean(t)| ==> Clean(t)[i].date.Some?
  {
    forall i | 0 <= i < |Clean(t)| ensures Clean(t)[i].date.Some? {
      CleanedRowsPassFilters(t, Clean(t)[i]);
    }
  }

  /** On the cleaned table the heatmap and the hourly trend each add up to
      the number of cleaned rows that name a product. */
  lemma {:induction false} CleanedCountsAddUp(t: Table, weekday: Stamp -> Weekday)
    ensures SumCounts(Heatmap(Clean(t), weekday), Cross(AllDays, AllShifts)) == ProductCount(Clean(t))
    ensures SumCounts(HourlyTrend(Clean(t)), HoursFrom(0)) == ProductCount(Clean(t))
  {
    CleanedRowsAreDated(t);
    HeatmapCountsAllProducts(Clean(t), weekday);
    HourlyTrendCountsAllProducts(Clean(t));
  }

  /** No basket of the cleaned table falls in the closed period, and no
      excluded product is a column of the basket matrix. */
  lemma {:induction false} BasketsAvoidClosedPeriodAndExclusions(t: Table)
    ensures forall d :: d in BasketSets(Clean(t)).baskets ==> IsOpenPeriod(Some(d))
    ensures forall p :: p in BasketSets(Clean(t)).items ==> p !in ExcludedProducts
  {
    var rows := Clean(t);
    forall d, p | HasKey(rows, CellOf, (d, p)) ensures IsOpenPeriod(Some(d)) && p !in ExcludedProducts {
      CellPassesFilters(t, d, p);
    }
  }

  lemma {:induction false} CellPassesFilters(t: Table, d: Stamp, p: string)
    requires HasKey(Clean(t), CellOf, (d, p))
    ensures IsOpenPeriod(Some(d)) && p !in ExcludedProducts
  {
    var rows := Clean(t);
    var i :| 0 <= i < |rows| && CellOf(rows[i]) == Some((d, p));
    CleanedRowsPassFilters(t, rows[i]);
  }
}

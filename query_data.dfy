/** The QueryData request: select the KPI's rows in the date window, order
    them by value in the KPI's direction, and rank the first ten. */
module AzureFunction {
  import opened StockRecords
  import opened PriceOrder
  import opened TableQuery
  import opened Ranking
  import opened DistinctRanking

  /** The records of the request, in the order the ranking reads them. */
  function SortedRecords(table: seq<StockInfo>, kpi: string, startDate: int, endDate: int): seq<Tick>
  {
    OrderByPrice(Query(table, kpi, startDate, endDate), DirectionOf(kpi))
  }

  /** The response of the service for a table, a request and a name table. */
  function Response(table: seq<StockInfo>, kpi: string, startDate: int, endDate: int,
                    names: map<string, string>): Result<seq<KpiInfo>>
  {
    Ranked(SortedRecords(table, kpi, startDate, endDate), names)
  }

  /** The request handler, with the table passed in instead of read from
      storage. */
  method Run(table: seq<StockInfo>, kpi: string, startDate: int, endDate: int)
    returns (res: Result<seq<KpiInfo>>)
    ensures res == Response(table, kpi, startDate, endDate, COMPANIES)
  {
    var kpiList := Query(table, kpi, startDate, endDate);
    kpiList := OrderByPrice(kpiList, DirectionOf(kpi));
    res := RankTop(kpiList, COMPANIES);
  }

  /** The response is the ranking of the one ordering of the selected records
      that is sorted in the KPI's direction and keeps equal values in table
      order. */
  lemma ResponseRanksStableSort(table: seq<StockInfo>, kpi: string, startDate: int, endDate: int,
                                names: map<string, string>, sorted: seq<Tick>)
    requires Sorted(sorted, DirectionOf(kpi))
    requires forall v :: WithPrice(sorted, v) == WithPrice(Query(table, kpi, startDate, endDate), v)
    ensures Response(table, kpi, startDate, endDate, names) == Ranked(sorted, names)
  {
    StableSortIsUnique(Query(table, kpi, startDate, endDate), DirectionOf(kpi), sorted);
  }

  /** At most ten entries, ranked 1, 2, ..., k, with values in the KPI's
      direction: non-decreasing for "low" and "price to earn ratio",
      non-increasing otherwise. */
  lemma ResponseOrdered(table: seq<StockInfo>, kpi: string, startDate: int, endDate: int,
                        names: map<string, string>)
    ensures var r := Response(table, kpi, startDate, endDate, names);
      r.Success? ==>
        |r.value| == TopCount(|Query(table, kpi, startDate, endDate)|) &&
        (forall i :: 0 <= i < |r.value| ==> r.value[i].rank == i + 1) &&
        forall i, j :: 0 <= i < j < |r.value| ==> InOrder(DirectionOf(kpi), r.value[i].value, r.value[j].value)
  {
    var sorted := SortedRecords(table, kpi, startDate, endDate);
    var r := Response(table, kpi, startDate, endDate, names);
    assert |sorted| == |multiset(sorted)| == |Query(table, kpi, startDate, endDate)|;
    if r.Success? {
      forall i, j | 0 <= i < j < |r.value|
        ensures InOrder(DirectionOf(kpi), r.value[i].value, r.value[j].value)
      {
        assert r.value[i].value == sorted[i].price && r.value[j].value == sorted[j].price;
      }
    }
  }

  /** Entries with equal values appear in the order of their rows in the
      table. */
  lemma ResponseKeepsTieOrder(table: seq<StockInfo>, kpi: string, startDate: int, endDate: int,
                              names: map<string, string>, v: real)
    ensures var r := Response(table, kpi, startDate, endDate, names);
      r.Success? ==>
        WithPrice(seq(|r.value|, i requires 0 <= i < |r.value| => Tick(r.value[i].symbol, r.value[i].value)), v)
        <= WithPrice(Query(table, kpi, startDate, endDate), v)
  {
    var selected := Query(table, kpi, startDate, endDate);
    var sorted := SortedRecords(table, kpi, startDate, endDate);
    var r := Response(table, kpi, startDate, endDate, names);
    if r.Success? {
      var top := seq(|r.value|, i requires 0 <= i < |r.value| => Tick(r.value[i].symbol, r.value[i].value));
      assert top == sorted[..|r.value|];
      WithPricePrefix(sorted, |r.value|, v);
      SortKeepsTies(selected, DirectionOf(kpi), v);
    }
  }

  /** Every entry carries the symbol and value of a row of the requested KPI
      dated inside the window. */
  lemma ResponseFromSelectedRows(table: seq<StockInfo>, kpi: string, startDate: int, endDate: int,
                                 names: map<string, string>, k: nat)
    ensures var r := Response(table, kpi, startDate, endDate, names);
      r.Success? && k < |r.value| ==>
        exists i :: 0 <= i < |table| && Selected(table[i], kpi, startDate, endDate) &&
          table[i].symbol == r.value[k].symbol && table[i].price == r.value[k].value
  {
    var selected := Query(table, kpi, startDate, endDate);
    var sorted := SortedRecords(table, kpi, startDate, endDate);
    var r := Response(table, kpi, startDate, endDate, names);
    if r.Success? && k < |r.value| {
      var t := sorted[k];
      assert t in multiset(sorted);
      assert t in selected;
      QueryMembers(table, kpi, startDate, endDate, t);
    }
  }

  /** Rows of other KPIs or outside the window never change the response,
      wherever they stand in the table. */
  lemma ResponseIgnoresUnselected(before: seq<StockInfo>, other: seq<StockInfo>, after: seq<StockInfo>,
                                  kpi: string, startDate: int, endDate: int, names: map<string, string>)
    requires forall i :: 0 <= i < |other| ==> !Selected(other[i], kpi, startDate, endDate)
    ensures Response(before + other + after, kpi, startDate, endDate, names)
         == Response(before + after, kpi, startDate, endDate, names)
  {
    QueryDropsUnselected(before, other, after, kpi, startDate, endDate);
  }

  /** A table with no row of the KPI in the window gives an empty response. */
  lemma EmptySelectionGivesEmptyResponse(table: seq<StockInfo>, kpi: string, startDate: int, endDate: int,
                                         names: map<string, string>)
    requires forall i :: 0 <= i < |table| ==> !Selected(table[i], kpi, startDate, endDate)
    ensures Response(table, kpi, startDate, endDate, names) == Success([])
  {
    QueryUnselected(table, kpi, startDate, endDate);
    assert SortedRecords(table, kpi, startDate, endDate) == [];
  }

  /** Two rows of one company both reach the response: the added-companies
      dictionary is never filled, so nothing is skipped. */
  lemma RepeatedSymbolIsNotSkipped()
    ensures var r := Response([StockInfo("high", "dx", 3, 7.0), StockInfo("high", "dx", 4, 5.0)],
                              "high", 1, 5, COMPANIES);
      r == Success([KpiInfo(1, "dx", "Dynex Capital Inc", 7.0), KpiInfo(2, "dx", "Dynex Capital Inc", 5.0)])
  {
    RepeatedRowsQuery();
    RepeatedTicksSorted();
    RepeatedTicksRankedTwice();
  }

  lemma RepeatedRowsQuery()
    ensures Query([StockInfo("high", "dx", 3, 7.0), StockInfo("high", "dx", 4, 5.0)], "high", 1, 5)
         == [Tick("dx", 7.0), Tick("dx", 5.0)]
  {
    var table := [StockInfo("high", "dx", 3, 7.0), StockInfo("high", "dx", 4, 5.0)];
    assert table[1..] == [StockInfo("high", "dx", 4, 5.0)];
    assert Query(table[1..][1..], "high", 1, 5) == [];
  }

  lemma RepeatedTicksSorted()
    ensures OrderByPrice([Tick("dx", 7.0), Tick("dx", 5.0)], Descending) == [Tick("dx", 7.0), Tick("dx", 5.0)]
  {
    var ticks := [Tick("dx", 7.0), Tick("dx", 5.0)];
    assert ticks[1..][1..] == [];
  }

  lemma RepeatedTicksRankedTwice()
    ensures Ranked([Tick("dx", 7.0), Tick("dx", 5.0)], COMPANIES)
         == Success([KpiInfo(1, "dx", "Dynex Capital Inc", 7.0), KpiInfo(2, "dx", "Dynex Capital Inc", 5.0)])
  {
    var r := Ranked([Tick("dx", 7.0), Tick("dx", 5.0)], COMPANIES);
    assert r.Success?;
    assert r.value == [KpiInfo(1, "dx", "Dynex Capital Inc", 7.0), KpiInfo(2, "dx", "Dynex Capital Inc", 5.0)];
  }

  /** The first of the ten ranked records without a display name makes the
      request fail; a symbol ranked past the tenth is never looked up. */
  lemma UnknownSymbolFails(table: seq<StockInfo>, kpi: string, startDate: int, endDate: int, k: nat)
    requires var sorted := SortedRecords(table, kpi, startDate, endDate);
      k < TopCount(|sorted|) && sorted[k].symbol !in COMPANIES &&
      forall j :: 0 <= j < k ==> sorted[j].symbol in COMPANIES
    ensures Response(table, kpi, startDate, endDate, COMPANIES)
         == Failure(KeyNotFound(SortedRecords(table, kpi, startDate, endDate)[k].symbol))
  {
    var sorted := SortedRecords(table, kpi, startDate, endDate);
    assert FirstUnnamed(sorted, COMPANIES) == k;
  }

  /** The response the comments of the service describe: one entry per
      company, with its best value. */
  function ResponseDistinct(table: seq<StockInfo>, kpi: string, startDate: int, endDate: int,
                            names: map<string, string>): Result<seq<KpiInfo>>
  {
    Ranked(FirstOccurrences(SortedRecords(table, kpi, startDate, endDate)), names)
  }

  /** The request handler with the corrected scan. */
  method RunDistinct(table: seq<StockInfo>, kpi: string, startDate: int, endDate: int)
    returns (res: Result<seq<KpiInfo>>)
    ensures res == ResponseDistinct(table, kpi, startDate, endDate, COMPANIES)
  {
    var kpiList := Query(table, kpi, startDate, endDate);
    kpiList := OrderByPrice(kpiList, DirectionOf(kpi));
    res := RankTopDistinct(kpiList, COMPANIES);
  }

  /** With the corrected scan no company is ranked twice. */
  lemma DistinctResponseHasNoRepeats(table: seq<StockInfo>, kpi: string, startDate: int, endDate: int,
                                     names: map<string, string>)
    ensures var r := ResponseDistinct(table, kpi, startDate, endDate, names);
      r.Success? ==> forall i, j :: 0 <= i < j < |r.value| ==> r.value[i].symbol != r.value[j].symbol
  {
    FirstOccurrencesDistinct(SortedRecords(table, kpi, startDate, endDate));
  }

  /** With the corrected scan the response has one entry per selected
      company, up to ten, ranked 1..k with values in the KPI's direction. */
  lemma DistinctResponseOrdered(table: seq<StockInfo>, kpi: string, startDate: int, endDate: int,
                                names: map<string, string>)
    ensures var r := ResponseDistinct(table, kpi, startDate, endDate, names);
      r.Success? ==>
        |r.value| == TopCount(|Symbols(Query(table, kpi, startDate, endDate))|) &&
        (forall i :: 0 <= i < |r.value| ==> r.value[i].rank == i + 1) &&
        forall i, j :: 0 <= i < j < |r.value| ==> InOrder(DirectionOf(kpi), r.value[i].value, r.value[j].value)
  {
    var selected := Query(table, kpi, startDate, endDate);
    var sorted := SortedRecords(table, kpi, startDate, endDate);
    var kept := FirstOccurrences(sorted);
    var r := Ranked(kept, names);
    FirstOccurrencesCount(sorted);
    FirstOccurrencesSorted(sorted, DirectionOf(kpi));
    SymbolsOfPermutation(sorted, selected);
    if r.Success? {
      forall i, j | 0 <= i < j < |r.value|
        ensures InOrder(DirectionOf(kpi), r.value[i].value, r.value[j].value)
      {
        assert r.value[i].value == kept[i].price && r.value[j].value == kept[j].price;
      }
    }
  }

  /** With the corrected scan each company is ranked by its best selected
      value in the KPI's direction: the value is one of the company's
      selected values and may precede all of them. */
  lemma DistinctResponseKeepsBest(table: seq<StockInfo>, kpi: string, startDate: int, endDate: int,
                                  names: map<string, string>, i: nat, t: Tick)
    ensures var r := ResponseDistinct(table, kpi, startDate, endDate, names);
      r.Success? && i < |r.value| ==>
        Tick(r.value[i].symbol, r.value[i].value) in Query(table, kpi, startDate, endDate)
    ensures var r := ResponseDistinct(table, kpi, startDate, endDate, names);
      r.Success? && i < |r.value| && t in Query(table, kpi, startDate, endDate) && t.symbol == r.value[i].symbol ==>
        InOrder(DirectionOf(kpi), r.value[i].value, t.price)
  {
    var selected := Query(table, kpi, startDate, endDate);
    var sorted := SortedRecords(table, kpi, startDate, endDate);
    var kept := FirstOccurrences(sorted);
    var r := Ranked(kept, names);
    if r.Success? && i < |r.value| {
      FirstOccurrencesSubset(sorted, kept[i]);
      assert kept[i] in multiset(sorted);
      assert Tick(r.value[i].symbol, r.value[i].value) == kept[i];
    }
    if r.Success? && i < |r.value| && t in selected && t.symbol == r.value[i].symbol {
      DistinctKeepsBest(sorted, names, DirectionOf(kpi));
      assert t in multiset(selected);
      assert t in sorted;
      var j :| 0 <= j < |sorted| && sorted[j] == t;
      assert sorted[j].symbol == r.value[i].symbol;
    }
  }

  /** The two rows of one company from RepeatedSymbolIsNotSkipped give one
      entry, with the higher value, under the corrected scan. */
  lemma RepeatedSymbolIsSkippedWhenDistinct()
    ensures ResponseDistinct([StockInfo("high", "dx", 3, 7.0), StockInfo("high", "dx", 4, 5.0)],
                             "high", 1, 5, COMPANIES)
         == Success([KpiInfo(1, "dx", "Dynex Capital Inc", 7.0)])
  {
    RepeatedRowsQuery();
    RepeatedTicksSorted();
    RepeatedTicksFirstOccurrences();
    RepeatedTicksRankedOnce();
  }

  lemma RepeatedTicksFirstOccurrences()
    ensures FirstOccurrences([Tick("dx", 7.0), Tick("dx", 5.0)]) == [Tick("dx", 7.0)]
  {
    var ticks := [Tick("dx", 7.0), Tick("dx", 5.0)];
    assert ticks[..1] == [Tick("dx", 7.0)];
    assert Symbols([Tick("dx", 7.0)]) == {"dx"};
  }

  lemma RepeatedTicksRankedOnce()
    ensures Ranked([Tick("dx", 7.0)], COMPANIES) == Success([KpiInfo(1, "dx", "Dynex Capital Inc", 7.0)])
  {
    var r := Ranked([Tick("dx", 7.0)], COMPANIES);
    assert r.Success?;
    assert r.value == [KpiInfo(1, "dx", "Dynex Capital Inc", 7.0)];
  }
}

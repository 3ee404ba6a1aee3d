/** The table query: keep the rows of the requested KPI whose date lies in the
    inclusive window, projected to symbol and price. */
module TableQuery {
  import opened StockRecords

  predicate Selected(e: StockInfo, kpi: string, startDate: int, endDate: int)
  {
    e.partition == kpi && e.date >= startDate && e.date <= endDate
  }

  function Query(table: seq<StockInfo>, kpi: string, startDate: int, endDate: int): (r: seq<Tick>)
    ensures |r| <= |table|
  {
    if table == [] then []
    else
      var e := table[0];
      (if Selected(e, kpi, startDate, endDate) then [Tick(e.symbol, e.price)] else [])
      + Query(table[1..], kpi, startDate, endDate)
  }

  /** A record reaches the ranking exactly when some row of the requested KPI
      dated inside the window carries its symbol and price. */
  lemma {:induction false} QueryMembers(table: seq<StockInfo>, kpi: string, startDate: int, endDate: int, t: Tick)
    ensures t in Query(table, kpi, startDate, endDate) <==>
      exists i :: 0 <= i < |table| && Selected(table[i], kpi, startDate, endDate)
                  && t == Tick(table[i].symbol, table[i].price)
  {
    if table != [] {
      QueryMembers(table[1..], kpi, startDate, endDate, t);
      if t in Query(table[1..], kpi, startDate, endDate) {
        var i :| 0 <= i < |table[1..]| && Selected(table[1..][i], kpi, startDate, endDate)
                 && t == Tick(table[1..][i].symbol, table[1..][i].price);
        assert table[i + 1] == table[1..][i];
      }
      if exists i :: 0 <= i < |table| && Selected(table[i], kpi, startDate, endDate)
                     && t == Tick(table[i].symbol, table[i].price) {
        var i :| 0 <= i < |table| && Selected(table[i], kpi, startDate, endDate)
                 && t == Tick(table[i].symbol, table[i].price);
        if i > 0 {
          assert table[1..][i - 1] == table[i];
        }
      }
    }
  }

  /** The query keeps the table's row order: querying two parts of a table
      and concatenating equals querying the whole. */
  lemma {:induction false} QueryAppend(a: seq<StockInfo>, b: seq<StockInfo>, kpi: string, startDate: int, endDate: int)
    ensures Query(a + b, kpi, startDate, endDate) == Query(a, kpi, startDate, endDate) + Query(b, kpi, startDate, endDate)
  {
    if a == [] {
      assert a + b == b;
    } else {
      var e := a[0];
      var head := if Selected(e, kpi, startDate, endDate) then [Tick(e.symbol, e.price)] else [];
      assert (a + b)[0] == e;
      assert (a + b)[1..] == a[1..] + b;
      assert Query(a + b, kpi, startDate, endDate) == head + Query(a[1..] + b, kpi, startDate, endDate);
      QueryAppend(a[1..], b, kpi, startDate, endDate);
      assert Query(a, kpi, startDate, endDate) == head + Query(a[1..], kpi, startDate, endDate);
    }
  }

  /** Rows of another KPI or outside the window contribute nothing. */
  lemma {:induction false} QueryUnselected(table: seq<StockInfo>, kpi: string, startDate: int, endDate: int)
    requires forall i :: 0 <= i < |table| ==> !Selected(table[i], kpi, startDate, endDate)
    ensures Query(table, kpi, startDate, endDate) == []
  {
    if table != [] {
      QueryUnselected(table[1..], kpi, startDate, endDate);
    }
  }

  /** Unselected rows can be removed from anywhere in the table. */
  lemma QueryDropsUnselected(before: seq<StockInfo>, other: seq<StockInfo>, after: seq<StockInfo>,
                             kpi: string, startDate: int, endDate: int)
    requires forall i :: 0 <= i < |other| ==> !Selected(other[i], kpi, startDate, endDate)
    ensures Query(before + other + after, kpi, startDate, endDate) == Query(before + after, kpi, startDate, endDate)
  {
    QueryAppend(before + other, after, kpi, startDate, endDate);
    QueryAppend(before, other, kpi, startDate, endDate);
    QueryAppend(before, after, kpi, startDate, endDate);
    QueryUnselected(other, kpi, startDate, endDate);
    assert Query(before, kpi, startDate, endDate) + [] == Query(before, kpi, startDate, endDate);
  }
}

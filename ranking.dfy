/** The scan over the sorted records: sequential ranks from 1, a display-name
    lookup per emitted record, and a stop after MAX_ENTRIES entries. The
    dictionary of already added companies is consulted but never filled, so
    every record is emitted, repeated symbols included. */
module Ranking {
  import opened StockRecords

  /** Index of the first record whose symbol has no display name, or |s|. */
  function FirstUnnamed(s: seq<Tick>, names: map<string, string>): (k: nat)
    ensures k <= |s|
    ensures forall j :: 0 <= j < k ==> s[j].symbol in names
    ensures k < |s| ==> s[k].symbol !in names
  {
    if s == [] || s[0].symbol !in names then 0
    else 1 + FirstUnnamed(s[1..], names)
  }

  /** Labels every record of top with consecutive ranks from rank, failing at
      the first symbol without a display name. */
  function Label(top: seq<Tick>, names: map<string, string>, rank: int): (r: Result<seq<KpiInfo>>)
    ensures r.Success? <==> FirstUnnamed(top, names) == |top|
    ensures r.Success? ==>
      |r.value| == |top| &&
      forall i :: 0 <= i < |top| ==>
        top[i].symbol in names &&
        r.value[i] == KpiInfo(rank + i, top[i].symbol, names[top[i].symbol], top[i].price)
    ensures r.Failure? ==> r.error == KeyNotFound(top[FirstUnnamed(top, names)].symbol)
    decreases |top|
  {
    if top == [] then Success([])
    else if top[0].symbol !in names then Failure(KeyNotFound(top[0].symbol))
    else
      match Label(top[1..], names, rank + 1)
      case Failure(e) => Failure(e)
      case Success(rest) =>
        Success([KpiInfo(rank, top[0].symbol, names[top[0].symbol], top[0].price)] + rest)
  }

  /** The response built from the sorted records: the first
      TopCount(|ticks|) of them ranked 1, 2, ..., or the lookup error of the
      first one among them without a display name. */
  function Ranked(ticks: seq<Tick>, names: map<string, string>): (r: Result<seq<KpiInfo>>)
    ensures r.Success? <==> forall i :: 0 <= i < TopCount(|ticks|) ==> ticks[i].symbol in names
    ensures r.Success? ==>
      |r.value| == TopCount(|ticks|) &&
      forall i :: 0 <= i < |r.value| ==>
        ticks[i].symbol in names &&
        r.value[i] == KpiInfo(i + 1, ticks[i].symbol, names[ticks[i].symbol], ticks[i].price)
    ensures r.Failure? ==>
      FirstUnnamed(ticks, names) < TopCount(|ticks|) &&
      r.error == KeyNotFound(ticks[FirstUnnamed(ticks, names)].symbol)
  {
    var top := ticks[..TopCount(|ticks|)];
    var r := Label(top, names, 1);
    var k := FirstUnnamed(top, names);
    assert k < |top| ==> top[k] == ticks[k] && FirstUnnamed(ticks, names) == k;
    r
  }

  /** The scan as the service runs it: a mutable rank counter, a dictionary of
      added companies that is read and never written, an early break once
      MAX_ENTRIES entries exist. */
  method RankTop(ticks: seq<Tick>, names: map<string, string>) returns (res: Result<seq<KpiInfo>>)
    ensures res == Ranked(ticks, names)
  {
    var rank := 1;
    var added: map<string, string> := map[];
    var entries: seq<KpiInfo> := [];
    var i := 0;
    while i < |ticks|
      invariant i <= |ticks| && i <= MAX_ENTRIES
      invariant rank == i + 1 && |entries| == i
      invariant forall j :: 0 <= j < i ==>
        ticks[j].symbol in names &&
        entries[j] == KpiInfo(j + 1, ticks[j].symbol, names[ticks[j].symbol], ticks[j].price)
    {
      if rank > MAX_ENTRIES {
        break;
      }
      var tick := ticks[i];
      if tick.symbol !in added {
        if tick.symbol !in names {
          assert FirstUnnamed(ticks, names) == i;
          return Failure(KeyNotFound(tick.symbol));
        }
        var name := names[tick.symbol];
        entries := entries + [KpiInfo(rank, tick.symbol, name, tick.price)];
        rank := rank + 1;
      }
      i := i + 1;
    }
    assert i == TopCount(|ticks|);
    var expected := Ranked(ticks, names);
    assert expected.Success?;
    assert expected.value == entries;
    res := Success(entries);
  }

  /** entries are the records of kept, each with its display name and ranked
      by position from 1. */
  ghost predicate LabelsAll(kept: seq<Tick>, entries: seq<KpiInfo>, names: map<string, string>)
  {
    |entries| == |kept| &&
    forall j :: 0 <= j < |kept| ==>
      kept[j].symbol in names &&
      entries[j] == KpiInfo(j + 1, kept[j].symbol, names[kept[j].symbol], kept[j].price)
  }

  lemma LabelsAllAppend(kept: seq<Tick>, entries: seq<KpiInfo>, names: map<string, string>, x: Tick)
    requires LabelsAll(kept, entries, names) && x.symbol in names
    ensures LabelsAll(kept + [x], entries + [KpiInfo(|kept| + 1, x.symbol, names[x.symbol], x.price)], names)
  {
  }

  /** A scan that stops at a record without a display name, before
      MAX_ENTRIES entries, fails with that record's symbol. */
  lemma RankedFailsAt(kept: seq<Tick>, x: Tick, all: seq<Tick>, names: map<string, string>)
    requires kept + [x] <= all && |kept| < MAX_ENTRIES
    requires forall j :: 0 <= j < |kept| ==> kept[j].symbol in names
    requires x.symbol !in names
    ensures Ranked(all, names) == Failure(KeyNotFound(x.symbol))
  {
    assert all[|kept|] == x;
    assert forall j :: 0 <= j < |kept| ==> all[j] == kept[j];
    assert FirstUnnamed(all, names) == |kept|;
  }

  /** A scan that labelled every record of a prefix of all, and stopped
      either at MAX_ENTRIES entries or at the end of all, produced the
      response. */
  lemma RankedFromPrefix(kept: seq<Tick>, all: seq<Tick>, entries: seq<KpiInfo>, names: map<string, string>)
    requires kept <= all && |kept| == TopCount(|all|)
    requires LabelsAll(kept, entries, names)
    ensures Ranked(all, names) == Success(entries)
  {
    assert forall j :: 0 <= j < |kept| ==> all[j] == kept[j];
    var expected := Ranked(all, names);
    assert expected.Success?;
    assert expected.value == entries;
  }

  /** Only the display names of the first MAX_ENTRIES sorted records are ever
      looked up: two name tables that agree on those symbols give the same
      response. */
  lemma RankedReadsTopNames(ticks: seq<Tick>, names1: map<string, string>, names2: map<string, string>)
    requires forall i :: 0 <= i < TopCount(|ticks|) ==>
      (ticks[i].symbol in names1 <==> ticks[i].symbol in names2) &&
      (ticks[i].symbol in names1 ==> names1[ticks[i].symbol] == names2[ticks[i].symbol])
    ensures Ranked(ticks, names1) == Ranked(ticks, names2)
  {
    var r1, r2 := Ranked(ticks, names1), Ranked(ticks, names2);
    if r1.Success? {
      assert r1.value == r2.value;
    } else {
      assert FirstUnnamed(ticks, names1) == FirstUnnamed(ticks, names2);
    }
  }

  /** Records sorted past position MAX_ENTRIES never influence the response. */
  lemma RankedIgnoresTail(ticks: seq<Tick>, more: seq<Tick>, names: map<string, string>)
    requires |ticks| >= MAX_ENTRIES
    ensures Ranked(ticks + more, names) == Ranked(ticks, names)
  {
    var r1, r2 := Ranked(ticks + more, names), Ranked(ticks, names);
    assert forall i :: 0 <= i < |ticks| ==> (ticks + more)[i] == ticks[i];
    if r1.Success? {
      assert r1.value == r2.value;
    } else {
      assert FirstUnnamed(ticks + more, names) == FirstUnnamed(ticks, names);
    }
  }
}

/** The scan the comments of the service describe: a company already ranked
    is skipped, so each company appears once, with its first (best) record in
    sorted order. The service's own scan never records an added company; this
    module is the corrected scan, which does. */
module DistinctRanking {
  import opened StockRecords
  import opened PriceOrder
  import opened Ranking

  function Symbols(s: seq<Tick>): set<string>
  {
    set t | t in s :: t.symbol
  }

  /** t is the first record of s carrying its symbol. */
  ghost predicate FirstOfSymbol(s: seq<Tick>, t: Tick)
  {
    exists p :: 0 <= p < |s| && s[p] == t && forall j :: 0 <= j < p ==> s[j].symbol != t.symbol
  }

  lemma SymbolsAppend(s: seq<Tick>, x: Tick)
    ensures Symbols(s + [x]) == Symbols(s) + {x.symbol}
  {
    assert forall t :: t in s + [x] <==> t in s || t == x;
  }

  /** A permutation has the same symbols. */
  lemma SymbolsOfPermutation(a: seq<Tick>, b: seq<Tick>)
    requires multiset(a) == multiset(b)
    ensures Symbols(a) == Symbols(b)
  {
    assert forall t :: t in a <==> t in multiset(a);
    assert forall t :: t in b <==> t in multiset(b);
  }

  /** The records of s whose symbol does not occur earlier in s, in order. */
  function FirstOccurrences(s: seq<Tick>): (r: seq<Tick>)
    ensures |r| <= |s|
    ensures Symbols(r) == Symbols(s)
    decreases |s|
  {
    if s == [] then []
    else
      var init, x := s[..|s| - 1], s[|s| - 1];
      var r0 := FirstOccurrences(init);
      assert s == init + [x];
      SymbolsAppend(init, x);
      SymbolsAppend(r0, x);
      r0 + (if x.symbol in Symbols(init) then [] else [x])
  }

  /** No company is kept twice. */
  lemma {:induction false} FirstOccurrencesDistinct(s: seq<Tick>)
    ensures forall i, j :: 0 <= i < j < |FirstOccurrences(s)| ==>
      FirstOccurrences(s)[i].symbol != FirstOccurrences(s)[j].symbol
    decreases |s|
  {
    if s != [] {
      var init, x := s[..|s| - 1], s[|s| - 1];
      var r0 := FirstOccurrences(init);
      FirstOccurrencesDistinct(init);
      if x.symbol !in Symbols(init) {
        forall i | 0 <= i < |r0|
          ensures r0[i].symbol != x.symbol
        {
          assert r0[i] in r0;
        }
      }
    }
  }

  /** Each kept record is the first record of s with its symbol. */
  lemma {:induction false} FirstOccurrencesAreFirst(s: seq<Tick>)
    ensures forall k :: 0 <= k < |FirstOccurrences(s)| ==> FirstOfSymbol(s, FirstOccurrences(s)[k])
    decreases |s|
  {
    if s != [] {
      var init, x := s[..|s| - 1], s[|s| - 1];
      var r0 := FirstOccurrences(init);
      var r := FirstOccurrences(s);
      FirstOccurrencesAreFirst(init);
      forall k | 0 <= k < |r0|
        ensures FirstOfSymbol(s, r0[k])
      {
        assert FirstOfSymbol(init, r0[k]);
        var p :| 0 <= p < |init| && init[p] == r0[k] && forall j :: 0 <= j < p ==> init[j].symbol != r0[k].symbol;
        assert s[p] == init[p];
      }
      if x.symbol !in Symbols(init) {
        forall j | 0 <= j < |init|
          ensures s[j].symbol != x.symbol
        {
          assert init[j] in init;
        }
        assert s[|init|] == x;
        assert FirstOfSymbol(s, x);
      }
    }
  }

  lemma {:induction false} FirstOccurrencesPrefix(s: seq<Tick>, i: nat)
    requires i <= |s|
    ensures FirstOccurrences(s[..i]) <= FirstOccurrences(s)
    decreases |s|
  {
    if i == |s| {
      assert s[..i] == s;
    } else {
      var init := s[..|s| - 1];
      assert s[..i] == init[..i];
      FirstOccurrencesPrefix(init, i);
    }
  }

  /** Keeping the first records of each company keeps a sorted list sorted. */
  lemma {:induction false} FirstOccurrencesSorted(s: seq<Tick>, d: Direction)
    requires Sorted(s, d)
    ensures Sorted(FirstOccurrences(s), d)
    decreases |s|
  {
    if s != [] {
      var init, x := s[..|s| - 1], s[|s| - 1];
      var r0 := FirstOccurrences(init);
      FirstOccurrencesSorted(init, d);
      if x.symbol !in Symbols(init) {
        forall i | 0 <= i < |r0|
          ensures InOrder(d, r0[i].price, x.price)
        {
          assert r0[i] in multiset(r0);
          FirstOccurrencesSubset(init, r0[i]);
          var p :| 0 <= p < |init| && init[p] == r0[i];
          assert s[p] == init[p];
        }
      }
    }
  }

  /** Every kept record is a record of s. */
  lemma {:induction false} FirstOccurrencesSubset(s: seq<Tick>, t: Tick)
    requires t in FirstOccurrences(s)
    ensures t in s
    decreases |s|
  {
    var init, x := s[..|s| - 1], s[|s| - 1];
    assert s == init + [x];
    if t in FirstOccurrences(init) {
      FirstOccurrencesSubset(init, t);
    }
  }

  /** One record is kept per company: as many records as distinct symbols. */
  lemma {:induction false} FirstOccurrencesCount(s: seq<Tick>)
    ensures |FirstOccurrences(s)| == |Symbols(s)|
    decreases |s|
  {
    if s == [] {
      assert Symbols(s) == {};
    } else {
      var init, x := s[..|s| - 1], s[|s| - 1];
      assert s == init + [x];
      SymbolsAppend(init, x);
      FirstOccurrencesCount(init);
      if x.symbol in Symbols(init) {
        assert FirstOccurrences(s) == FirstOccurrences(init);
        assert Symbols(s) == Symbols(init);
      } else {
        assert FirstOccurrences(s) == FirstOccurrences(init) + [x];
        assert Symbols(s) == Symbols(init) + {x.symbol};
      }
    }
  }

  /** One more record of s keeps its first occurrences and adds itself when
      its symbol is new. */
  lemma FirstOccurrencesStep(s: seq<Tick>, i: nat)
    requires i < |s|
    ensures FirstOccurrences(s[..i + 1]) ==
      FirstOccurrences(s[..i]) + (if s[i].symbol in Symbols(s[..i]) then [] else [s[i]])
    ensures Symbols(s[..i + 1]) == Symbols(s[..i]) + {s[i].symbol}
  {
    assert s[..i + 1] == s[..i] + [s[i]];
    assert s[..i + 1][..i] == s[..i];
    SymbolsAppend(s[..i], s[i]);
  }

  /** The scan state after a record whose company was already added. */
  lemma SkippedStep(ticks: seq<Tick>, i: nat, kept: seq<Tick>, added: map<string, string>)
    requires i < |ticks| && kept == FirstOccurrences(ticks[..i])
    requires added.Keys == Symbols(ticks[..i]) && ticks[i].symbol in added
    ensures kept == FirstOccurrences(ticks[..i + 1])
    ensures added.Keys == Symbols(ticks[..i + 1])
  {
    FirstOccurrencesStep(ticks, i);
  }

  /** The scan state after adding a company not seen before. */
  lemma AddedStep(ticks: seq<Tick>, i: nat, kept: seq<Tick>, added: map<string, string>, name: string)
    requires i < |ticks| && kept == FirstOccurrences(ticks[..i])
    requires added.Keys == Symbols(ticks[..i]) && ticks[i].symbol !in added
    ensures kept + [ticks[i]] == FirstOccurrences(ticks[..i + 1])
    ensures added[ticks[i].symbol := name].Keys == Symbols(ticks[..i + 1])
  {
    FirstOccurrencesStep(ticks, i);
  }

  /** A new company without a display name ends the corrected scan with
      the lookup error. */
  lemma DistinctScanFails(ticks: seq<Tick>, i: nat, kept: seq<Tick>, added: map<string, string>, names: map<string, string>)
    requires i < |ticks| && kept == FirstOccurrences(ticks[..i]) && |kept| < MAX_ENTRIES
    requires added.Keys == Symbols(ticks[..i]) && ticks[i].symbol !in added
    requires forall j :: 0 <= j < |kept| ==> kept[j].symbol in names
    requires ticks[i].symbol !in names
    ensures Ranked(FirstOccurrences(ticks), names) == Failure(KeyNotFound(ticks[i].symbol))
  {
    AddedStep(ticks, i, kept, added, "");
    FirstOccurrencesPrefix(ticks, i + 1);
    RankedFailsAt(kept, ticks[i], FirstOccurrences(ticks), names);
  }

  /** The corrected scan that ran out of records or reached MAX_ENTRIES
      entries has built the response. */
  lemma DistinctScanDone(ticks: seq<Tick>, i: nat, kept: seq<Tick>, entries: seq<KpiInfo>, names: map<string, string>)
    requires i <= |ticks| && kept == FirstOccurrences(ticks[..i]) && |kept| <= MAX_ENTRIES
    requires i == |ticks| || |kept| == MAX_ENTRIES
    requires LabelsAll(kept, entries, names)
    ensures Ranked(FirstOccurrences(ticks), names) == Success(entries)
  {
    FirstOccurrencesPrefix(ticks, i);
    assert i == |ticks| ==> ticks[..i] == ticks;
    RankedFromPrefix(kept, FirstOccurrences(ticks), entries, names);
  }

  /** Every company of the deduplicated response is ranked with its best
      record: in a list sorted in direction d, its value may precede the value
      of every record of the same company. */
  lemma DistinctKeepsBest(ticks: seq<Tick>, names: map<string, string>, d: Direction)
    requires Sorted(ticks, d)
    ensures var r := Ranked(FirstOccurrences(ticks), names);
      r.Success? ==>
        forall i, j :: 0 <= i < |r.value| && 0 <= j < |ticks| && ticks[j].symbol == r.value[i].symbol ==>
          InOrder(d, r.value[i].value, ticks[j].price)
  {
    var fo := FirstOccurrences(ticks);
    var r := Ranked(fo, names);
    FirstOccurrencesAreFirst(ticks);
    if r.Success? {
      forall i, j | 0 <= i < |r.value| && 0 <= j < |ticks| && ticks[j].symbol == r.value[i].symbol
        ensures InOrder(d, r.value[i].value, ticks[j].price)
      {
        assert FirstOfSymbol(ticks, fo[i]);
        var p :| 0 <= p < |ticks| && ticks[p] == fo[i] && forall q :: 0 <= q < p ==> ticks[q].symbol != fo[i].symbol;
        assert p <= j;
        if p < j {
          assert InOrder(d, ticks[p].price, ticks[j].price);
        }
      }
    }
  }

  /** The corrected scan: like RankTop, but each added company is recorded in
      the dictionary, so later records of the same company are skipped. */
  method RankTopDistinct(ticks: seq<Tick>, names: map<string, string>) returns (res: Result<seq<KpiInfo>>)
    ensures res == Ranked(FirstOccurrences(ticks), names)
  {
    var rank := 1;
    var added: map<string, string> := map[];
    var entries: seq<KpiInfo> := [];
    ghost var kept: seq<Tick> := [];
    var i := 0;
    while i < |ticks|
      invariant i <= |ticks|
      invariant kept == FirstOccurrences(ticks[..i])
      invariant |kept| <= MAX_ENTRIES && rank == |kept| + 1
      invariant LabelsAll(kept, entries, names)
      invariant added.Keys == Symbols(ticks[..i])
    {
      if rank > MAX_ENTRIES {
        break;
      }
      var tick := ticks[i];
      if tick.symbol !in added {
        if tick.symbol !in names {
          DistinctScanFails(ticks, i, kept, added, names);
          return Failure(KeyNotFound(tick.symbol));
        }
        var name := names[tick.symbol];
        AddedStep(ticks, i, kept, added, name);
        LabelsAllAppend(kept, entries, names, tick);
        entries := entries + [KpiInfo(rank, tick.symbol, name, tick.price)];
        added := added[tick.symbol := name];
        kept := kept + [tick];
        rank := rank + 1;
      } else {
        SkippedStep(ticks, i, kept, added);
      }
      i := i + 1;
    }
    DistinctScanDone(ticks, i, kept, entries, names);
    res := Success(entries);
  }
}

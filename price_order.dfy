/** The direction policy and the stable ordering by price (OrderBy /
    OrderByDescending). */
module PriceOrder {
  import opened StockRecords

  datatype Direction = Ascending | Descending

  /** "low" and "price to earn ratio" rank the smallest values first; every
      other KPI string, recognised or not, ranks the largest values first. */
  function DirectionOf(kpi: string): (d: Direction)
    ensures d == Ascending <==> kpi == "low" || kpi == "price to earn ratio"
  {
    if kpi == "low" || kpi == "price to earn ratio" then Ascending else Descending
  }

  /** a may come before b in direction d. */
  predicate InOrder(d: Direction, a: real, b: real)
  {
    match d
    case Ascending => a <= b
    case Descending => a >= b
  }

  predicate Sorted(s: seq<Tick>, d: Direction)
  {
    forall i, j :: 0 <= i < j < |s| ==> InOrder(d, s[i].price, s[j].price)
  }

  /** The subsequence of s whose price is v, in the order of s. Two orderings
      of the same records are tie-stable relative to each other when they
      agree on WithPrice for every v. */
  function WithPrice(s: seq<Tick>, v: real): seq<Tick>
  {
    if s == [] then []
    else (if s[0].price == v then [s[0]] else []) + WithPrice(s[1..], v)
  }

  /** A record that may precede the head of a sorted sequence extends it. */
  lemma SortedCons(h: Tick, s: seq<Tick>, d: Direction)
    requires Sorted(s, d)
    requires s == [] || InOrder(d, h.price, s[0].price)
    ensures Sorted([h] + s, d)
  {
  }

  /** Inserts x before the first element it may precede, so that x comes
      before every element of s with the same price. */
  function Insert(x: Tick, s: seq<Tick>, d: Direction): (r: seq<Tick>)
    requires Sorted(s, d)
    ensures Sorted(r, d)
    ensures multiset(r) == multiset(s) + multiset{x}
    ensures r[0] == x || (s != [] && r[0] == s[0])
    decreases |s|
  {
    if s == [] || InOrder(d, x.price, s[0].price) then
      SortedCons(x, s, d);
      [x] + s
    else
      var rest := Insert(x, s[1..], d);
      assert multiset(s) == multiset{s[0]} + multiset(s[1..]) by {
        assert s == [s[0]] + s[1..];
      }
      SortedCons(s[0], rest, d);
      [s[0]] + rest
  }

  /** The stable sort by price in direction d. */
  function OrderByPrice(s: seq<Tick>, d: Direction): (r: seq<Tick>)
    ensures Sorted(r, d)
    ensures multiset(r) == multiset(s)
  {
    if s == [] then []
    else
      assert s == [s[0]] + s[1..];
      Insert(s[0], OrderByPrice(s[1..], d), d)
  }

  lemma {:induction false} WithPriceAppend(a: seq<Tick>, b: seq<Tick>, v: real)
    ensures WithPrice(a + b, v) == WithPrice(a, v) + WithPrice(b, v)
  {
    if a == [] {
      assert a + b == b;
    } else {
      var head := if a[0].price == v then [a[0]] else [];
      assert (a + b)[0] == a[0];
      assert (a + b)[1..] == a[1..] + b;
      assert WithPrice(a + b, v) == head + WithPrice(a[1..] + b, v);
      WithPriceAppend(a[1..], b, v);
      assert WithPrice(a, v) == head + WithPrice(a[1..], v);
      assert head + (WithPrice(a[1..], v) + WithPrice(b, v)) == (head + WithPrice(a[1..], v)) + WithPrice(b, v);
    }
  }

  lemma {:induction false} InsertKeepsTies(x: Tick, s: seq<Tick>, d: Direction, v: real)
    requires Sorted(s, d)
    ensures WithPrice(Insert(x, s, d), v) == WithPrice([x] + s, v)
    decreases |s|
  {
    if s != [] && !InOrder(d, x.price, s[0].price) {
      InsertKeepsTies(x, s[1..], d, v);
      assert x.price != s[0].price;
      assert ([x] + s[1..])[1..] == s[1..];
      assert ([x] + s)[1..] == s;
      assert ([s[0]] + Insert(x, s[1..], d))[1..] == Insert(x, s[1..], d);
    }
  }

  /** OrderByPrice is stable: records with equal prices keep their input order. */
  lemma {:induction false} SortKeepsTies(s: seq<Tick>, d: Direction, v: real)
    ensures WithPrice(OrderByPrice(s, d), v) == WithPrice(s, v)
  {
    if s != [] {
      SortKeepsTies(s[1..], d, v);
      InsertKeepsTies(s[0], OrderByPrice(s[1..], d), d, v);
      assert ([s[0]] + OrderByPrice(s[1..], d))[1..] == OrderByPrice(s[1..], d);
    }
  }

  lemma {:induction false} WithPriceFound(s: seq<Tick>, v: real)
    requires WithPrice(s, v) != []
    ensures exists j :: 0 <= j < |s| && s[j].price == v
  {
    if s[0].price != v {
      WithPriceFound(s[1..], v);
      var j :| 0 <= j < |s[1..]| && s[1..][j].price == v;
      assert s[j + 1].price == v;
    }
  }

  lemma TieWithHead(s: seq<Tick>)
    requires s != []
    ensures WithPrice(s, s[0].price) != []
  {
  }

  /** The first record of a sorted sequence may precede every price in it. */
  lemma HeadPrecedes(s: seq<Tick>, d: Direction, v: real)
    requires Sorted(s, d) && WithPrice(s, v) != []
    ensures InOrder(d, s[0].price, v)
  {
    WithPriceFound(s, v);
    var j :| 0 <= j < |s| && s[j].price == v;
    if j > 0 {
      assert InOrder(d, s[0].price, s[j].price);
    }
  }

  /** Sorted sequences with the same ties start with the same record. */
  lemma SameHead(a: seq<Tick>, b: seq<Tick>, d: Direction)
    requires a != [] && b != []
    requires Sorted(a, d) && Sorted(b, d)
    requires WithPrice(a, a[0].price) == WithPrice(b, a[0].price)
    requires WithPrice(a, b[0].price) == WithPrice(b, b[0].price)
    ensures a[0] == b[0]
  {
    var p, q := a[0].price, b[0].price;
    TieWithHead(a);
    TieWithHead(b);
    HeadPrecedes(b, d, p);
    HeadPrecedes(a, d, q);
    assert p == q;
    assert WithPrice(a, p) == [a[0]] + WithPrice(a[1..], p);
    assert WithPrice(b, p) == [b[0]] + WithPrice(b[1..], p);
    assert a[0] == WithPrice(a, p)[0] == WithPrice(b, p)[0] == b[0];
  }

  lemma SameTailTies(a: seq<Tick>, b: seq<Tick>, v: real)
    requires a != [] && b != [] && a[0] == b[0]
    requires WithPrice(a, v) == WithPrice(b, v)
    ensures WithPrice(a[1..], v) == WithPrice(b[1..], v)
  {
    var head := if a[0].price == v then [a[0]] else [];
    assert WithPrice(a, v) == head + WithPrice(a[1..], v);
    assert WithPrice(b, v) == head + WithPrice(b[1..], v);
    assert (head + WithPrice(a[1..], v))[|head|..] == WithPrice(a[1..], v);
    assert (head + WithPrice(b[1..], v))[|head|..] == WithPrice(b[1..], v);
  }

  lemma SortedTail(s: seq<Tick>, d: Direction)
    requires s != [] && Sorted(s, d)
    ensures Sorted(s[1..], d)
  {
  }

  /** Two sequences sorted in the same direction that keep the same order
      among equal prices are equal. */
  lemma {:induction false} SortedTiesDetermine(a: seq<Tick>, b: seq<Tick>, d: Direction)
    requires Sorted(a, d) && Sorted(b, d)
    requires forall v :: WithPrice(a, v) == WithPrice(b, v)
    ensures a == b
    decreases |a|
  {
    if a != [] {
      TieWithHead(a);
    }
    if b != [] {
      TieWithHead(b);
    }
    if a != [] {
      assert WithPrice(a, a[0].price) == WithPrice(b, a[0].price);
      assert WithPrice(a, b[0].price) == WithPrice(b, b[0].price);
      SameHead(a, b, d);
      forall v
        ensures WithPrice(a[1..], v) == WithPrice(b[1..], v)
      {
        SameTailTies(a, b, v);
      }
      SortedTail(a, d);
      SortedTail(b, d);
      SortedTiesDetermine(a[1..], b[1..], d);
      assert a == [a[0]] + a[1..];
      assert b == [b[0]] + b[1..];
    }
  }

  /** OrderByPrice is the one sequence that is sorted in direction d and
      keeps the input order among equal prices. */
  lemma StableSortIsUnique(s: seq<Tick>, d: Direction, r: seq<Tick>)
    requires Sorted(r, d)
    requires forall v :: WithPrice(r, v) == WithPrice(s, v)
    ensures r == OrderByPrice(s, d)
  {
    forall v
      ensures WithPrice(r, v) == WithPrice(OrderByPrice(s, d), v)
    {
      SortKeepsTies(s, d, v);
    }
    SortedTiesDetermine(r, OrderByPrice(s, d), d);
  }

  /** Cutting a sequence short keeps the order among equal prices of what remains. */
  lemma WithPricePrefix(s: seq<Tick>, k: nat, v: real)
    requires k <= |s|
    ensures WithPrice(s[..k], v) <= WithPrice(s, v)
  {
    assert s == s[..k] + s[k..];
    WithPriceAppend(s[..k], s[k..], v);
  }
}

/** The ABC revenue analysis: revenue per product, ranked from the highest,
    and the ranks cut into three quantile tiers A (Top), B (Mid), C (Low). */
module Abc {
  import opened Wrappers
  import opened Sequences
  import opened Transactions

  // ----- Product names and their order -----

  /** Python's string order: code point by code point, a proper prefix first. */
  predicate StrLe(a: string, b: string)
    decreases |a|
  {
    if a == [] then true
    else if b == [] then false
    else if a[0] != b[0] then a[0] < b[0]
    else StrLe(a[1..], b[1..])
  }

  lemma {:induction false} StrLeTotal(a: string, b: string)
    ensures StrLe(a, b) || StrLe(b, a)
    decreases |a|
  {
    if a != [] && b != [] && a[0] == b[0] {
      StrLeTotal(a[1..], b[1..]);
    }
  }

  lemma {:induction false} StrLeTransitive(a: string, b: string, c: string)
    requires StrLe(a, b) && StrLe(b, c)
    ensures StrLe(a, c)
    decreases |a|
  {
    if a != [] && b != [] && c != [] && a[0] == b[0] && b[0] == c[0] {
      StrLeTransitive(a[1..], b[1..], c[1..]);
    }
  }

  lemma StrOrderIsTotal()
    ensures TotalPreorder(StrLe)
  {
    forall a, b ensures StrLe(a, b) || StrLe(b, a) {
      StrLeTotal(a, b);
    }
    forall a, b, c | StrLe(a, b) && StrLe(b, c) ensures StrLe(a, c) {
      StrLeTransitive(a, b, c);
    }
  }

  /** The product of a row, the key of `groupby('Product_Name')`. */
  function ProductOf(row: Row): Option<string>
  {
    row.product
  }

  /** The group keys of `groupby('Product_Name')`: every product sold, once
      each (missing names form no group). */
  function ProductNames(rows: seq<Row>): (names: seq<string>)
    ensures forall p :: p in names <==> HasKey(rows, ProductOf, p)
    ensures NoDuplicates(names)
  {
    if rows == [] then []
    else
      var rest := ProductNames(rows[1..]);
      assert forall p :: HasKey(rows, ProductOf, p) <==> rows[0].product == Some(p) || HasKey(rows[1..], ProductOf, p) by {
        forall p ensures HasKey(rows, ProductOf, p) <==> rows[0].product == Some(p) || HasKey(rows[1..], ProductOf, p) {
          HasKeySplit(rows, ProductOf, p);
        }
      }
      if rows[0].product.Some? && rows[0].product.value !in rest then
        var names := [rows[0].product.value] + rest;
        assert forall i :: 0 < i < |names| ==> names[i] == rest[i - 1];
        names
      else rest
  }

  /** Reference definition: the revenue of product `p`, the sum of its rows'
      Total_Price. */
  function Revenue(rows: seq<Row>, p: string): (r: real)
    ensures !HasKey(rows, ProductOf, p) ==> r == 0.0
    ensures (forall i :: 0 <= i < |rows| ==> rows[i].totalPrice >= 0.0) ==> r >= 0.0
  {
    if rows == [] then 0.0
    else
      HasKeySplit(rows, ProductOf, p);
      (if rows[0].product == Some(p) then rows[0].totalPrice else 0.0) + Revenue(rows[1..], p)
  }

  /** One row of `prod_sales`. */
  datatype Sale = Sale(product: string, revenue: real)

  /** The product groups in the order `groupby` gives them: by name. */
  function SortedProductNames(rows: seq<Row>): (names: seq<string>)
    ensures forall p :: p in names <==> HasKey(rows, ProductOf, p)
    ensures NoDuplicates(names)
    ensures forall i, j :: 0 <= i < j < |names| ==> StrLe(names[i], names[j])
  {
    var names := ProductNames(rows);
    StrOrderIsTotal();
    var sorted := SortBy(names, StrLe);
    PermutationKeepsNoDuplicates(names, sorted);
    assert forall p :: p in sorted <==> p in names by {
      forall p ensures p in sorted <==> p in names {
        assert p in sorted <==> p in multiset(sorted);
      }
    }
    sorted
  }

  /** The revenue table over the given product names, in their order. */
  function SalesOf(rows: seq<Row>, names: seq<string>): (sales: seq<Sale>)
    ensures |sales| == |names|
    ensures forall i :: 0 <= i < |sales| ==> sales[i] == Sale(names[i], Revenue(rows, names[i]))
  {
    seq(|names|, i requires 0 <= i < |names| => Sale(names[i], Revenue(rows, names[i])))
  }

  /** `groupby('Product_Name')['Total_Price'].sum().reset_index()`: one row
      per product sold, in name order, with its revenue. */
  function ProductSales(rows: seq<Row>): (sales: seq<Sale>)
    ensures forall p :: (exists i :: 0 <= i < |sales| && sales[i].product == p) <==> HasKey(rows, ProductOf, p)
    ensures forall i, j :: 0 <= i < j < |sales| ==> sales[i].product != sales[j].product
    ensures forall i, j :: 0 <= i < j < |sales| ==> StrLe(sales[i].product, sales[j].product)
    ensures forall i :: 0 <= i < |sales| ==> sales[i].revenue == Revenue(rows, sales[i].product)
  {
    var names := SortedProductNames(rows);
    var sales := SalesOf(rows, names);
    forall p ensures (exists i :: 0 <= i < |sales| && sales[i].product == p) <==> HasKey(rows, ProductOf, p) {
      if p in names {
        var i :| 0 <= i < |names| && names[i] == p;
        assert sales[i].product == p;
      }
    }
    forall i, j | 0 <= i < j < |sales|
      ensures sales[i].product != sales[j].product && StrLe(sales[i].product, sales[j].product)
    {
      assert sales[i].product == names[i] && sales[j].product == names[j];
    }
    sales
  }

  /** `sort_values('Total_Price', ascending=False)`. */
  predicate RevenueDesc(a: Sale, b: Sale)
  {
    a.revenue >= b.revenue
  }

  /** `prod_sales` as ranked: every product once, highest revenue first. */
  function RankedSales(rows: seq<Row>): (ranked: seq<Sale>)
    ensures multiset(ranked) == multiset(ProductSales(rows))
    ensures |ranked| == |ProductSales(rows)|
    ensures forall i, j :: 0 <= i < j < |ranked| ==> ranked[i].revenue >= ranked[j].revenue
  {
    SortBy(ProductSales(rows), RevenueDesc)
  }

  // ----- rank(method='first', ascending=False) -----

  function CountAbove(v: seq<real>, x: real): nat
  {
    if v == [] then 0 else (if v[0] > x then 1 else 0) + CountAbove(v[1..], x)
  }

  function CountEqual(v: seq<real>, x: real): nat
  {
    if v == [] then 0 else (if v[0] == x then 1 else 0) + CountEqual(v[1..], x)
  }

  /** `rank(method='first', ascending=False)` of entry `i`: one more than
      the entries above it, plus the equal entries that come before it. */
  function Rank(v: seq<real>, i: nat): (r: int)
    requires i < |v|
    ensures 1 <= r <= |v|
  {
    CountsAtMostLength(v, v[i]);
    CountEqualGrows(v, i, |v|);
    assert v[..|v|] == v;
    1 + CountAbove(v, v[i]) + CountEqual(v[..i], v[i])
  }

  lemma {:induction false} CountsSplit(a: seq<real>, b: seq<real>, x: real)
    ensures CountAbove(a + b, x) == CountAbove(a, x) + CountAbove(b, x)
    ensures CountEqual(a + b, x) == CountEqual(a, x) + CountEqual(b, x)
  {
    if a == [] {
      assert a + b == b;
    } else {
      assert (a + b)[0] == a[0] && (a + b)[1..] == a[1..] + b;
      CountsSplit(a[1..], b, x);
    }
  }

  lemma {:induction false} CountsAtMostLength(v: seq<real>, x: real)
    ensures CountAbove(v, x) + CountEqual(v, x) <= |v|
  {
    if v != [] {
      CountsAtMostLength(v[1..], x);
    }
  }

  /** Whatever lies strictly above `x`, or at `x`, lies strictly above a
      smaller `y`. */
  lemma {:induction false} CountAboveLower(v: seq<real>, x: real, y: real)
    requires y < x
    ensures CountAbove(v, y) >= CountAbove(v, x) + CountEqual(v, x)
  {
    if v != [] {
      CountAboveLower(v[1..], x, y);
    }
  }

  /** Entry `i` is counted among the entries equal to it up to any later
      position `j`. */
  lemma {:induction false} CountEqualGrows(v: seq<real>, i: nat, j: nat)
    requires i < j <= |v|
    ensures CountEqual(v[..j], v[i]) >= CountEqual(v[..i], v[i]) + 1
  {
    assert v[..j] == v[..i] + v[i..j];
    CountsSplit(v[..i], v[i..j], v[i]);
    assert v[i..j] == [v[i]] + v[i + 1..j];
    CountsSplit([v[i]], v[i + 1..j], v[i]);
  }

  /** A higher revenue, or an equal revenue seen earlier, gets a smaller
      rank; so ranks are pairwise distinct and, lying in 1..n, are a
      bijection onto 1..n. */
  lemma {:induction false} RankOrder(v: seq<real>, i: nat, j: nat)
    requires i < |v| && j < |v|
    requires v[i] > v[j] || (v[i] == v[j] && i < j)
    ensures Rank(v, i) < Rank(v, j)
  {
    if v[i] > v[j] {
      CountAboveLower(v, v[i], v[j]);
      CountEqualGrows(v, i, |v|);
      assert v[..|v|] == v;
      assert CountEqual(v[..i], v[i]) + 1 <= CountEqual(v, v[i]);
    } else {
      CountEqualGrows(v, i, j);
    }
  }

  lemma {:induction false} RanksDistinct(v: seq<real>, i: nat, j: nat)
    requires i < |v| && j < |v| && i != j
    ensures Rank(v, i) != Rank(v, j)
  {
    if v[i] > v[j] || (v[i] == v[j] && i < j) {
      RankOrder(v, i, j);
    } else {
      RankOrder(v, j, i);
    }
  }

  lemma {:induction false} CountsWhenAllAtLeast(s: seq<real>, x: real)
    requires forall k :: 0 <= k < |s| ==> s[k] >= x
    ensures CountAbove(s, x) + CountEqual(s, x) == |s|
  {
    if s != [] {
      CountsWhenAllAtLeast(s[1..], x);
    }
  }

  lemma {:induction false} NoneAboveWhenAllAtMost(s: seq<real>, x: real)
    requires forall k :: 0 <= k < |s| ==> s[k] <= x
    ensures CountAbove(s, x) == 0
  {
    if s != [] {
      NoneAboveWhenAllAtMost(s[1..], x);
    }
  }

  /** On a table sorted by decreasing revenue, the rank of a row is its
      position, counted from 1. */
  lemma {:induction false} RankOfSortedIsPosition(v: seq<real>, i: nat)
    requires forall a, b :: 0 <= a < b < |v| ==> v[a] >= v[b]
    requires i < |v|
    ensures Rank(v, i) == i + 1
  {
    assert v == v[..i] + v[i..];
    CountsSplit(v[..i], v[i..], v[i]);
    CountsWhenAllAtLeast(v[..i], v[i]);
    NoneAboveWhenAllAtMost(v[i..], v[i]);
  }

  // ----- qcut(ranks, 3) -----

  /** `Series.quantile(q)` with linear interpolation, over the values `xs`
      in ascending order: the value at fractional position q(n - 1). */
  function Quantile(xs: seq<real>, q: real): (r: real)
    requires |xs| >= 1 && 0.0 <= q <= 1.0
    ensures q == 0.0 ==> r == xs[0]
    ensures q == 1.0 ==> r == xs[|xs| - 1]
  {
    ValueAt(xs, Position(q, |xs|))
  }

  /** The fractional position q(n - 1) of the q-quantile among n values. */
  function Position(q: real, n: nat): (pos: real)
    requires n >= 1 && 0.0 <= q <= 1.0
    ensures 0.0 <= pos <= (n - 1) as real
    ensures q == 0.0 ==> pos == 0.0
    ensures q == 1.0 ==> pos == (n - 1) as real
  {
    QuantileBounds(q, n - 1);
    q * (n - 1) as real
  }

  /** The value at fractional position `pos`, interpolated between the two
      neighbouring entries. */
  function ValueAt(xs: seq<real>, pos: real): (r: real)
    requires 0.0 <= pos <= (|xs| - 1) as real
    ensures pos == 0.0 ==> r == xs[0]
    ensures pos == (|xs| - 1) as real ==> r == xs[|xs| - 1]
  {
    var lo := pos.Floor;
    assert lo as real <= pos < lo as real + 1.0;
    if lo < |xs| - 1 then Lerp(xs[lo], xs[lo + 1], pos - lo as real) else xs[lo]
  }

  /** Linear interpolation from `a` towards `b` by the fraction `f`. */
  function Lerp(a: real, b: real, f: real): (r: real)
    requires 0.0 <= f < 1.0
    ensures a <= b ==> a <= r <= b
    ensures f == 0.0 ==> r == a
    ensures b - a == 1.0 ==> r == a + f
  {
    var d := b - a;
    assert d >= 0.0 ==> 0.0 <= f * d <= d by {
      if d >= 0.0 {
        var g := 1.0 - f;
        assert g * d >= 0.0;
        assert g * d == d - f * d;
      }
    }
    assert d == 1.0 ==> f * d == f by {
      if d == 1.0 {
        assert f * d == f * 1.0;
      }
    }
    a + f * d
  }

  /** Over ascending values every quantile lies between the least and the
      greatest value. */
  lemma {:induction false} QuantileWithinRange(xs: seq<real>, q: real)
    requires |xs| >= 1 && 0.0 <= q <= 1.0
    requires forall i, j :: 0 <= i <= j < |xs| ==> xs[i] <= xs[j]
    ensures xs[0] <= Quantile(xs, q) <= xs[|xs| - 1]
  {
    var m := |xs| - 1;
    var pos := Position(q, |xs|);
    assert Quantile(xs, q) == ValueAt(xs, pos);
    var lo := pos.Floor;
    assert lo as real <= pos < lo as real + 1.0;
    if lo < m {
      assert xs[0] <= xs[lo] && xs[lo + 1] <= xs[m];
    }
  }

  /** The position q(n - 1) lies within the n values. */
  lemma QuantileBounds(q: real, m: nat)
    requires 0.0 <= q <= 1.0
    ensures 0.0 <= q * m as real <= m as real
    ensures q == 0.0 ==> q * m as real == 0.0
    ensures q == 1.0 ==> q * m as real == m as real
  {
    var g := 1.0 - q;
    assert g * m as real >= 0.0;
    assert g * m as real == m as real - q * m as real;
  }

  /** The rank values 1, 2, ..., n in ascending order. */
  function RankValues(n: nat): (vs: seq<real>)
    ensures |vs| == n
    ensures forall i :: 0 <= i < n ==> vs[i] == (i + 1) as real
  {
    seq(n, i requires 0 <= i < n => (i + 1) as real)
  }

  /** Over the ranks 1..n the q-quantile is 1 + q(n - 1). */
  lemma {:induction false} QuantileOfRanks(n: nat, q: real)
    requires n >= 1 && 0.0 <= q <= 1.0
    ensures Quantile(RankValues(n), q) == 1.0 + q * (n - 1) as real
  {
    var vs := RankValues(n);
    var pos := Position(q, n);
    assert Quantile(vs, q) == ValueAt(vs, pos);
    RankValueAt(n, pos);
  }

  /** Over the ranks 1..n the value at position `pos` is 1 + pos. */
  lemma {:induction false} RankValueAt(n: nat, pos: real)
    requires n >= 1 && 0.0 <= pos <= (n - 1) as real
    ensures ValueAt(RankValues(n), pos) == 1.0 + pos
  {
    var vs := RankValues(n);
    var lo := pos.Floor;
    if lo < n - 1 {
      assert vs[lo] == (lo + 1) as real && vs[lo + 1] == (lo + 2) as real;
    }
  }

  /** The four bin edges `qcut(..., 3)` takes at quantiles 0, 1/3, 2/3, 1. */
  function Edges(n: nat): (e: seq<real>)
    requires n >= 1
    ensures |e| == 4
    ensures e[0] == 1.0 && e[1] == 1.0 + (n - 1) as real / 3.0
    ensures e[2] == 1.0 + 2.0 * (n - 1) as real / 3.0 && e[3] == n as real
  {
    var vs := RankValues(n);
    var e0, e1, e2, e3 := Quantile(vs, 0.0), Quantile(vs, 1.0 / 3.0), Quantile(vs, 2.0 / 3.0), Quantile(vs, 1.0);
    QuantileOfRanks(n, 0.0);
    QuantileOfRanks(n, 1.0 / 3.0);
    QuantileOfRanks(n, 2.0 / 3.0);
    QuantileOfRanks(n, 1.0);
    [e0, e1, e2, e3]
  }

  predicate EdgesUnique(e: seq<real>)
  {
    forall i, j :: 0 <= i < j < |e| ==> e[i] != e[j]
  }

  /** `qcut` raises on repeated edges; over the ranks they repeat exactly
      when there is a single product. */
  lemma {:induction false} EdgesUniqueIffSeveral(n: nat)
    requires n >= 1
    ensures EdgesUnique(Edges(n)) <==> n >= 2
  {
    var e := Edges(n);
    if n >= 2 {
      assert e[0] < e[1] < e[2] < e[3];
    } else {
      assert e[0] == e[1];
    }
  }

  /** The tiers and their labels 'A (Top)', 'B (Mid)', 'C (Low)'. */
  datatype Tier = TopA | MidB | LowC

  function TierIndex(t: Tier): nat
  {
    match t
    case TopA => 0
    case MidB => 1
    case LowC => 2
  }

  /** How many of the edges `e` lie strictly below `r`. */
  function EdgesBelow(e: seq<real>, r: real): nat
  {
    if e == [] then 0 else (if e[0] < r then 1 else 0) + EdgesBelow(e[1..], r)
  }

  lemma {:induction false} EdgesBelowFour(e: seq<real>, r: real)
    requires |e| == 4
    ensures EdgesBelow(e, r) ==
      (if e[0] < r then 1 else 0) + (if e[1] < r then 1 else 0) + (if e[2] < r then 1 else 0) + (if e[3] < r then 1 else 0)
  {
    var e1, e2, e3 := e[1..], e[2..], e[3..];
    assert e1 == e[1..] && e1[1..] == e2 && e2[1..] == e3 && e3[1..] == [];
    assert EdgesBelow(e3, r) == (if e[3] < r then 1 else 0) + EdgesBelow([], r);
    assert EdgesBelow(e2, r) == (if e[2] < r then 1 else 0) + EdgesBelow(e3, r);
    assert EdgesBelow(e1, r) == (if e[1] < r then 1 else 0) + EdgesBelow(e2, r);
  }

  /** The bin of `qcut`: [e0, e1] is A, (e1, e2] is B, (e2, e3] is C. Over
      ascending edges a value above the lowest edge falls in the bin just
      below the first edge not under it, as a left-sided search of the edges
      places it, and the lowest edge itself falls in the first bin. */
  function Bin(r: real, e: seq<real>): (t: Tier)
    requires |e| == 4
    ensures e[0] <= e[1] <= e[2] <= e[3] && e[0] < r <= e[3] ==> TierIndex(t) + 1 == EdgesBelow(e, r)
    ensures e[0] <= e[1] && r == e[0] ==> t == TopA
  {
    EdgesBelowFour(e, r);
    if r <= e[1] then TopA else if r <= e[2] then MidB else LowC
  }

  /** Integer reference definition of the tier of rank `r` among `n`. */
  function TierOfRank(r: int, n: int): Tier
  {
    if 3 * (r - 1) <= n - 1 then TopA
    else if 3 * (r - 1) <= 2 * (n - 1) then MidB
    else LowC
  }

  /** The quantile bins over ranks 1..n agree with the integer rule: A iff
      3(r - 1) <= n - 1, B iff not A and 3(r - 1) <= 2(n - 1), else C. */
  lemma {:induction false} BinIsTierOfRank(r: int, n: nat)
    requires n >= 1 && 1 <= r <= n
    ensures Bin(r as real, Edges(n)) == TierOfRank(r, n)
  {
  }

  /** Over revenues in decreasing order, the bin of each row's rank is the
      integer-rule tier of its position. */
  lemma {:induction false} SortedBinsAreTiersOfRank(v: seq<real>)
    requires |v| >= 1
    requires forall a, b :: 0 <= a < b < |v| ==> v[a] >= v[b]
    ensures forall i :: 0 <= i < |v| ==> Bin(Rank(v, i) as real, Edges(|v|)) == TierOfRank(i + 1, |v|)
  {
    forall i | 0 <= i < |v| ensures Bin(Rank(v, i) as real, Edges(|v|)) == TierOfRank(i + 1, |v|) {
      RankOfSortedIsPosition(v, i);
      BinIsTierOfRank(i + 1, |v|);
    }
  }

  /** A smaller rank never gets a later tier. */
  lemma TierOfRankMonotone(r1: int, r2: int, n: int)
    requires r1 <= r2
    ensures TierIndex(TierOfRank(r1, n)) <= TierIndex(TierOfRank(r2, n))
  {
  }

  /** A row of the ABC chart: product, revenue and class. */
  datatype Classified = Classified(product: string, revenue: real, tier: Tier)

  /** `pd.qcut` raises "Bin edges must be unique". */
  datatype AbcError = NonUniqueBinEdges

  /** The revenue column of a table. */
  function Revenues(sales: seq<Sale>): (v: seq<real>)
    ensures |v| == |sales| && forall i :: 0 <= i < |v| ==> v[i] == sales[i].revenue
  {
    seq(|sales|, i requires 0 <= i < |sales| => sales[i].revenue)
  }

  /** `prod_sales['Class']`: each row of the ranked table with the `qcut`
      bin of its rank. */
  function TierTable(ranked: seq<Sale>): (t: seq<Classified>)
    requires |ranked| >= 1
    ensures |t| == |ranked|
    ensures forall i :: 0 <= i < |t| ==> t[i].product == ranked[i].product && t[i].revenue == ranked[i].revenue
    ensures (forall a, b :: 0 <= a < b < |ranked| ==> ranked[a].revenue >= ranked[b].revenue) ==>
      forall i :: 0 <= i < |t| ==> t[i].tier == TierOfRank(i + 1, |t|)
  {
    var n := |ranked|;
    var e := Edges(n);
    var revenues := Revenues(ranked);
    var t := seq(n, i requires 0 <= i < n => Classified(ranked[i].product, ranked[i].revenue, Bin(Rank(revenues, i) as real, e)));
    if forall a, b :: 0 <= a < b < n ==> ranked[a].revenue >= ranked[b].revenue then
      assert forall a, b :: 0 <= a < b < n ==> revenues[a] >= revenues[b];
      assert forall i :: 0 <= i < n ==> t[i].tier == Bin(Rank(revenues, i) as real, Edges(n));
      SortedBinsAreTiersOfRank(revenues);
      t
    else t
  }

  /** The ABC table: ranked products, each with the quantile bin of its
      rank; an error where `qcut` cannot form three bins. */
  function AbcAnalysis(rows: seq<Row>): (r: Result<seq<Classified>, AbcError>)
    ensures r.Err? <==> |ProductSales(rows)| < 2
    ensures r.Ok? ==> |r.value| == |ProductSales(rows)|
    ensures r.Ok? ==> forall i :: 0 <= i < |r.value| ==>
      Sale(r.value[i].product, r.value[i].revenue) == RankedSales(rows)[i]
  {
    var ranked := RankedSales(rows);
    var n := |ranked|;
    if n == 0 then Err(NonUniqueBinEdges)
    else
      EdgesUniqueIffSeveral(n);
      if !EdgesUnique(Edges(n)) then Err(NonUniqueBinEdges) else Ok(TierTable(ranked))
  }

  /** The ranked revenue table lists every product sold exactly once, each
      with its revenue. */
  lemma {:induction false} RankedSalesListProductsOnce(rows: seq<Row>)
    ensures var ranked := RankedSales(rows);
      && (forall p :: (exists i :: 0 <= i < |ranked| && ranked[i].product == p) <==> HasKey(rows, ProductOf, p))
      && (forall i, j :: 0 <= i < j < |ranked| ==> ranked[i].product != ranked[j].product)
      && (forall i :: 0 <= i < |ranked| ==> ranked[i].revenue == Revenue(rows, ranked[i].product))
  {
    var ranked := RankedSales(rows);
    var sales := ProductSales(rows);
    assert forall x :: x in ranked <==> x in sales by {
      forall x ensures x in ranked <==> x in sales {
        assert x in ranked <==> x in multiset(ranked);
      }
    }
    forall p ensures (exists i :: 0 <= i < |ranked| && ranked[i].product == p) <==> HasKey(rows, ProductOf, p) {
      if exists i :: 0 <= i < |ranked| && ranked[i].product == p {
        var i :| 0 <= i < |ranked| && ranked[i].product == p;
        assert ranked[i] in sales;
      }
      if HasKey(rows, ProductOf, p) {
        var k :| 0 <= k < |sales| && sales[k].product == p;
        assert sales[k] in ranked;
      }
    }
    forall i | 0 <= i < |ranked| ensures ranked[i].revenue == Revenue(rows, ranked[i].product) {
      assert ranked[i] in sales;
    }
    assert NoDuplicates(sales);
    PermutationKeepsNoDuplicates(sales, ranked);
  }

  /** The ABC table lists every product sold exactly once, by decreasing
      revenue, with its revenue. */
  lemma {:induction false} AbcListsEachProductOnce(rows: seq<Row>)
    requires AbcAnalysis(rows).Ok?
    ensures var t := AbcAnalysis(rows).value;
      && (forall p :: (exists i :: 0 <= i < |t| && t[i].product == p) <==> HasKey(rows, ProductOf, p))
      && (forall i, j :: 0 <= i < j < |t| ==> t[i].product != t[j].product)
      && (forall i :: 0 <= i < |t| ==> t[i].revenue == Revenue(rows, t[i].product))
      && (forall i, j :: 0 <= i < j < |t| ==> t[i].revenue >= t[j].revenue)
  {
    var ranked := RankedSales(rows);
    RankedSalesListProductsOnce(rows);
    SameRowsListProductsOnce(rows, ranked, AbcAnalysis(rows).value);
  }

  /** A table carrying the products and revenues of a ranked revenue table,
      row by row, lists what that table lists. */
  lemma {:induction false} SameRowsListProductsOnce(rows: seq<Row>, ranked: seq<Sale>, t: seq<Classified>)
    requires |t| == |ranked|
    requires forall i :: 0 <= i < |t| ==> Sale(t[i].product, t[i].revenue) == ranked[i]
    requires forall p :: (exists i :: 0 <= i < |ranked| && ranked[i].product == p) <==> HasKey(rows, ProductOf, p)
    requires forall i, j :: 0 <= i < j < |ranked| ==> ranked[i].product != ranked[j].product
    requires forall i :: 0 <= i < |ranked| ==> ranked[i].revenue == Revenue(rows, ranked[i].product)
    requires forall i, j :: 0 <= i < j < |ranked| ==> ranked[i].revenue >= ranked[j].revenue
    ensures forall p :: (exists i :: 0 <= i < |t| && t[i].product == p) <==> HasKey(rows, ProductOf, p)
    ensures forall i, j :: 0 <= i < j < |t| ==> t[i].product != t[j].product && t[i].revenue >= t[j].revenue
    ensures forall i :: 0 <= i < |t| ==> t[i].revenue == Revenue(rows, t[i].product)
  {
    forall p ensures (exists i :: 0 <= i < |t| && t[i].product == p) <==> HasKey(rows, ProductOf, p) {
      if HasKey(rows, ProductOf, p) {
        var i :| 0 <= i < |ranked| && ranked[i].product == p;
        assert t[i].product == p;
      }
      if exists i :: 0 <= i < |t| && t[i].product == p {
        var i :| 0 <= i < |t| && t[i].product == p;
        assert ranked[i].product == p;
      }
    }
    forall i, j | 0 <= i < j < |t| ensures t[i].product != t[j].product && t[i].revenue >= t[j].revenue {
      assert Sale(t[i].product, t[i].revenue) == ranked[i] && Sale(t[j].product, t[j].revenue) == ranked[j];
    }
    forall i | 0 <= i < |t| ensures t[i].revenue == Revenue(rows, t[i].product) {
      assert Sale(t[i].product, t[i].revenue) == ranked[i];
    }
  }

  /** The row at position i (rank i + 1) is in the tier the integer rule
      gives rank i + 1, so A comes first and C last. */
  lemma {:induction false} AbcTiersByRank(rows: seq<Row>)
    requires AbcAnalysis(rows).Ok?
    ensures var t := AbcAnalysis(rows).value;
      && (forall i :: 0 <= i < |t| ==> t[i].tier == TierOfRank(i + 1, |t|))
      && t[0].tier == TopA && t[|t| - 1].tier == LowC
  {
    var ranked := RankedSales(rows);
    assert AbcAnalysis(rows).value == TierTable(ranked);
  }

  /** The rank column `qcut` bins is, on the ranked table, the positions
      1, 2, ..., n: exactly the values whose quantiles give the edges. */
  lemma {:induction false} RanksOfRankedSales(rows: seq<Row>)
    ensures var ranked := RankedSales(rows);
      forall i :: 0 <= i < |ranked| ==> Rank(Revenues(ranked), i) as real == RankValues(|ranked|)[i]
  {
    var ranked := RankedSales(rows);
    forall i | 0 <= i < |ranked| ensures Rank(Revenues(ranked), i) as real == RankValues(|ranked|)[i] {
      RankOfSortedIsPosition(Revenues(ranked), i);
    }
  }

  /** Tiers never go back along the ranking: every A product outranks and
      out-earns every B and C product, and every B product every C one. */
  lemma {:induction false} AbcTiersOrdered(rows: seq<Row>, i: nat, j: nat)
    requires AbcAnalysis(rows).Ok? && i < j < |AbcAnalysis(rows).value|
    ensures var t := AbcAnalysis(rows).value;
      TierIndex(t[i].tier) <= TierIndex(t[j].tier) && t[i].revenue >= t[j].revenue
  {
    AbcListsEachProductOnce(rows);
    AbcTiersByRank(rows);
    TierOfRankMonotone(i + 1, j + 1, |AbcAnalysis(rows).value|);
  }
}

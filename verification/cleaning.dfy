/** The filters of `load_and_clean_data`: sort by date, keep sales, drop the
    closed period, drop the excluded products. */
module Cleaning {
  import opened Wrappers
  import opened Sequences
  import opened Transactions

  /** The case equivalence Python's regular-expression engine applies, with
      IGNORECASE, to the letters of the pattern "Satış|Satis|SATIS": simple
      lower-casing, plus its equivalence classes {i, ı} (so also I and İ,
      which lower-case to i) and {s, ſ}. */
  function Fold(c: char): char
  {
    if 'A' <= c <= 'Z' then (c as int + 32) as char
    else if c == 'ı' || c == 'İ' then 'i'
    else if c == 'Ş' then 'ş'
    else if c == 'ſ' then 's'
    else c
  }

  /** `pat` occurs in `s` at position `i`, ignoring case. */
  ghost predicate MatchesAt(s: string, i: int, pat: string)
    requires 0 <= i && i + |pat| <= |s|
  {
    forall k :: 0 <= k < |pat| ==> Fold(s[i + k]) == Fold(pat[k])
  }

  /** `str.contains(pat, case=False)` for a literal pattern. */
  function ContainsIgnoringCase(s: string, pat: string): (r: bool)
    ensures r <==> exists i :: 0 <= i && i + |pat| <= |s| && MatchesAt(s, i, pat)
    decreases |s|
  {
    if |s| < |pat| then false
    else if forall k :: 0 <= k < |pat| ==> Fold(s[k]) == Fold(pat[k]) then
      assert MatchesAt(s, 0, pat);
      true
    else
      var rest := ContainsIgnoringCase(s[1..], pat);
      assert !MatchesAt(s, 0, pat);
      assert rest ==> exists i :: 0 <= i && i + |pat| <= |s| && MatchesAt(s, i, pat) by {
        if rest {
          var i :| 0 <= i && i + |pat| <= |s| - 1 && MatchesAt(s[1..], i, pat);
          assert MatchesAt(s, i + 1, pat) by {
            forall k | 0 <= k < |pat| ensures Fold(s[i + 1 + k]) == Fold(pat[k]) {
              assert s[1..][i + k] == s[i + 1 + k];
            }
          }
        }
      }
      assert (exists i :: 0 <= i && i + |pat| <= |s| && MatchesAt(s, i, pat)) ==> rest by {
        if exists i :: 0 <= i && i + |pat| <= |s| && MatchesAt(s, i, pat) {
          var i :| 0 <= i && i + |pat| <= |s| && MatchesAt(s, i, pat);
          assert i != 0;
          assert MatchesAt(s[1..], i - 1, pat) by {
            forall k | 0 <= k < |pat| ensures Fold(s[1..][i - 1 + k]) == Fold(pat[k]) {
              assert s[1..][i - 1 + k] == s[i + k];
            }
          }
        }
      }
      rest
  }

  /** The sale mask: the transaction type contains "Satış", "Satis" or
      "SATIS", ignoring case. Under case folding the third alternative adds
      nothing to the second. */
  predicate IsSale(row: Row): (b: bool)
    ensures b <==>
      ContainsIgnoringCase(row.transactionType, "Satış") || ContainsIgnoringCase(row.transactionType, "Satis")
  {
    var p, q := "SATIS", "Satis";
    assert Fold(p[0]) == Fold(q[0]) && Fold(p[1]) == Fold(q[1]) && Fold(p[2]) == Fold(q[2]);
    assert Fold(p[3]) == Fold(q[3]) && Fold(p[4]) == Fold(q[4]);
    SameFoldSameMatches(row.transactionType, p, q);
    || ContainsIgnoringCase(row.transactionType, "Satış")
    || ContainsIgnoringCase(row.transactionType, "Satis")
    || ContainsIgnoringCase(row.transactionType, "SATIS")
  }

  /** Patterns that agree letter by letter up to case are found in the same
      strings. */
  lemma {:induction false} SameFoldSameMatches(s: string, p: string, q: string)
    requires |p| == |q| && forall k :: 0 <= k < |p| ==> Fold(p[k]) == Fold(q[k])
    ensures ContainsIgnoringCase(s, p) == ContainsIgnoringCase(s, q)
  {
    forall i | 0 <= i && i + |p| <= |s|
      ensures MatchesAt(s, i, p) <==> MatchesAt(s, i, q)
    {
    }
  }

  /** The first and last instants of the closed period, compared as pandas
      compares a timestamp with the strings '2024-09-13' and '2024-10-31'
      (both read as midnight). */
  const ClosedFrom := Stamp(2024, 9, 13, 0, 0, 0, 0)
  const ClosedTo := Stamp(2024, 10, 31, 0, 0, 0, 0)

  /** `(Date < '2024-09-13') | (Date > '2024-10-31')`; both comparisons are
      false for NaT. A date is dropped exactly when it lies in the closed
      window [2024-09-13 00:00, 2024-10-31 00:00] or is missing. */
  predicate IsOpenPeriod(date: Option<Stamp>): (b: bool)
    ensures !b <==> date.None? || (StampLe(ClosedFrom, date.value) && StampLe(date.value, ClosedTo))
  {
    date.Some? && (StampLt(date.value, ClosedFrom) || StampLt(ClosedTo, date.value))
  }

  /** Product names always removed from the analysis. */
  const ExcludedProducts: seq<string> := [
    "KAN ÜRÜNÜ 1 ADI", "KAN ÜRÜNÜ 2 ADI", "POŞET", "Eczane Poşeti",
    "OCTAGAM 10 G/200 ML IV INFUZYONLUK COZELTI(10 GR)",
    "EMOCLOT-DI 1.000 IU (FACTOR 8) 1 FLK",
    "MOUNJARO 2,5 MG/0,5 ML ENJEKSIYONLUK COZELTI (4 ADET)",
    "MOUNJARO 10 MG/0,5 ML ENJEKSIYONLUK COZELTI (4 ADET)",
    "MOUNJARO 5 MG/0,5 ML ENJEKSIYONLUK COZELTI (4 ADET)",
    "MOUNJARO 7,5 MG/0,5 ML ENJEKSIYONLUK COZELTI (4 ADET)",
    "XTANDI 40 MG YUMUSAK KAPSUL (112 KAPSUL)",
    "ERLEADA 60 MG FILM KAPLI TABLET (120 TABLET)",
    "ARANESP 40 MCG.4 KULL.HAZIR SIRINGA",
    "EMGALITY 120 MG/ML ENJEKSIYONLUK COZELTI ICEREN KULLANIMA HAZIR KALEM (1 KALEM)",
    "NUCALA 100 MG/ML SC ENJEKSIYONLUK COZELTI ICEREN KULLANIMA HAZIR KALEM (1 ADET)",
    "OZEMPIC 1 MG ENJEKSIYONLUK COZELTI ICEREN KULLANIMA HAZIR KALEM (1 ADET)",
    "VERXANT 150 MG/1 ML ENJEKSIYONLUK COZELTI ICEREN KULLANIMA HAZIR KALEM",
    "ABOUND PORTAKAL AROMALI TOZ 24 GR 30 POSET(2.670 KCAL)",
    "GENOTROPIN 36 IU (12 MG) GOQUICK ENJ. SOL. ICIN TOZ VE COZ. ICEREN KULL. HAZIR KALEM",
    "EPOBEL 5000 IU/0,5 ML I.V. /S.C. STERIL ENJEKSIYONLUK COZELTI ICEREN KULLANIMA HAZIR ENJEKTOR 6 ENJE",
    "ELIQUIS 2,5 MG FILM KAPLI 56 TABLET",
    "ARANESP 60 MCG.4 KULL.HAZIR SIRINGA"
  ]

  /** `Product_Name.isin(EXCLUDED_PRODUCTS)`: exact matches only; an empty
      product cell is never excluded. */
  predicate IsExcluded(row: Row): (b: bool)
    ensures row.product.None? ==> !b
    ensures b <==> exists i :: 0 <= i < |ExcludedProducts| && row.product == Some(ExcludedProducts[i])
  {
    row.product.Some? && row.product.value in ExcludedProducts
  }

  predicate NotExcluded(row: Row)
  {
    !IsExcluded(row)
  }

  predicate InOpenPeriod(row: Row)
  {
    IsOpenPeriod(row.date)
  }

  /** `df.sort_values(by='Date')`: a permutation, ascending, NaT last. */
  function SortByDate(rows: seq<Row>): (r: seq<Row>)
    ensures multiset(r) == multiset(rows)
    ensures SortedBy(r, RowDateLe)
  {
    DateOrderIsTotal();
    SortBy(rows, RowDateLe)
  }

  /** Filter A: keep sale rows only. */
  function KeepSales(rows: seq<Row>): (r: seq<Row>)
    ensures Subsequence(r, rows)
    ensures forall row :: multiset(r)[row] == if IsSale(row) then multiset(rows)[row] else 0
    ensures forall row :: row in r ==> IsSale(row)
  {
    Filter(rows, IsSale)
  }

  /** Filter B: drop the closed period (and every NaT row). */
  function KeepOpenPeriod(rows: seq<Row>): (r: seq<Row>)
    ensures Subsequence(r, rows)
    ensures forall row :: multiset(r)[row] == if InOpenPeriod(row) then multiset(rows)[row] else 0
    ensures forall row :: row in r ==>
      row.date.Some? && (StampLt(row.date.value, ClosedFrom) || StampLt(ClosedTo, row.date.value))
  {
    Filter(rows, InOpenPeriod)
  }

  /** Filter C: drop the excluded products. */
  function DropExcluded(rows: seq<Row>): (r: seq<Row>)
    ensures Subsequence(r, rows)
    ensures forall row :: multiset(r)[row] == if NotExcluded(row) then multiset(rows)[row] else 0
    ensures forall row :: row in r ==> row.product.None? || row.product.value !in ExcludedProducts
  {
    Filter(rows, NotExcluded)
  }

  /** The rows `load_and_clean_data` keeps from table `t`: dated outside
      the closed window, not an excluded product, and a sale when the table
      records transaction types. */
  predicate Kept(t: Table, row: Row): (b: bool)
    ensures b <==>
      && row.date.Some?
      && !(StampLe(ClosedFrom, row.date.value) && StampLe(row.date.value, ClosedTo))
      && (row.product.None? || row.product.value !in ExcludedProducts)
      && (t.hasTransactionType ==>
            ContainsIgnoringCase(row.transactionType, "Satış") || ContainsIgnoringCase(row.transactionType, "Satis"))
  {
    && (t.hasTransactionType ==> IsSale(row))
    && InOpenPeriod(row)
    && NotExcluded(row)
  }

  /** `load_and_clean_data` after the columns are in place: exactly the kept
      rows, each as often as in the report, in date order. */
  function Clean(t: Table): (r: seq<Row>)
    ensures forall row :: multiset(r)[row] == if Kept(t, row) then multiset(t.rows)[row] else 0
    ensures SortedBy(r, RowDateLe)
  {
    var sorted := SortByDate(t.rows);
    var sales := if t.hasTransactionType then KeepSales(sorted) else sorted;
    var open := KeepOpenPeriod(sales);
    var r := DropExcluded(open);
    SubsequenceOfItself(sorted);
    CleanKeepsExactlyKept(t, sorted, sales, open, r);
    SubsequenceKeepsOrder(sales, sorted, RowDateLe);
    SubsequenceKeepsOrder(open, sales, RowDateLe);
    SubsequenceKeepsOrder(r, open, RowDateLe);
    r
  }

  /** The three filters applied after the sort compose to the `Kept` mask. */
  lemma CleanKeepsExactlyKept(t: Table, sorted: seq<Row>, sales: seq<Row>, open: seq<Row>, r: seq<Row>)
    requires multiset(sorted) == multiset(t.rows)
    requires forall row ::
      multiset(sales)[row] == if !t.hasTransactionType || IsSale(row) then multiset(sorted)[row] else 0
    requires forall row :: multiset(open)[row] == if InOpenPeriod(row) then multiset(sales)[row] else 0
    requires forall row :: multiset(r)[row] == if NotExcluded(row) then multiset(open)[row] else 0
    ensures forall row :: multiset(r)[row] == if Kept(t, row) then multiset(t.rows)[row] else 0
  {
  }

  /** Every cleaned row is a dated sale outside the closed period whose
      product is not on the exclusion list. */
  lemma {:induction false} CleanedRowsPassFilters(t: Table, row: Row)
    requires row in Clean(t)
    ensures row.date.Some?
    ensures StampLt(row.date.value, ClosedFrom) || StampLt(ClosedTo, row.date.value)
    ensures row.product.None? || row.product.value !in ExcludedProducts
    ensures t.hasTransactionType ==> IsSale(row)
  {
    assert multiset(Clean(t))[row] > 0;
  }
}

/** The cross-selling table: association rules, as the miner returns them,
    ordered by lift and cut to the display limit. The mining itself is not
    modelled; its rules are an input. */
module Rules {
  import opened Sequences

  /** One association rule with its metrics. */
  datatype Rule = Rule(antecedents: set<string>, consequents: set<string>,
                       support: real, confidence: real, lift: real)

  /** `sort_values(['lift'], ascending=False)`. */
  predicate LiftDesc(a: Rule, b: Rule)
  {
    a.lift >= b.lift
  }

  /** `head(20)`. */
  const DisplayLimit: nat := 20

  /** The rules from the highest lift down. */
  function ByLift(rules: seq<Rule>): (sorted: seq<Rule>)
    ensures multiset(sorted) == multiset(rules)
    ensures forall i, j :: 0 <= i < j < |sorted| ==> sorted[i].lift >= sorted[j].lift
  {
    SortBy(rules, LiftDesc)
  }

  /** The rules shown: the first twenty by lift. */
  function Displayed(rules: seq<Rule>): (shown: seq<Rule>)
    ensures |shown| == if |rules| < DisplayLimit then |rules| else DisplayLimit
    ensures shown == ByLift(rules)[..|shown|]
    ensures forall i, j :: 0 <= i < j < |shown| ==> shown[i].lift >= shown[j].lift
  {
    var sorted := ByLift(rules);
    if |sorted| <= DisplayLimit then sorted else sorted[..DisplayLimit]
  }

  /** In a sequence ordered by descending lift, the first `k` are drawn from
      it, and every element past them has a lift no higher than any of them. */
  lemma {:induction false} PrefixHasTopLifts(sorted: seq<Rule>, k: nat)
    requires k <= |sorted|
    requires forall i, j :: 0 <= i < j < |sorted| ==> sorted[i].lift >= sorted[j].lift
    ensures multiset(sorted[..k]) <= multiset(sorted)
    ensures forall x :: multiset(sorted[..k])[x] < multiset(sorted)[x] ==>
      forall i :: 0 <= i < k ==> sorted[i].lift >= x.lift
  {
    assert sorted[..k] + sorted[k..] == sorted;
    assert multiset(sorted) == multiset(sorted[..k]) + multiset(sorted[k..]);
    forall x | multiset(sorted[..k])[x] < multiset(sorted)[x]
      ensures forall i :: 0 <= i < k ==> sorted[i].lift >= x.lift
    {
      assert x in multiset(sorted[k..]);
      var m :| 0 <= m < |sorted| - k && sorted[k..][m] == x;
      assert sorted[k + m] == x;
    }
  }

  /** The table shows rules that were mined, and every rule left out has a
      lift no higher than any rule shown. */
  lemma {:induction false} DisplayedAreTopByLift(rules: seq<Rule>)
    ensures multiset(Displayed(rules)) <= multiset(rules)
    ensures forall x :: x in rules && multiset(Displayed(rules))[x] < multiset(rules)[x] ==>
      forall i :: 0 <= i < |Displayed(rules)| ==> Displayed(rules)[i].lift >= x.lift
  {
    var sorted := ByLift(rules);
    var shown := Displayed(rules);
    PrefixHasTopLifts(sorted, |shown|);
    assert shown == sorted[..|shown|];
  }

  /** What the cross-selling tab shows. */
  datatype CrossSelling =
    | NoPatterns                          // "No patterns found yet."
    | Found(count: nat, shown: seq<Rule>)  // "Found {count} relationships!" and the table

  /** The tab for `frequentItemsets` frequent itemsets and the rules mined
      from them: the count reported is that of all rules, not of the rows
      shown. */
  function CrossSell(frequentItemsets: nat, rules: seq<Rule>): (r: CrossSelling)
    ensures r.NoPatterns? <==> frequentItemsets == 0
    ensures r.Found? ==> r.count == |rules| && r.shown == Displayed(rules)
    ensures r.Found? ==> |r.shown| <= DisplayLimit && |r.shown| <= r.count
  {
    if frequentItemsets == 0 then NoPatterns else Found(|rules|, Displayed(rules))
  }
}

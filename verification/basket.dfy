/** The market-basket matrix handed to the itemset miner: one row per sale
    timestamp, one column per product, 1 where that product was sold at
    that timestamp (at least one unit) and 0 elsewhere. */
module Basket {
  import opened Wrappers
  import opened Sequences
  import opened Transactions

  /** A (Date, Product_Name) pair: one cell of the basket matrix. */
  type Cell = (Stamp, string)

  /** The key of `groupby(['Date', 'Product_Name'])`; a row with a missing
      date or product has no key and is dropped by the groupby. */
  function CellOf(row: Row): Option<Cell>
  {
    if row.date.Some? && row.product.Some? then Some((row.date.value, row.product.value)) else None
  }

  /** Reference definition: the total quantity sold in cell `c`. */
  function QuantityIn(rows: seq<Row>, c: Cell): (q: real)
    ensures !HasKey(rows, CellOf, c) ==> q == 0.0
    ensures (forall i :: 0 <= i < |rows| ==> rows[i].quantity >= 0.0) ==> q >= 0.0
  {
    if rows == [] then 0.0
    else
      HasKeySplit(rows, CellOf, c);
      (if CellOf(rows[0]) == Some(c) then rows[0].quantity else 0.0) + QuantityIn(rows[1..], c)
  }

  /** `groupby(['Date', 'Product_Name'])['Quantity'].sum()`: one entry per
      occupied cell, holding the cell's total quantity. */
  function GroupedQuantity(rows: seq<Row>): (m: map<Cell, real>)
    ensures forall c :: c in m <==> HasKey(rows, CellOf, c)
    ensures forall c :: c in m ==> m[c] == QuantityIn(rows, c)
  {
    if rows == [] then map[]
    else
      var rest := GroupedQuantity(rows[1..]);
      assert forall c :: HasKey(rows, CellOf, c) <==> CellOf(rows[0]) == Some(c) || HasKey(rows[1..], CellOf, c) by {
        forall c ensures HasKey(rows, CellOf, c) <==> CellOf(rows[0]) == Some(c) || HasKey(rows[1..], CellOf, c) {
          HasKeySplit(rows, CellOf, c);
        }
      }
      match CellOf(rows[0])
      case None => rest
      case Some(c) =>
        if c in rest then rest[c := rows[0].quantity + rest[c]]
        else
          rest[c := rows[0].quantity]
  }

  /** A date × product table of reals; `cell` is indexed by (date, product). */
  datatype Grid = Grid(baskets: set<Stamp>, items: set<string>, cell: map<Cell, real>)

  /** Every (basket, item) pair has a cell and there are no others. */
  ghost predicate Rectangular(g: Grid)
  {
    forall c: Cell :: c in g.cell <==> c.0 in g.baskets && c.1 in g.items
  }

  function Pairs(baskets: set<Stamp>, items: set<string>): (ps: set<Cell>)
    ensures forall c: Cell :: c in ps <==> c.0 in baskets && c.1 in items
  {
    set d, p | d in baskets && p in items :: (d, p)
  }

  /** `.unstack().reset_index().fillna(0).set_index('Date')`: rows are the
      dates of the grouped cells, columns their products, and a pair with
      no grouped entry reads 0. */
  function BasketMatrix(rows: seq<Row>): (g: Grid)
    ensures Rectangular(g)
    ensures forall d :: d in g.baskets <==> exists p :: HasKey(rows, CellOf, (d, p))
    ensures forall p :: p in g.items <==> exists d :: HasKey(rows, CellOf, (d, p))
    ensures forall c :: c in g.cell ==> g.cell[c] == QuantityIn(rows, c)
  {
    var m := GroupedQuantity(rows);
    var baskets := set c | c in m :: c.0;
    var items := set c | c in m :: c.1;
    var g := Grid(baskets, items, map c | c in Pairs(baskets, items) :: if c in m then m[c] else 0.0);
    assert forall c :: c in g.cell ==> g.cell[c] == QuantityIn(rows, c) by {
      forall c | c in g.cell ensures g.cell[c] == QuantityIn(rows, c) {
        if c !in m {
        }
      }
    }
    assert forall d :: d in baskets <==> exists p :: HasKey(rows, CellOf, (d, p)) by {
      forall d ensures d in baskets <==> exists p :: HasKey(rows, CellOf, (d, p)) {
        if exists p :: HasKey(rows, CellOf, (d, p)) {
          var p :| HasKey(rows, CellOf, (d, p));
          assert (d, p) in m;
        }
      }
    }
    assert forall p :: p in items <==> exists d :: HasKey(rows, CellOf, (d, p)) by {
      forall p ensures p in items <==> exists d :: HasKey(rows, CellOf, (d, p)) {
        if exists d :: HasKey(rows, CellOf, (d, p)) {
          var d :| HasKey(rows, CellOf, (d, p));
          assert (d, p) in m;
        }
      }
    }
    g
  }

  /** A (date, product) pair of the matrix that no sale falls into reads 0,
      never a missing value. */
  lemma {:induction false} MissingPairReadsZero(rows: seq<Row>, d: Stamp, p: string)
    requires d in BasketMatrix(rows).baskets && p in BasketMatrix(rows).items
    requires !HasKey(rows, CellOf, (d, p))
    ensures (d, p) in BasketMatrix(rows).cell && BasketMatrix(rows).cell[(d, p)] == 0.0
  {
  }

  /** `encode_units`: 1 for at least one unit, 0 otherwise (returns and
      zero-quantity cells included). */
  function EncodeUnits(x: real): (b: real)
    ensures b == 0.0 || b == 1.0
    ensures b == 1.0 <==> x >= 1.0
  {
    if x >= 1.0 then 1.0 else 0.0
  }

  /** `basket.applymap(encode_units)`: the same shape, every cell encoded. */
  function EncodeGrid(g: Grid): (e: Grid)
    ensures e.baskets == g.baskets && e.items == g.items && e.cell.Keys == g.cell.Keys
    ensures forall c :: c in e.cell ==> e.cell[c] == EncodeUnits(g.cell[c])
  {
    Grid(g.baskets, g.items, map c | c in g.cell :: EncodeUnits(g.cell[c]))
  }

  /** Re-encoding an encoded matrix changes nothing. */
  lemma {:induction false} EncodeGridIdempotent(g: Grid)
    ensures EncodeGrid(EncodeGrid(g)) == EncodeGrid(g)
  {
    var e := EncodeGrid(g);
    assert EncodeGrid(e).cell == e.cell;
  }

  /** `basket_sets`: a 0/1 matrix over the sale timestamps and products in
      which a cell is 1 exactly when at least one unit of that product was
      sold at that timestamp. */
  function BasketSets(rows: seq<Row>): (g: Grid)
    ensures Rectangular(g)
    ensures forall d :: d in g.baskets <==> exists p :: HasKey(rows, CellOf, (d, p))
    ensures forall p :: p in g.items <==> exists d :: HasKey(rows, CellOf, (d, p))
    ensures forall c :: c in g.cell ==> g.cell[c] == 0.0 || g.cell[c] == 1.0
    ensures forall c :: c in g.cell ==> (g.cell[c] == 1.0 <==> QuantityIn(rows, c) >= 1.0)
  {
    EncodeGrid(BasketMatrix(rows))
  }
}

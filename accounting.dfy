/** Value-level view of the brewery's bookkeeping.

    The inventory and a recipe's requirements are both seen as sequences of
    (name, quantity) entries.  Quantities are exact reals.  The functions here
    are the specifications the imperative classes are proved against. */
module Accounting {

  /** The value held by one Ingredient cell: its name and its quantity. */
  datatype Item = Item(name: string, quantity: real)

  /** The quantity needed for `servings` servings: the per-serving quantity
      scaled linearly, with no rounding and no check on `servings`. */
  function RequiredAmount(perServing: real, servings: int): (r: real)
    ensures servings == 0 ==> r == 0.0
    ensures servings == 1 ==> r == perServing
    ensures perServing >= 0.0 && servings >= 0 ==> r >= 0.0
  {
    perServing * servings as real
  }

  /** Names of the entries are pairwise distinct. */
  predicate NamesDistinct(stock: seq<Item>) {
    forall i, j :: 0 <= i < j < |stock| ==> stock[i].name != stock[j].name
  }

  /** Some entry has the given name and at least `amount` of it. */
  predicate Covered(stock: seq<Item>, name: string, amount: real) {
    exists i :: 0 <= i < |stock| && stock[i].name == name && stock[i].quantity >= amount
  }

  /** Every requirement, scaled by `servings`, is covered by a same-named entry. */
  predicate Sufficient(stock: seq<Item>, needs: seq<Item>, servings: int) {
    forall j :: 0 <= j < |needs| ==> Covered(stock, needs[j].name, RequiredAmount(needs[j].quantity, servings))
  }

  /** Index of the first entry with the given name, or |stock| when there is none. */
  function Position(stock: seq<Item>, name: string): (k: nat)
    ensures k <= |stock|
    ensures k < |stock| ==> stock[k].name == name
    ensures forall i :: 0 <= i < k ==> stock[i].name != name
  {
    if stock == [] then 0
    else if stock[0].name == name then 0
    else 1 + Position(stock[1..], name)
  }

  /** Adding an entry to a stock of the given capacity: refused outright when
      full (even when the name is already present); otherwise merged into the
      first same-named entry, or appended when the name is new. */
  function AddToStock(stock: seq<Item>, capacity: nat, x: Item): (r: seq<Item>)
    ensures |stock| <= capacity ==> |r| <= capacity
    ensures |stock| <= |r| <= |stock| + 1
  {
    if |stock| >= capacity then stock
    else
      var k := Position(stock, x.name);
      if k < |stock| then stock[k := Item(x.name, stock[k].quantity + x.quantity)]
      else stock + [x]
  }

  /** Total quantity held under a name, over all entries with that name. */
  function OnHand(stock: seq<Item>, name: string): real {
    if stock == [] then 0.0
    else
      var last := stock[|stock| - 1];
      OnHand(stock[..|stock| - 1], name) + (if last.name == name then last.quantity else 0.0)
  }

  /** Total quantity the requirements ask of a name for `servings` servings. */
  function Demand(name: string, needs: seq<Item>, servings: int): real {
    if needs == [] then 0.0
    else
      var last := needs[|needs| - 1];
      Demand(name, needs[..|needs| - 1], servings)
        + (if last.name == name then RequiredAmount(last.quantity, servings) else 0.0)
  }

  /** One pass of the inner debit loop: every entry named like `need` loses the
      scaled requirement; the others are left as they are. */
  function DebitOne(stock: seq<Item>, need: Item, servings: int): (r: seq<Item>)
    ensures |r| == |stock|
  {
    seq(|stock|, i requires 0 <= i < |stock| =>
      if stock[i].name == need.name
      then Item(stock[i].name, stock[i].quantity - RequiredAmount(need.quantity, servings))
      else stock[i])
  }

  /** The debit loop over all requirements, in order.  Each entry keeps its name
      and loses exactly the total demand for its name. */
  function Debit(stock: seq<Item>, needs: seq<Item>, servings: int): (r: seq<Item>)
    ensures |r| == |stock|
  {
    if needs == [] then stock
    else DebitOne(Debit(stock, needs[..|needs| - 1], servings), needs[|needs| - 1], servings)
  }
}

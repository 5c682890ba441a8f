/** Laws of the value-level bookkeeping: what adding and debiting do to the
    quantities held under each name. */
module StockLaws {
  import opened Accounting

  // ---------------------------------------------------------------------------
  // Totals per name

  lemma {:induction false} OnHandAppend(stock: seq<Item>, x: Item, name: string)
    ensures OnHand(stock + [x], name) == OnHand(stock, name) + (if x.name == name then x.quantity else 0.0)
  {
    assert (stock + [x])[..|stock|] == stock;
  }

  /** Replacing one entry changes the total of a name by the difference of the
      two entries' contributions to it. */
  lemma {:induction false} OnHandUpdate(stock: seq<Item>, k: nat, y: Item, name: string)
    requires k < |stock|
    ensures OnHand(stock[k := y], name)
         == OnHand(stock, name)
            - (if stock[k].name == name then stock[k].quantity else 0.0)
            + (if y.name == name then y.quantity else 0.0)
  {
    var n := |stock| - 1;
    var updated := stock[k := y];
    if k == n {
      assert updated[..n] == stock[..n];
    } else {
      assert updated[..n] == stock[..n][k := y];
      OnHandUpdate(stock[..n], k, y, name);
    }
  }

  /** With distinct names, the total of a stored name is that entry's quantity. */
  lemma {:induction false} OnHandOfDistinct(stock: seq<Item>, i: nat)
    requires NamesDistinct(stock) && i < |stock|
    ensures OnHand(stock, stock[i].name) == stock[i].quantity
  {
    var n := |stock| - 1;
    if i < n {
      OnHandOfDistinct(stock[..n], i);
      assert stock[n].name != stock[i].name;
    } else {
      OnHandOfAbsent(stock[..n], stock[i].name);
    }
  }

  /** A name no entry carries has total zero. */
  lemma {:induction false} OnHandOfAbsent(stock: seq<Item>, name: string)
    requires forall i :: 0 <= i < |stock| ==> stock[i].name != name
    ensures OnHand(stock, name) == 0.0
  {
    if stock != [] {
      OnHandOfAbsent(stock[..|stock| - 1], name);
    }
  }

  // ---------------------------------------------------------------------------
  // Adding

  /** When the stock is not full, adding `x` raises the total of `x.name` by
      `x.quantity` and leaves the total of every other name alone, whether the
      entry was merged or appended. */
  lemma AddToStockOnHand(stock: seq<Item>, capacity: nat, x: Item, name: string)
    requires |stock| < capacity
    ensures OnHand(AddToStock(stock, capacity, x), name)
         == OnHand(stock, name) + (if name == x.name then x.quantity else 0.0)
  {
    var k := Position(stock, x.name);
    if k < |stock| {
      OnHandUpdate(stock, k, Item(x.name, stock[k].quantity + x.quantity), name);
    } else {
      OnHandAppend(stock, x, name);
    }
  }

  /** The merge law: two adds under the same name give the sum of both
      quantities, provided neither add is refused: the stock is not full, and
      the first add either merges or leaves room for the second. */
  lemma MergeLaw(stock: seq<Item>, capacity: nat, name: string, a: real, b: real)
    requires |stock| < capacity && (Position(stock, name) < |stock| || |stock| + 1 < capacity)
    ensures OnHand(AddToStock(AddToStock(stock, capacity, Item(name, a)), capacity, Item(name, b)), name)
         == OnHand(stock, name) + a + b
  {
    var once := AddToStock(stock, capacity, Item(name, a));
    AddToStockOnHand(stock, capacity, Item(name, a), name);
    AddToStockOnHand(once, capacity, Item(name, b), name);
  }

  /** Adding keeps the names pairwise distinct. */
  lemma AddKeepsNamesDistinct(stock: seq<Item>, capacity: nat, x: Item)
    requires NamesDistinct(stock)
    ensures NamesDistinct(AddToStock(stock, capacity, x))
  {
    if |stock| < capacity {
      var k := Position(stock, x.name);
      var r := AddToStock(stock, capacity, x);
      forall i, j | 0 <= i < j < |r| ensures r[i].name != r[j].name {
        if k == |stock| && j == |stock| {
          assert r[i] == stock[i];
        }
      }
    }
  }

  /** Stated without reference to the search: on a stock with distinct names
      that is not full, an absent name is appended at the end, and a present
      name has exactly its own entry increased. */
  lemma AddToStockEffect(stock: seq<Item>, capacity: nat, x: Item)
    requires NamesDistinct(stock) && |stock| < capacity
    ensures (forall i :: 0 <= i < |stock| ==> stock[i].name != x.name) ==>
              AddToStock(stock, capacity, x) == stock + [x]
    ensures forall i :: 0 <= i < |stock| && stock[i].name == x.name ==>
              AddToStock(stock, capacity, x) == stock[i := Item(x.name, stock[i].quantity + x.quantity)]
  {
    var k := Position(stock, x.name);
    forall i | 0 <= i < |stock| && stock[i].name == x.name
      ensures k == i
    {
    }
  }

  // ---------------------------------------------------------------------------
  // Debiting

  /** Each entry keeps its name and loses exactly the total demand for it. */
  lemma {:induction false} DebitEntries(stock: seq<Item>, needs: seq<Item>, servings: int)
    ensures forall i :: 0 <= i < |stock| ==>
      Debit(stock, needs, servings)[i].name == stock[i].name &&
      Debit(stock, needs, servings)[i].quantity == stock[i].quantity - Demand(stock[i].name, needs, servings)
  {
    if needs != [] {
      DebitEntries(stock, needs[..|needs| - 1], servings);
    }
  }

  /** The debit over one more requirement is one more pass. */
  lemma DebitStep(stock: seq<Item>, needs: seq<Item>, j: nat, servings: int)
    requires j < |needs|
    ensures Debit(stock, needs[..j + 1], servings) == DebitOne(Debit(stock, needs[..j], servings), needs[j], servings)
  {
    assert needs[..j + 1][..j] == needs[..j];
  }

  /** One debit pass is fixed by its entries: a sequence of the same length
      whose entries are debited exactly as `DebitOne` says is `DebitOne`. */
  lemma DebitOneByEntries(before: seq<Item>, need: Item, servings: int, after: seq<Item>)
    requires |after| == |before|
    requires forall k :: 0 <= k < |after| ==>
      after[k] == if before[k].name == need.name
                  then Item(before[k].name, before[k].quantity - RequiredAmount(need.quantity, servings))
                  else before[k]
    ensures after == DebitOne(before, need, servings)
  {
  }

  /** A name no requirement carries is not debited. */
  lemma {:induction false} DemandOfUnneeded(name: string, needs: seq<Item>, servings: int)
    requires forall j :: 0 <= j < |needs| ==> needs[j].name != name
    ensures Demand(name, needs, servings) == 0.0
  {
    if needs != [] {
      DemandOfUnneeded(name, needs[..|needs| - 1], servings);
    }
  }

  /** With distinct requirement names, a needed name is debited exactly its own
      scaled requirement. */
  lemma {:induction false} DemandOfDistinct(needs: seq<Item>, j: nat, servings: int)
    requires NamesDistinct(needs) && j < |needs|
    ensures Demand(needs[j].name, needs, servings) == RequiredAmount(needs[j].quantity, servings)
  {
    var n := |needs| - 1;
    if j < n {
      DemandOfDistinct(needs[..n], j, servings);
    } else {
      DemandOfUnneeded(needs[j].name, needs[..n], servings);
    }
  }

  /** Entries whose name no requirement mentions are left exactly as they were. */
  lemma DebitLeavesUnneeded(stock: seq<Item>, needs: seq<Item>, servings: int, i: nat)
    requires i < |stock|
    requires forall j :: 0 <= j < |needs| ==> needs[j].name != stock[i].name
    ensures Debit(stock, needs, servings)[i] == stock[i]
  {
    DemandOfUnneeded(stock[i].name, needs, servings);
    DebitEntries(stock, needs, servings);
  }

  /** After a sufficient debit, no quantity that started non-negative goes
      negative, as long as neither the stock nor the requirements repeat a name. */
  lemma DebitStaysNonNegative(stock: seq<Item>, needs: seq<Item>, servings: int)
    requires NamesDistinct(stock) && NamesDistinct(needs)
    requires forall i :: 0 <= i < |stock| ==> stock[i].quantity >= 0.0
    requires Sufficient(stock, needs, servings)
    ensures forall i :: 0 <= i < |stock| ==> Debit(stock, needs, servings)[i].quantity >= 0.0
  {
    var r := Debit(stock, needs, servings);
    DebitEntries(stock, needs, servings);
    forall i | 0 <= i < |stock| ensures r[i].quantity >= 0.0 {
      var name := stock[i].name;
      if j :| 0 <= j < |needs| && needs[j].name == name {
        DemandOfDistinct(needs, j, servings);
        var amount := RequiredAmount(needs[j].quantity, servings);
        assert Covered(stock, name, amount);
        var i' :| 0 <= i' < |stock| && stock[i'].name == name && stock[i'].quantity >= amount;
        assert i' == i;
      } else {
        DemandOfUnneeded(name, needs, servings);
      }
    }
  }

  /** Without distinct requirement names the check is passed one requirement at
      a time while the debit takes their sum: 1.0 of water covers two
      requirements of 0.6 each, and the debit leaves -0.2. */
  lemma DuplicateRequirementOverdraws()
    ensures Sufficient([Item("Water", 1.0)], [Item("Water", 0.6), Item("Water", 0.6)], 1)
    ensures Debit([Item("Water", 1.0)], [Item("Water", 0.6), Item("Water", 0.6)], 1)[0].quantity == -0.2
  {
    var stock := [Item("Water", 1.0)];
    var needs := [Item("Water", 0.6), Item("Water", 0.6)];
    assert stock[0].name == "Water";
    assert needs[..1][..0] == [];
    assert Demand("Water", needs, 1) == 1.2;
    DebitEntries(stock, needs, 1);
  }

  /** Zero servings: when every requirement names a stored entry with a
      non-negative quantity, the check passes and the debit changes nothing. */
  lemma ZeroServings(stock: seq<Item>, needs: seq<Item>)
    requires forall j :: 0 <= j < |needs| ==> Covered(stock, needs[j].name, 0.0)
    ensures Sufficient(stock, needs, 0)
    ensures Debit(stock, needs, 0) == stock
  {
    forall name: string ensures Demand(name, needs, 0) == 0.0 {
      DemandAtZero(name, needs);
    }
    DebitEntries(stock, needs, 0);
  }

  lemma {:induction false} DemandAtZero(name: string, needs: seq<Item>)
    ensures Demand(name, needs, 0) == 0.0
  {
    if needs != [] {
      DemandAtZero(name, needs[..|needs| - 1]);
    }
  }

  /** Fewer servings never need more: with non-negative per-serving quantities,
      a check that passes for `more` servings passes for any smaller count,
      negative counts included. */
  lemma SufficiencyMonotone(stock: seq<Item>, needs: seq<Item>, fewer: int, more: int)
    requires forall j :: 0 <= j < |needs| ==> needs[j].quantity >= 0.0
    requires fewer <= more
    requires Sufficient(stock, needs, more)
    ensures Sufficient(stock, needs, fewer)
  {
    forall j | 0 <= j < |needs|
      ensures Covered(stock, needs[j].name, RequiredAmount(needs[j].quantity, fewer))
    {
      var q := needs[j].quantity;
      ScaleMonotone(q, fewer, more);
      assert Covered(stock, needs[j].name, RequiredAmount(q, more));
      var i :| 0 <= i < |stock| && stock[i].name == needs[j].name && stock[i].quantity >= RequiredAmount(q, more);
      assert stock[i].quantity >= RequiredAmount(q, fewer);
    }
  }

  lemma ScaleMonotone(q: real, fewer: int, more: int)
    requires q >= 0.0 && fewer <= more
    ensures RequiredAmount(q, fewer) <= RequiredAmount(q, more)
  {
    assert RequiredAmount(q, more) - RequiredAmount(q, fewer) == q * (more - fewer) as real;
  }
}

/** The demonstration run: four stock ingredients, one beer recipe, one batch
    of a number of servings supplied from outside, then bottling, cleaning and
    a second listing. */
module Brewery {
  import opened Accounting
  import opened Ingredients
  import opened Recipes
  import opened Inventories
  import opened Library
  import opened Production

  /** The stock after the four initial additions. */
  const InitialStock: seq<Item> :=
    [Item("Water", 100.0), Item("Malt", 50.0), Item("Hops", 20.0), Item("Yeast", 10.0)]

  /** The beer recipe's per-serving requirements. */
  const BeerNeeds: seq<Item> :=
    [Item("Water", 0.5), Item("Malt", 0.2), Item("Hops", 0.05), Item("Yeast", 0.01)]

  /** Water is the binding requirement: the stock covers the beer recipe for
      exactly the serving counts up to 200 (negative counts included). */
  lemma BeerSufficientExactly(servings: int)
    ensures Sufficient(InitialStock, BeerNeeds, servings) <==> servings <= 200
  {
    var s := servings as real;
    assert Covered(InitialStock, "Water", 0.5 * s) <==> servings <= 200 by {
      if servings <= 200 {
        assert InitialStock[0].name == "Water";
      } else {
        forall i | 0 <= i < |InitialStock| && InitialStock[i].name == "Water"
          ensures InitialStock[i].quantity < 0.5 * s
        {
          assert i == 0;
        }
      }
    }
    if servings <= 200 {
      assert InitialStock[1].name == "Malt" && InitialStock[1].quantity >= 0.2 * s;
      assert InitialStock[2].name == "Hops" && InitialStock[2].quantity >= 0.05 * s;
      assert InitialStock[3].name == "Yeast" && InitialStock[3].quantity >= 0.01 * s;
    } else {
      assert BeerNeeds[0] == Item("Water", 0.5);
    }
  }

  /** A batch of `servings` takes each requirement, scaled, from its own entry. */
  lemma BeerDebit(servings: int)
    ensures Debit(InitialStock, BeerNeeds, servings)
         == [Item("Water", 100.0 - 0.5 * servings as real), Item("Malt", 50.0 - 0.2 * servings as real),
             Item("Hops", 20.0 - 0.05 * servings as real), Item("Yeast", 10.0 - 0.01 * servings as real)]
  {
    assert NamesDistinct(BeerNeeds) by {
      assert BeerNeeds[0].name[0] == 'W' && BeerNeeds[1].name[0] == 'M';
      assert BeerNeeds[2].name[0] == 'H' && BeerNeeds[3].name[0] == 'Y';
    }
    forall i | 0 <= i < 4
      ensures Demand(InitialStock[i].name, BeerNeeds, servings) == RequiredAmount(BeerNeeds[i].quantity, servings)
    {
      assert InitialStock[i].name == BeerNeeds[i].name;
      StockLaws.DemandOfDistinct(BeerNeeds, i, servings);
    }
    StockLaws.DebitEntries(InitialStock, BeerNeeds, servings);
  }

  /** The run with five servings leaves 97.5 water, 49.0 malt, 19.75 hops and
      9.95 yeast. */
  lemma BeerForFive()
    ensures Sufficient(InitialStock, BeerNeeds, 5)
    ensures Debit(InitialStock, BeerNeeds, 5)
         == [Item("Water", 97.5), Item("Malt", 49.0), Item("Hops", 19.75), Item("Yeast", 9.95)]
  {
    BeerSufficientExactly(5);
    BeerDebit(5);
  }

  /** One stocking statement of the run: a new cell with the given value is
      added to the inventory. */
  method StockNew(inventory: Inventory, name: string, quantity: real)
    requires inventory.Valid()
    modifies inventory, inventory.ingredients, inventory.Repr
    ensures inventory.Valid() && fresh(inventory.Repr - old(inventory.Repr))
    ensures |old(inventory.Stock)| < inventory.ingredients.Length &&
            (forall i :: 0 <= i < |old(inventory.Stock)| ==> old(inventory.Stock)[i].name != name) ==>
              inventory.Stock == old(inventory.Stock) + [Item(name, quantity)]
  {
    var cell := new Ingredient(name, quantity);
    inventory.AddIngredientToInventory(cell);
    if |old(inventory.Stock)| < inventory.ingredients.Length {
      StockLaws.AddToStockEffect(old(inventory.Stock), inventory.ingredients.Length, Item(name, quantity));
    }
  }

  /** One recipe statement of the run: a new cell with the given value is
      added to the recipe; being new, it is none of the cells in `stored`. */
  method RequireNew(recipe: Recipe, ghost stored: set<Ingredient>, name: string, quantity: real)
    requires recipe.Valid() && |recipe.Entries| < recipe.ingredients.Length
    requires forall k :: 0 <= k < |recipe.Required| ==> recipe.Required[k] !in stored
    modifies recipe, recipe.ingredients
    ensures recipe.Valid() && |recipe.Entries| == |old(recipe.Entries)| + 1
    ensures recipe.Needs == old(recipe.Needs) + [Item(name, quantity)]
    ensures forall k :: 0 <= k < |recipe.Required| ==> recipe.Required[k] !in stored
  {
    var cell := new Ingredient(name, quantity);
    recipe.AddIngredientToRecipe(cell);
  }

  /** Builds the stock of the demonstration run. */
  method StockInventory() returns (inventory: Inventory)
    ensures fresh(inventory) && fresh(inventory.Repr) && inventory.Valid()
    ensures inventory.Stock == InitialStock
  {
    inventory := new Inventory(100);
    StockNew(inventory, "Water", 100.0);
    StockNew(inventory, "Malt", 50.0);
    assert "Hops"[0] != "Malt"[0];
    StockNew(inventory, "Hops", 20.0);
    assert "Yeast"[0] != "Water"[0];
    StockNew(inventory, "Yeast", 10.0);
  }

  /** Builds the beer recipe of the demonstration run from new cells, none
      of which is among the `stored` ones. */
  method BeerRecipe(ghost stored: set<Ingredient>) returns (recipe: Recipe)
    ensures fresh(recipe) && recipe.Valid()
    ensures forall k :: 0 <= k < |recipe.Required| ==> recipe.Required[k] !in stored
    ensures recipe.beverageName == "Beer" && recipe.Needs == BeerNeeds
  {
    recipe := new Recipe("Beer", 5, 100);
    RequireNew(recipe, stored, "Water", 0.5);
    ghost var needs := recipe.Needs;
    assert needs == [Item("Water", 0.5)];
    RequireNew(recipe, stored, "Malt", 0.2);
    needs := recipe.Needs;
    assert needs == [Item("Water", 0.5), Item("Malt", 0.2)];
    RequireNew(recipe, stored, "Hops", 0.05);
    needs := recipe.Needs;
    assert needs == [Item("Water", 0.5), Item("Malt", 0.2), Item("Hops", 0.05)];
    RequireNew(recipe, stored, "Yeast", 0.01);
  }

  /** Builds the beer recipe and registers it in the empty library, after
      which the lookup for "Beer" answers it. */
  method RegisterBeer(recipeLibrary: RecipeLibrary, ghost stored: set<Ingredient>)
    requires recipeLibrary.Valid() && recipeLibrary.Registered == [] && recipeLibrary.recipes.Length > 0
    modifies recipeLibrary, recipeLibrary.recipes
    ensures recipeLibrary.Valid()
    ensures var recipe := Lookup(recipeLibrary.Registered, "Beer");
            && recipe != null && fresh(recipe) && recipe.Valid() && recipe.Needs == BeerNeeds
            && forall k :: 0 <= k < |recipe.Required| ==> recipe.Required[k] !in stored
  {
    var beerRecipe := BeerRecipe(stored);
    recipeLibrary.AddRecipe(beerRecipe);
    assert recipeLibrary.Registered == [beerRecipe];
  }

  /** The set-up half of the run: the stocked inventory, its first listing, and
      a library in which the beer recipe answers the lookup for "Beer". */
  method SetUpBrewery() returns (productionSystem: ProductionSystem, first: seq<Item>)
    ensures fresh(productionSystem.inventory) && fresh(productionSystem.inventory.Repr)
    ensures productionSystem.inventory.Valid() && productionSystem.recipeLibrary.Valid()
    ensures first == InitialStock && productionSystem.inventory.Stock == InitialStock
    ensures var recipe := Lookup(productionSystem.recipeLibrary.Registered, "Beer");
            && recipe != null && recipe.Valid() && recipe.Needs == BeerNeeds
            && productionSystem.inventory.DisjointFrom(recipe)
  {
    var inventory := StockInventory();
    var recipeLibrary := new RecipeLibrary(50);
    productionSystem := new ProductionSystem(inventory, recipeLibrary);
    first := inventory.ShowIngredientsInInventory();
    RegisterBeer(recipeLibrary, inventory.Repr);
  }

  /** The whole run: the first listing is the initial stock; the batch is
      created exactly when `servings` is at most 200, and the second listing is
      then the debited stock, otherwise the initial one. */
  method BrewBeer(servings: int) returns (first: seq<Item>, outcome: Batch, second: seq<Item>)
    ensures first == InitialStock
    ensures outcome == if servings <= 200 then Created else NotEnoughIngredients
    ensures second == if servings <= 200 then Debit(InitialStock, BeerNeeds, servings) else InitialStock
  {
    var productionSystem;
    productionSystem, first := SetUpBrewery();
    BeerSufficientExactly(servings);
    outcome := productionSystem.MakeBatch("Beer", servings);
    productionSystem.BottleBatch();
    productionSystem.CleanContainer();
    second := productionSystem.inventory.ShowIngredientsInInventory();
  }
}

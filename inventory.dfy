/** The inventory: a fixed-capacity array of ingredient cells, filled from the
    front, with merge-on-add and all-or-nothing consumption for a recipe. */
module Inventories {
  import opened Accounting
  import opened Ingredients
  import opened Recipes
  import opened StockLaws

  class Inventory {
    const ingredients: array<Ingredient?>
    var ingredientCount: nat

    /** The values held by the stored cells, in slot order. */
    ghost var Stock: seq<Item>
    /** The stored cells. */
    ghost var Repr: set<Ingredient>

    /** The first `ingredientCount` slots hold the cells whose values are
        `Stock`, under pairwise distinct names, and every one of those cells is
        in `Repr`; the capacity is the array's length.  `Repr` holds no other
        cell: the constructor starts it empty, `AddIngredientToInventory` adds
        exactly the cell it stores, and every other method leaves it unchanged,
        as their contracts state. */
    ghost predicate Valid()
      reads this, ingredients, Repr
    {
      && ingredientCount <= ingredients.Length
      && |Stock| == ingredientCount
      && (forall i :: 0 <= i < ingredientCount ==>
            ingredients[i] != null && ingredients[i] in Repr &&
            Stock[i] == Item(ingredients[i].name, ingredients[i].quantity))
      && NamesDistinct(Stock)
    }

    /** No requirement cell of `recipe` sits in a slot of this inventory. */
    ghost predicate DisjointFrom(recipe: Recipe)
      reads this, recipe
    {
      forall k :: 0 <= k < |recipe.Required| ==> recipe.Required[k] !in Repr
    }

    constructor (maxIngredients: nat)
      ensures Valid() && fresh(ingredients)
      ensures ingredients.Length == maxIngredients && Stock == [] && Repr == {}
    {
      ingredients := new Ingredient?[maxIngredients];
      ingredientCount := 0;
      Stock := [];
      Repr := {};
    }

    /** Merges into the same-named entry or appends a new one; refuses when
        full, even when the name is already stored. */
    method AddIngredientToInventory(ingredient: Ingredient)
      requires Valid()
      modifies this, ingredients, Repr
      ensures Valid()
      ensures Stock == AddToStock(old(Stock), ingredients.Length, Item(ingredient.name, old(ingredient.quantity)))
      ensures Repr == if |Stock| > |old(Stock)| then old(Repr) + {ingredient} else old(Repr)
    {
      ghost var stock := Stock;
      if !InventoryIsFull() {
        for i := 0 to ingredientCount
          invariant Valid() && Stock == stock
          invariant Repr == old(Repr)
          invariant forall k :: 0 <= k < i ==> stock[k].name != ingredient.name
        {
          if IngredientIsInInventory(i, ingredient) {
            assert Position(stock, ingredient.name) == i;
            IncreaseIngredientInInventory(i, ingredient);
            return;
          }
        }
        assert Position(stock, ingredient.name) == |stock|;
        AddKeepsNamesDistinct(stock, ingredients.Length, Item(ingredient.name, ingredient.quantity));
        ingredients[ingredientCount] := ingredient;
        ingredientCount := ingredientCount + 1;
        Stock := Stock + [Item(ingredient.name, ingredient.quantity)];
        Repr := Repr + {ingredient};
      }
    }

    /** Checks the whole recipe first; only when every requirement is covered
        does it debit, so a refusal changes nothing. */
    method UseIngredientsForRecipe(recipe: Recipe, servings: int) returns (used: bool)
      requires Valid() && recipe.Valid() && DisjointFrom(recipe)
      modifies this, Repr
      ensures Valid() && recipe.Valid() && Repr == old(Repr)
      ensures used == Sufficient(old(Stock), recipe.Needs, servings)
      ensures Stock == if used then Debit(old(Stock), recipe.Needs, servings) else old(Stock)
    {
      var enough := HasEnoughIngredients(recipe, servings);
      if !enough {
        return false;
      }
      ghost var stock := Stock;
      ghost var needs := recipe.Needs;
      var required := recipe.GetIngredients();
      for j := 0 to required.Length
        modifies this, Repr
        invariant Valid() && Repr == old(Repr) && ingredientCount == |stock|
        invariant Stock == Debit(stock, needs[..j], servings)
        invariant forall k :: 0 <= k < |needs| ==> needs[k] == Item(required[k].name, required[k].quantity)
      {
        var needed := required[j];
        var requiredAmount := CalculateRequiredAmount(needed, servings);
        ghost var need := needs[j];
        ghost var before := Stock;
        SubtractFromMatchingEntries(needed, requiredAmount);
        DebitOneByEntries(before, need, servings, Stock);
        DebitStep(stock, needs, j, servings);
      }
      assert needs[..required.Length] == needs;
      return true;
    }

    /** The inner loop of `UseIngredientsForRecipe`: every stored entry named
        like `needed` loses `requiredAmount`; the others keep their values. */
    method SubtractFromMatchingEntries(needed: Ingredient, requiredAmount: real)
      requires Valid()
      modifies this, Repr
      ensures Valid() && Repr == old(Repr)
      ensures |Stock| == |old(Stock)|
      ensures forall k :: 0 <= k < |Stock| ==>
        Stock[k] == if old(Stock)[k].name == needed.name
                    then Item(old(Stock)[k].name, old(Stock)[k].quantity - requiredAmount)
                    else old(Stock)[k]
    {
      for i := 0 to ingredientCount
        invariant Valid() && Repr == old(Repr) && |Stock| == |old(Stock)|
        invariant forall k :: 0 <= k < |Stock| ==>
          Stock[k] == if k < i && old(Stock)[k].name == needed.name
                      then Item(old(Stock)[k].name, old(Stock)[k].quantity - requiredAmount)
                      else old(Stock)[k]
      {
        var available := ingredients[i];
        if available.GetName() == needed.GetName() {
          SubtractNeededIngredientsFromInventory(available, requiredAmount);
          Stock := Stock[i := Item(Stock[i].name, Stock[i].quantity - requiredAmount)];
        }
      }
    }

    /** The printed listing, as the sequence of (name, quantity) lines. */
    method ShowIngredientsInInventory() returns (listing: seq<Item>)
      requires Valid()
      ensures listing == Stock
    {
      listing := [];
      for i := 0 to ingredientCount
        invariant listing == Stock[..i]
      {
        var ingredient := ingredients[i];
        listing := listing + [Item(ingredient.GetName(), ingredient.GetQuantity())];
      }
    }

    method SubtractNeededIngredientsFromInventory(available: Ingredient, requiredAmount: real)
      modifies available
      ensures available.quantity == old(available.quantity) - requiredAmount
    {
      available.SetQuantity(available.GetQuantity() - requiredAmount);
    }

    function CalculateRequiredAmount(needed: Ingredient, servings: int): (r: real)
      reads needed
      ensures r == RequiredAmount(needed.quantity, servings)
    {
      needed.GetQuantity() * servings as real
    }

    /** True exactly when the stock covers every requirement of the recipe,
        scaled by `servings`. */
    method HasEnoughIngredients(recipe: Recipe, servings: int) returns (enough: bool)
      requires Valid() && recipe.Valid()
      ensures enough == Sufficient(Stock, recipe.Needs, servings)
    {
      var required := recipe.GetIngredients();
      for j := 0 to required.Length
        modifies {}
        invariant forall k :: 0 <= k < j ==>
          Covered(Stock, recipe.Needs[k].name, RequiredAmount(recipe.Needs[k].quantity, servings))
      {
        var needed := required[j];
        var requiredAmount := CalculateRequiredAmount(needed, servings);
        var found := IsIngredientInInventoryAndSufficient(needed, requiredAmount);
        if !found {
          return false;
        }
      }
      return true;
    }

    /** True exactly when some stored entry has the name of `needed` and at
        least `requiredAmount` of it. */
    method IsIngredientInInventoryAndSufficient(needed: Ingredient, requiredAmount: real) returns (found: bool)
      requires Valid()
      ensures found == Covered(Stock, needed.name, requiredAmount)
    {
      for i := 0 to ingredientCount
        invariant forall k :: 0 <= k < i ==>
          !(Stock[k].name == needed.name && Stock[k].quantity >= requiredAmount)
      {
        var available := ingredients[i];
        if available.GetName() == needed.GetName() && available.GetQuantity() >= requiredAmount {
          return true;
        }
      }
      return false;
    }

    method IncreaseIngredientInInventory(index: nat, ingredient: Ingredient)
      requires Valid() && index < ingredientCount
      modifies this, ingredients[index]
      ensures Repr == old(Repr)
      ensures Valid()
      ensures Stock == old(Stock)[index := Item(old(Stock)[index].name,
                                                old(Stock)[index].quantity + old(ingredient.quantity))]
    {
      var cell := ingredients[index];
      cell.SetQuantity(cell.GetQuantity() + ingredient.GetQuantity());
      Stock := Stock[index := Item(Stock[index].name, Stock[index].quantity + old(ingredient.quantity))];
    }

    function IngredientIsInInventory(index: nat, ingredient: Ingredient): (r: bool)
      reads this, ingredients, Repr
      requires Valid() && index < ingredientCount
      ensures r <==> Stock[index].name == ingredient.name
    {
      ingredients[index].GetName() == ingredient.GetName()
    }

    function InventoryIsFull(): (full: bool)
      reads this, ingredients, Repr
      requires Valid()
      ensures full <==> |Stock| == ingredients.Length
    {
      ingredientCount >= ingredients.Length
    }
  }
}

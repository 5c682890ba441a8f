/** The production system: makes a batch of a beverage by looking its recipe up
    in the library and drawing the scaled requirements from the inventory. */
module Production {
  import opened Accounting
  import opened Recipes
  import opened Inventories
  import opened Library

  /** What an attempt to make a batch reports. */
  datatype Batch =
    | Created               // the stock covered the recipe and was debited
    | NotEnoughIngredients  // some requirement was not covered; nothing changed
    | RecipeMissing         // no recipe for the beverage; nothing changed

  class ProductionSystem {
    const inventory: Inventory
    const recipeLibrary: RecipeLibrary

    constructor (inventory: Inventory, recipeLibrary: RecipeLibrary)
      ensures this.inventory == inventory && this.recipeLibrary == recipeLibrary
    {
      this.inventory := inventory;
      this.recipeLibrary := recipeLibrary;
    }

    /** Looks the recipe up and uses the inventory for it.  A missing recipe
        stops the attempt before the inventory is touched. */
    method MakeBatch(beverageName: string, servings: int) returns (outcome: Batch)
      requires inventory.Valid() && recipeLibrary.Valid()
      requires var recipe := Lookup(recipeLibrary.Registered, beverageName);
               recipe != null ==> recipe.Valid() && inventory.DisjointFrom(recipe)
      modifies inventory, inventory.Repr
      ensures inventory.Valid() && inventory.Repr == old(inventory.Repr)
      ensures var recipe := Lookup(recipeLibrary.Registered, beverageName);
              if recipe == null then
                outcome == RecipeMissing && inventory.Stock == old(inventory.Stock)
              else
                && recipe.Valid()
                && (outcome == Created <==> Sufficient(old(inventory.Stock), recipe.Needs, servings))
                && (outcome == Created || outcome == NotEnoughIngredients)
                && inventory.Stock == if outcome == Created
                                      then Debit(old(inventory.Stock), recipe.Needs, servings)
                                      else old(inventory.Stock)
    {
      var recipe := recipeLibrary.GetRecipe(beverageName);
      if recipe == null {
        return RecipeMissing;
      }
      var used := inventory.UseIngredientsForRecipe(recipe, servings);
      if used {
        outcome := Created;
      } else {
        outcome := NotEnoughIngredients;
      }
    }

    /** Bottling only reports; no state changes. */
    method BottleBatch()
    {
    }

    /** Cleaning only reports; no state changes. */
    method CleanContainer()
    {
    }
  }
}

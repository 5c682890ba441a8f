# Brewery inventory — a verified Dafny model

This project models the bookkeeping core of a small brewery simulation.

- **Inventory**: a fixed-capacity array of mutable ingredient cells. Adding an ingredient merges into the entry of the same name or appends a new one, and is refused once the array is full. Making a recipe is all-or-nothing: the whole recipe, scaled by a number of servings, is checked first, and matching entries are debited only when every requirement is covered.
- **Recipe**: a beverage name with a bounded, append-only list of per-serving requirements. It hands out a freshly built copy of its non-null requirements.
- **RecipeLibrary**: a bounded, append-only list of recipes. Lookup returns the first recipe with a given beverage name, or null.
- **ProductionSystem**: looks a recipe up and uses the inventory for it.
- **Ingredient**: the mutable (name, quantity) cell that all of the above share.
- The demonstration driver is modelled as well: four stock ingredients, a four-requirement beer recipe and one batch.

The Java classes become Dafny classes with the same fields, arrays and loops. Three of them, `Inventory`, `Recipe` and `RecipeLibrary`, also carry ghost fields that hold their state as values:

- `Inventory.Stock` and `Inventory.Repr`;
- `Recipe.Entries`, `Recipe.Required` and `Recipe.Needs`;
- `RecipeLibrary.Registered`.

A `Valid()` predicate ties each ghost field to the arrays and cells. The methods are proved against value-level specification functions in module `Accounting`:

- `Sufficient`: what the check accepts;
- `Debit`: what a successful batch leaves;
- `AddToStock`: what an add leaves;
- `Lookup` (module `Library`): what a lookup answers.

The laws about those functions are proved as lemmas in `StockLaws` and `Library`. They cover the merge law, distinct names, which entries a debit changes and by how much, non-negativity, shadowing of duplicate recipes, zero servings and monotonicity.

Files:

- `accounting.dfy`: the value-level specification.
- `stock_laws.dfy`: its laws.
- `ingredient.dfy`, `recipe.dfy`, `inventory.dfy`, `library.dfy`, `production.dfy`: the classes.
- `brewery.dfy`: the demonstration run.

Quantities are exact `real`s, not IEEE doubles.

### Where the code and its design description differ

The model follows the code in each of these cases:

- **Servings are not validated.** The design asks for non-positive servings to be rejected. The code accepts any `int`. Zero servings succeed without changing anything whenever every requirement's name is stored with a non-negative quantity (`StockLaws.ZeroServings`); a requirement whose name is not stored still fails the check. Negative servings add stock.
- **Requirement names are not kept distinct.** The design treats a recipe's requirement names as unique, and says no quantity goes negative after a successful batch. The code enforces neither. With a repeated requirement name, each requirement passes the check on its own but the debit takes their sum, so a quantity can go negative (`StockLaws.DuplicateRequirementOverdraws`). Non-negativity is proved when both the stock and the requirements have distinct names (`StockLaws.DebitStaysNonNegative`).
- **A missing recipe is not reported.** The design reports a missing recipe as an error. The code hands `null` on and fails with a null dereference before anything changes. The model gives that path the explicit outcome `RecipeMissing`, with the stock unchanged.
- **A full inventory refuses even a merge.** The code refuses to add an ingredient whose name is already stored when the inventory is full.

## Model

| member | source | states |
|---|---|---|
| Accounting.RequiredAmount | src/Inventory.java:93-95 | The requirement for `servings` servings: zero servings need nothing, one serving needs the per-serving quantity, and non-negative inputs give a non-negative amount |
| Accounting.Position | src/Inventory.java:28-34 | The index of the first entry carrying the name, or the stock's length; every entry before it has another name |
| Accounting.AddToStock | src/Inventory.java:26-40 | An add never takes the stock past its capacity and grows it by at most one entry |
| Accounting.DebitOne | src/Inventory.java:55-60 | One pass of the inner debit loop keeps the number of entries |
| Accounting.Debit | src/Inventory.java:53-61 | The whole debit keeps the number of entries (entry by entry: `StockLaws.DebitEntries`) |
| StockLaws.OnHandAppend | src/Inventory.java:35 | Appending an entry raises only its own name's total, by its quantity |
| StockLaws.OnHandUpdate | src/Inventory.java:137-139 | Replacing one entry changes a name's total by the difference of the two entries' contributions |
| StockLaws.OnHandOfDistinct | src/Inventory.java:28-35 | With distinct names, a stored name's total is its entry's quantity |
| StockLaws.OnHandOfAbsent | src/Inventory.java:28-35 | A name no entry carries has total zero |
| StockLaws.AddToStockOnHand | src/Inventory.java:26-36 | Below capacity, an add raises the added name's total by the added quantity and leaves every other name's total unchanged, whether it merges or appends |
| StockLaws.MergeLaw | src/Inventory.java:28-33 | Two adds of one name give the sum of both quantities whenever neither is refused: the stock is not full, and the name is already stored or a second slot is free |
| StockLaws.AddKeepsNamesDistinct | src/Inventory.java:28-35 | An add keeps the stored names pairwise distinct |
| StockLaws.AddToStockEffect | src/Inventory.java:28-35 | Below capacity with distinct names, an absent name is appended at the end, and a present name has exactly its own entry increased |
| StockLaws.DebitEntries | src/Inventory.java:53-61 | After a debit, each entry keeps its name and loses exactly the scaled requirements that carry its name |
| StockLaws.DebitStep | src/Inventory.java:53 | Debiting one more requirement is one more pass of the inner loop |
| StockLaws.DebitOneByEntries | src/Inventory.java:55-60 | A sequence changed entry by entry as the inner loop changes it is the one-pass debit |
| StockLaws.DemandOfUnneeded | src/Inventory.java:57 | A name no requirement carries is asked for nothing |
| StockLaws.DemandOfDistinct | src/Inventory.java:53-58 | With distinct requirement names, a needed name is asked for exactly its own scaled requirement |
| StockLaws.DebitLeavesUnneeded | src/Inventory.java:55-59 | Entries named in no requirement are untouched by a debit |
| StockLaws.DebitStaysNonNegative | src/Inventory.java:50-58 | After a sufficient debit, non-negative quantities stay non-negative, provided neither the stock nor the requirements repeat a name |
| StockLaws.DuplicateRequirementOverdraws | src/Inventory.java:104-112 | A stock of 1.0 water passes the check for two 0.6 water requirements, and the debit leaves -0.2 |
| StockLaws.ZeroServings | src/Inventory.java:93-95 | With zero servings and every requirement name stored with a non-negative quantity, the check passes and the debit changes nothing |
| StockLaws.DemandAtZero | src/Inventory.java:93-95 | Zero servings ask nothing of any name |
| StockLaws.SufficiencyMonotone | src/Inventory.java:104-112 | With non-negative per-serving quantities, a check that passes for some count passes for every smaller count, negative counts included |
| StockLaws.ScaleMonotone | src/Inventory.java:93-95 | The scaled requirement grows with the number of servings |
| Ingredients.Ingredient.constructor | src/Ingredient.java:10-13 | The cell holds the given name and quantity |
| Ingredients.Ingredient.SetQuantity | src/Ingredient.java:23-25 | The quantity becomes the given value; the name is a constant and cannot change |
| Recipes.NonNull | src/Recipe.java:47-58 | The non-null cells are no more than the slots, and each one comes from the slots |
| Recipes.NonNullKeepsCells | src/Recipe.java:51-55 | No non-null cell is dropped |
| Recipes.NonNullOfFull | src/Recipe.java:47-58 | When no null was added, the copy is exactly the filled slots, so its length is the ingredient count |
| Recipes.Recipe.constructor | src/Recipe.java:20-25 | A new recipe has the given name, no requirements, a fresh array of `maxIngredients` slots, and the given bottle count |
| Recipes.Recipe.AddIngredientToRecipe | src/Recipe.java:34-40 | When there is room the argument is appended, with a non-null one becoming a requirement; when full nothing changes; the count stays within capacity |
| Recipes.Recipe.GetIngredients | src/Recipe.java:47-59 | Returns a fresh array holding exactly the non-null requirements in insertion order, and changes nothing |
| Recipes.Recipe.RetrieveNonNullIngredients | src/Recipe.java:68-74 | Returns a fresh array of length `index` equal to the first `index` slots of the argument |
| Inventories.Inventory.constructor | src/Inventory.java:14-17 | A new inventory is empty, with a fresh array of `maxIngredients` slots |
| Inventories.Inventory.AddIngredientToInventory | src/Inventory.java:26-40 | The stock becomes `AddToStock` of the old stock: merge into the same-named entry, append a new name, or refuse when full; the names stay distinct and the count within capacity |
| Inventories.Inventory.UseIngredientsForRecipe | src/Inventory.java:49-63 | Returns true exactly when the stock was sufficient; the stock then becomes the debit of the old stock, and otherwise nothing changes |
| Inventories.Inventory.SubtractFromMatchingEntries | src/Inventory.java:55-60 | Every entry named like the requirement loses the required amount; all others, and the count, are unchanged |
| Inventories.Inventory.ShowIngredientsInInventory | src/Inventory.java:68-74 | The listing is the stored (name, quantity) entries in slot order |
| Inventories.Inventory.SubtractNeededIngredientsFromInventory | src/Inventory.java:82-84 | The cell's quantity drops by the given amount |
| Inventories.Inventory.CalculateRequiredAmount | src/Inventory.java:93-95 | The requirement's quantity scaled by the servings |
| Inventories.Inventory.HasEnoughIngredients | src/Inventory.java:104-112 | True exactly when every requirement, scaled, is covered by a same-named entry with at least that much; changes nothing |
| Inventories.Inventory.IsIngredientInInventoryAndSufficient | src/Inventory.java:121-129 | True exactly when some entry has the name and at least the amount |
| Inventories.Inventory.IncreaseIngredientInInventory | src/Inventory.java:137-139 | Only the entry at the index changes, raised by the argument's quantity |
| Inventories.Inventory.IngredientIsInInventory | src/Inventory.java:148-150 | True exactly when the entry at the index has the argument's name |
| Inventories.Inventory.InventoryIsFull | src/Inventory.java:157-159 | True exactly when the count has reached the capacity |
| Library.FirstFor | src/RecipeLibrary.java:48-54 | The index of the first recipe with the name, or the count; every recipe before it has another name |
| Library.Lookup | src/RecipeLibrary.java:48-54 | Null exactly when no registered recipe has the name; otherwise the lowest-index recipe with it |
| Library.LookupAfterAppend | src/RecipeLibrary.java:24-27 | Registering a recipe never changes an answer the library already gives; it only answers a missing name, and only with itself |
| Library.DuplicateShadowed | src/RecipeLibrary.java:24-27 | Registering a second recipe under a name already present changes no lookup |
| Library.RecipeLibrary.constructor | src/RecipeLibrary.java:14-17 | A new library is empty, with a fresh array of `maxRecipes` slots |
| Library.RecipeLibrary.AddRecipe | src/RecipeLibrary.java:24-31 | Appends when there is room, duplicates included; when full nothing changes |
| Library.RecipeLibrary.IsRecipeLibraryFull | src/RecipeLibrary.java:38-40 | True exactly when the count has reached the capacity |
| Library.RecipeLibrary.GetRecipe | src/RecipeLibrary.java:48-55 | Returns `Lookup` of the registered recipes, and changes nothing |
| Production.ProductionSystem.constructor | src/ProductionSystem.java:16-19 | Holds the given inventory and library |
| Production.ProductionSystem.MakeBatch | src/ProductionSystem.java:29-38 | A missing recipe gives `RecipeMissing` with the stock unchanged. Otherwise the outcome is `Created` exactly when the stock covers the first-matching recipe; the stock is then debited, and left unchanged on failure. The library is never modified |
| Brewery.BeerSufficientExactly | src/Main.java:11-22 | The initial stock covers the beer recipe for exactly the serving counts up to 200 |
| Brewery.BeerDebit | src/Main.java:11-22 | A beer batch of `s` servings leaves 100 - 0.5s water, 50 - 0.2s malt, 20 - 0.05s hops and 10 - 0.01s yeast |
| Brewery.BeerForFive | src/Main.java:11-28 | Five servings are covered and leave 97.5, 49.0, 19.75 and 9.95 |
| Brewery.StockNew | src/Main.java:11-14 | Adding a new cell with a new name to an inventory that is not full appends it |
| Brewery.RequireNew | src/Main.java:19-22 | Adding a new cell to a recipe with room appends its requirement; the new cell is none of the given stored cells |
| Brewery.StockInventory | src/Main.java:11-14 | The four additions give the stock water 100, malt 50, hops 20 and yeast 10 |
| Brewery.BeerRecipe | src/Main.java:18-22 | The beer recipe requires water 0.5, malt 0.2, hops 0.05 and yeast 0.01 per serving, from cells the inventory does not hold |
| Brewery.RegisterBeer | src/Main.java:18-23 | After registration the lookup for "Beer" answers the beer recipe |
| Brewery.SetUpBrewery | src/Main.java:6-23 | The first listing is the initial stock, and the library answers "Beer" with the beer recipe |
| Brewery.BrewBeer | src/Main.java:4-37 | The first listing is the initial stock. The batch is created exactly when the servings are at most 200, and the second listing is then the debited stock; otherwise it is the initial stock |

## Left out

- Floating point: quantities are exact `real`s, so the IEEE-754 rounding of `quantity * servings`, `+`, `-` and `>=` is not modelled.
- Console output: every message is dropped. `MakeBatch` returns a `Batch` outcome instead of printing it, and `ShowIngredientsInInventory` returns the listing instead of printing it.
- Standard input: the driver's serving count is the parameter of `Brewery.BrewBeer`.
- Object aliasing: the inventory stores the caller's cells and mutates them in place. The model assumes no cell of a recipe is also a slot of the inventory (`Inventory.DisjointFrom`, required by `UseIngredientsForRecipe` and `MakeBatch`). It does not model a cell shared by both. Nor does it model a caller changing a cell after handing it to a recipe or to the inventory. In the code such a change silently alters that requirement or that stock entry; in the model it falsifies `Recipe.Valid()` or `Inventory.Valid()`, so no further operation can be applied.
- Null arguments: the model does not take null arguments to `AddIngredientToInventory`, `AddRecipe` or `MakeBatch`'s inventory and library, where the code would fail with a null dereference. A null passed to `AddIngredientToRecipe` is modelled: it takes a slot and adds no requirement.
- Negative capacities: capacities are `nat`, so the `NegativeArraySizeException` of a negative capacity is not modelled.
- Production.ProductionSystem.MakeBatch: the null dereference on a missing recipe is modelled as the outcome `RecipeMissing`. That outcome reports the same unchanged state the code leaves when it fails.
- Production.ProductionSystem.BottleBatch and CleanContainer: these only print, so they are methods with empty bodies and no contract. Having no `modifies` clause, they change no existing state.
- Ingredients.Ingredient.GetName, Ingredients.Ingredient.GetQuantity and Recipes.Recipe.GetBeverageName: plain field reads, modelled as functions without a contract. Being functions, they change nothing.
- Inventories.Inventory.SubtractFromMatchingEntries: this is the inner loop of `useIngredientsForRecipe` (src/Inventory.java:55-60), written as a method of its own. Its loop and the statements in it are the code's.
- Brewery.StockNew, Brewery.RequireNew, Brewery.RegisterBeer and Brewery.SetUpBrewery group consecutive statements of the driver. The library and production system are allocated after the four additions rather than before them; they touch no inventory state, so the run's observable results are the same.
- `bottlesProduced` is stored by the recipe constructor and never read.

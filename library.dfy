/** The recipe library: a fixed-capacity, append-only array of recipes looked
    up by beverage name. */
module Library {
  import opened Recipes

  /** Index of the first recipe for `name`, or |recipes| when there is none. */
  function FirstFor(recipes: seq<Recipe>, name: string): (k: nat)
    ensures k <= |recipes|
    ensures k < |recipes| ==> recipes[k].beverageName == name
    ensures forall i :: 0 <= i < k ==> recipes[i].beverageName != name
  {
    if recipes == [] then 0
    else if recipes[0].beverageName == name then 0
    else 1 + FirstFor(recipes[1..], name)
  }

  /** The recipe a lookup for `name` answers: the first registered one with
      that beverage name, or null when no registered recipe has it. */
  function Lookup(recipes: seq<Recipe>, name: string): (r: Recipe?)
    ensures r == null <==> forall i :: 0 <= i < |recipes| ==> recipes[i].beverageName != name
    ensures r != null ==> exists k :: 0 <= k < |recipes| && recipes[k] == r && r.beverageName == name &&
                                      forall i :: 0 <= i < k ==> recipes[i].beverageName != name
  {
    var k := FirstFor(recipes, name);
    if k < |recipes| then recipes[k] else null
  }

  /** Registering one more recipe never changes an answer the library already
      gives; it only answers a name that was missing, and only with itself. */
  lemma {:induction false} LookupAfterAppend(recipes: seq<Recipe>, recipe: Recipe, name: string)
    ensures Lookup(recipes + [recipe], name)
         == if Lookup(recipes, name) != null then Lookup(recipes, name)
            else if recipe.beverageName == name then recipe
            else null
  {
    if recipes != [] && recipes[0].beverageName != name {
      assert (recipes + [recipe])[1..] == recipes[1..] + [recipe];
      LookupAfterAppend(recipes[1..], recipe, name);
    }
  }

  /** Once a beverage has a registered recipe, registering another recipe for
      it changes nothing: the earlier one keeps answering. */
  lemma DuplicateShadowed(recipes: seq<Recipe>, earlier: Recipe, later: Recipe)
    requires earlier in recipes && earlier.beverageName == later.beverageName
    ensures Lookup(recipes, later.beverageName) != null
    ensures Lookup(recipes + [later], later.beverageName) == Lookup(recipes, later.beverageName)
  {
    LookupAfterAppend(recipes, later, later.beverageName);
  }

  class RecipeLibrary {
    const recipes: array<Recipe?>
    var recipeCount: nat

    /** The registered recipes, in registration order. */
    ghost var Registered: seq<Recipe>

    ghost predicate Valid()
      reads this, recipes
    {
      && recipeCount <= recipes.Length
      && |Registered| == recipeCount
      && forall i :: 0 <= i < recipeCount ==> recipes[i] == Registered[i]
    }

    constructor (maxRecipes: nat)
      ensures Valid() && fresh(recipes)
      ensures recipes.Length == maxRecipes && Registered == []
    {
      recipes := new Recipe?[maxRecipes];
      recipeCount := 0;
      Registered := [];
    }

    /** Appends when there is room; otherwise the library is left as it was. */
    method AddRecipe(recipe: Recipe)
      requires Valid()
      modifies this, recipes
      ensures Valid()
      ensures Registered == if |old(Registered)| < recipes.Length
                            then old(Registered) + [recipe] else old(Registered)
    {
      if !IsRecipeLibraryFull() {
        recipes[recipeCount] := recipe;
        recipeCount := recipeCount + 1;
        Registered := Registered + [recipe];
      }
    }

    function IsRecipeLibraryFull(): (full: bool)
      reads this, recipes
      requires Valid()
      ensures full <==> |Registered| == recipes.Length
    {
      recipeCount >= recipes.Length
    }

    /** The first registered recipe for the beverage, or null. */
    method GetRecipe(beverageName: string) returns (r: Recipe?)
      requires Valid()
      ensures r == Lookup(Registered, beverageName)
    {
      for i := 0 to recipeCount
        invariant forall k :: 0 <= k < i ==> Registered[k].beverageName != beverageName
      {
        if recipes[i].GetBeverageName() == beverageName {
          assert FirstFor(Registered, beverageName) == i;
          return recipes[i];
        }
      }
      return null;
    }
  }
}

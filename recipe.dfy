/** A recipe: a beverage name and a bounded, append-only list of per-serving
    requirements. */
module Recipes {
  import opened Accounting
  import opened Ingredients

  /** The non-null cells of `s`, in their original order. */
  function NonNull(s: seq<Ingredient?>): (r: seq<Ingredient>)
    ensures |r| <= |s|
    ensures forall i :: 0 <= i < |r| ==> r[i] in s
  {
    if s == [] then []
    else NonNull(s[..|s| - 1]) + (if s[|s| - 1] == null then [] else [s[|s| - 1]])
  }

  /** No non-null cell is dropped. */
  lemma {:induction false} NonNullKeepsCells(s: seq<Ingredient?>, i: nat)
    requires i < |s| && s[i] != null
    ensures s[i] in NonNull(s)
  {
    if i < |s| - 1 {
      NonNullKeepsCells(s[..|s| - 1], i);
    }
  }

  /** When no slot is null, the filter returns the slots unchanged. */
  lemma {:induction false} NonNullOfFull(s: seq<Ingredient?>)
    requires forall i :: 0 <= i < |s| ==> s[i] != null
    ensures NonNull(s) == s
  {
    if s != [] {
      NonNullOfFull(s[..|s| - 1]);
    }
  }

  class Recipe {
    const beverageName: string
    const ingredients: array<Ingredient?>
    var ingredientCount: nat
    /** Stored at construction and never read. */
    const bottlesProduced: int

    /** The slots filled so far, null ones included. */
    ghost var Entries: seq<Ingredient?>
    /** The non-null entries, in insertion order: the cells a batch reads. */
    ghost var Required: seq<Ingredient>
    /** The per-serving requirements: the values held by `Required`. */
    ghost var Needs: seq<Item>

    ghost predicate Valid()
      reads this, ingredients, Required
    {
      && ingredientCount <= ingredients.Length
      && Entries == ingredients[..ingredientCount]
      && Required == NonNull(Entries)
      && |Needs| == |Required|
      && (forall i :: 0 <= i < |Required| ==> Needs[i] == Item(Required[i].name, Required[i].quantity))
    }

    constructor (beverageName: string, maxIngredients: nat, bottlesProduced: int)
      ensures Valid() && fresh(ingredients) && ingredients.Length == maxIngredients
      ensures this.beverageName == beverageName && this.bottlesProduced == bottlesProduced
      ensures Entries == [] && Required == [] && Needs == []
    {
      this.beverageName := beverageName;
      this.ingredients := new Ingredient?[maxIngredients];
      this.ingredientCount := 0;
      this.bottlesProduced := bottlesProduced;
      Entries, Required, Needs := [], [], [];
    }

    /** Appends when there is room; otherwise the recipe is left as it was.  A
        null argument takes a slot but adds no requirement. */
    method AddIngredientToRecipe(ingredient: Ingredient?)
      requires Valid()
      modifies this, ingredients
      ensures Valid()
      ensures Entries == if |old(Entries)| < ingredients.Length
                         then old(Entries) + [ingredient] else old(Entries)
      ensures Required == if |old(Entries)| < ingredients.Length && ingredient != null
                          then old(Required) + [ingredient] else old(Required)
      ensures Needs == if |old(Entries)| < ingredients.Length && ingredient != null
                       then old(Needs) + [Item(ingredient.name, ingredient.quantity)] else old(Needs)
    {
      if ingredientCount < ingredients.Length {
        ingredients[ingredientCount] := ingredient;
        ingredientCount := ingredientCount + 1;
        assert ingredients[..ingredientCount] == Entries + [ingredient];
        Entries := Entries + [ingredient];
        assert Entries[..|Entries| - 1] == old(Entries);
        if ingredient != null {
          Required := Required + [ingredient];
          Needs := Needs + [Item(ingredient.name, ingredient.quantity)];
        }
      }
    }

    /** A fresh array holding the non-null entries in insertion order. */
    method GetIngredients() returns (r: array<Ingredient?>)
      requires Valid()
      ensures fresh(r)
      ensures r[..] == Required
    {
      var nonNull := new Ingredient?[ingredientCount];
      var index := 0;
      for i := 0 to ingredientCount
        invariant index <= i
        invariant nonNull[..index] == NonNull(ingredients[..i])
      {
        var ingredient := ingredients[i];
        assert ingredients[..i + 1] == ingredients[..i] + [ingredient];
        if ingredient != null {
          nonNull[index] := ingredient;
          index := index + 1;
        }
      }
      r := RetrieveNonNullIngredients(nonNull, index);
    }

    /** A fresh array holding a copy of the first `index` slots of `a`. */
    method RetrieveNonNullIngredients(a: array<Ingredient?>, index: int) returns (r: array<Ingredient?>)
      requires 0 <= index <= a.Length
      ensures fresh(r)
      ensures r[..] == a[..index]
    {
      r := new Ingredient?[index];
      for i := 0 to index
        invariant r[..i] == a[..i]
      {
        r[i] := a[i];
      }
    }

    function GetBeverageName(): string
    {
      beverageName
    }
  }
}

/** The mutable (name, quantity) cell that recipes and the inventory hold. */
module Ingredients {
  class Ingredient {
    /** The name is fixed at construction: there is no setter for it. */
    const name: string
    var quantity: real

    constructor (name: string, quantity: real)
      ensures this.name == name && this.quantity == quantity
    {
      this.name := name;
      this.quantity := quantity;
    }

    function GetName(): string
    {
      name
    }

    function GetQuantity(): real
      reads this
    {
      quantity
    }

    method SetQuantity(quantity: real)
      modifies this
      ensures this.quantity == quantity
    {
      this.quantity := quantity;
    }
  }
}

/**
 The cart provider's state: the one `products` cell that every operation
 overwrites with a new list. Each method does what the hook's callback
 does, step by step (search, filter, adjust the found item, store the new
 list), and its contract ties the new list to the list functions of
 `CartLists`, whose properties `CartProperties` proves.
 */
module CartHook {
  import opened CartLists
  import CartProperties

  class CartProvider {
    /** The current list of line items. */
    var products: seq<Product>

    /** The provider starts with an empty cart. */
    constructor ()
      ensures products == []
    {
      products := [];
    }

    /** `increment(id)`: fails, leaving the cart as it is, when the id is
        absent; otherwise stores the list `CartLists.Increment` describes. */
    method Increment(id: string) returns (outcome: Result<()>)
      modifies this
      ensures outcome.Err? <==> !HasId(old(products), id)
      ensures outcome.Err? ==> outcome.error == NotInCart && products == old(products)
      ensures outcome.Ok? ==> products == CartLists.Increment(old(products), id).value
      ensures UniqueIds(old(products)) ==> UniqueIds(products)
      ensures AllPositive(old(products)) ==> AllPositive(products)
    {
      var newProduct := Find(products, id);
      if newProduct.None? {
        return Err(NotInCart);
      }
      var filteredProducts := FilterOut(products, id);
      var bumped := newProduct.value.(quantity := newProduct.value.quantity + 1);
      CartProperties.IncrementValue(products, id);
      if UniqueIds(products) {
        CartProperties.IncrementKeepsUnique(products, id);
      }
      if AllPositive(products) {
        CartProperties.IncrementKeepsPositive(products, id);
      }
      products := filteredProducts + [bumped];
      outcome := Ok(());
    }

    /** `decrement(id)`: fails, leaving the cart as it is, when the id is
        absent; otherwise stores the list `CartLists.Decrement` describes. */
    method Decrement(id: string) returns (outcome: Result<()>)
      modifies this
      ensures outcome.Err? <==> !HasId(old(products), id)
      ensures outcome.Err? ==> outcome.error == NotInCart && products == old(products)
      ensures outcome.Ok? ==> products == CartLists.Decrement(old(products), id).value
      ensures UniqueIds(old(products)) ==> UniqueIds(products)
      ensures AllPositive(old(products)) ==> AllPositive(products)
    {
      var productDecremented := Find(products, id);
      if productDecremented.None? {
        return Err(NotInCart);
      }
      var lowered := productDecremented.value.(quantity := productDecremented.value.quantity - 1);
      var filteredProducts := FilterOut(products, id);
      CartProperties.DecrementValue(products, id);
      if UniqueIds(products) {
        CartProperties.DecrementKeepsUnique(products, id);
      }
      if AllPositive(products) {
        CartProperties.DecrementKeepsPositive(products, id);
      }
      if lowered.quantity == 0 {
        products := filteredProducts;
      } else {
        products := [lowered] + filteredProducts;
      }
      outcome := Ok(());
    }

    /** `addToCart(product)`: appends a new line item with quantity 1 when
        the id is absent, and otherwise calls `Increment` on the id; it
        never fails. The stored list is the one `CartLists.AddToCart`
        describes. */
    method AddToCart(item: Item)
      modifies this
      ensures products == CartLists.AddToCart(old(products), item)
      ensures UniqueIds(old(products)) ==> UniqueIds(products)
      ensures AllPositive(old(products)) ==> AllPositive(products)
    {
      if UniqueIds(products) {
        CartProperties.AddToCartKeepsUnique(products, item);
      }
      if AllPositive(products) {
        CartProperties.AddToCartKeepsPositive(products, item);
      }
      var productId := FindIndex(products, item.id);
      if productId < 0 {
        products := products + [NewLine(item)];
      } else {
        var _ := Increment(item.id);
      }
    }
  }
}

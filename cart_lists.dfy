/**
 The list logic of the cart hook: the `Product` record and the three
 operations `increment`, `decrement` and `addToCart`, each one a function
 from the current list of line items to the next one.

 The cart is an ordered list; an item is looked up by its id with a
 "first match" search, and the list operations rebuild the list by
 dropping every item with that id and putting one item back.
 */
module CartLists {

  /** A line item of the cart. `price` is carried along unchanged: no
      operation computes with it. */
  datatype Product = Product(id: string, title: string, imageUrl: string, price: real, quantity: int)

  /** What `addToCart` receives: a product without its quantity. */
  datatype Item = Item(id: string, title: string, imageUrl: string, price: real)

  /** The one error the operations raise: the id is not in the cart
      ("This product has not been added to the cart yet"). */
  datatype CartError = NotInCart

  datatype Option<T> = None | Some(value: T)

  datatype Result<T> = Ok(value: T) | Err(error: CartError)

  /** Some item of `ps` has id `id`. */
  predicate HasId(ps: seq<Product>, id: string)
  {
    exists i :: 0 <= i < |ps| && ps[i].id == id
  }

  /** No two items of the list share an id. */
  predicate UniqueIds(ps: seq<Product>)
  {
    forall i, j :: 0 <= i < j < |ps| ==> ps[i].id != ps[j].id
  }

  /** Every item has a quantity of at least one. */
  predicate AllPositive(ps: seq<Product>)
  {
    forall i :: 0 <= i < |ps| ==> ps[i].quantity >= 1
  }

  /** The invariant the cart is meant to keep. */
  predicate WellFormed(ps: seq<Product>)
  {
    UniqueIds(ps) && AllPositive(ps)
  }

  /** A non-empty list has the id exactly when its head or its tail has it. */
  lemma HasIdCons(ps: seq<Product>, id: string)
    requires |ps| > 0
    ensures HasId(ps, id) <==> ps[0].id == id || HasId(ps[1..], id)
  {
    if HasId(ps[1..], id) {
      var i :| 0 <= i < |ps[1..]| && ps[1..][i].id == id;
      assert ps[i + 1].id == id;
    }
    if HasId(ps, id) && ps[0].id != id {
      var i :| 0 <= i < |ps| && ps[i].id == id;
      assert ps[1..][i - 1].id == id;
    }
  }

  /** The number of items of `ps` with id `id`. */
  function CountId(ps: seq<Product>, id: string): (n: nat)
    ensures n <= |ps|
    ensures n == 0 <==> !HasId(ps, id)
  {
    if |ps| == 0 then 0
    else
      var rest := CountId(ps[1..], id);
      assert HasId(ps, id) <==> ps[0].id == id || HasId(ps[1..], id) by { HasIdCons(ps, id); }
      (if ps[0].id == id then 1 else 0) + rest
  }

  /** `products.findIndex(item => item.id === id)`: the position of the
      first item with that id, or -1 when there is none. */
  function FindIndex(ps: seq<Product>, id: string): (k: int)
    ensures -1 <= k < |ps|
    ensures k >= 0 ==> ps[k].id == id && forall j :: 0 <= j < k ==> ps[j].id != id
    ensures k < 0 <==> !HasId(ps, id)
  {
    if |ps| == 0 then -1
    else if ps[0].id == id then 0
    else
      var k := FindIndex(ps[1..], id);
      assert k < 0 ==> forall i :: 0 <= i < |ps| ==> ps[i].id != id by {
        if k < 0 {
          forall i | 0 <= i < |ps| ensures ps[i].id != id {
            if i > 0 { assert ps[i] == ps[1..][i - 1]; }
          }
        }
      }
      if k < 0 then -1 else k + 1
  }

  /** `products.find(product => product.id === id)`: the first item with
      that id, if any. */
  function Find(ps: seq<Product>, id: string): (r: Option<Product>)
    ensures r.None? <==> !HasId(ps, id)
    ensures r.Some? ==> r.value.id == id
    ensures r.Some? ==> r.value == ps[FindIndex(ps, id)]
  {
    var k := FindIndex(ps, id);
    if k < 0 then None else Some(ps[k])
  }

  /** `products.filter(product => product.id !== id)`: the items whose id
      differs, in their original order. */
  function FilterOut(ps: seq<Product>, id: string): (r: seq<Product>)
    ensures |r| <= |ps|
    ensures !HasId(r, id)
  {
    if |ps| == 0 then []
    else
      var rest := FilterOut(ps[1..], id);
      if ps[0].id == id then rest else [ps[0]] + rest
  }

  /** The line item `addToCart` creates for a product not yet in the cart:
      `{ ...product, quantity: 1 }`. */
  function NewLine(item: Item): (p: Product)
    ensures p.id == item.id && p.title == item.title && p.imageUrl == item.imageUrl && p.price == item.price
    ensures p.quantity == 1
  {
    Product(item.id, item.title, item.imageUrl, item.price, 1)
  }

  /** `increment(id)`: the first item with that id is moved to the end of
      the list with its quantity one higher; every item with that id is
      dropped from its old place. Fails when the id is not in the cart. */
  function Increment(ps: seq<Product>, id: string): (r: Result<seq<Product>>)
    ensures r.Err? <==> !HasId(ps, id)
    ensures r.Err? ==> r.error == NotInCart
    ensures r.Ok? ==> CountId(r.value, id) == 1
  {
    match Find(ps, id)
    case None => Err(NotInCart)
    case Some(p) =>
      var bumped := p.(quantity := p.quantity + 1);
      var rest := FilterOut(ps, id);
      assert CountId(rest + [bumped], id) == 1 by { CountIdAppend(rest, [bumped], id); }
      Ok(rest + [bumped])
  }

  /** `decrement(id)`: the first item with that id gets its quantity one
      lower; every item with that id is dropped and, unless the new
      quantity is exactly 0, the decremented item is put back at the
      front. Fails when the id is not in the cart. */
  function Decrement(ps: seq<Product>, id: string): (r: Result<seq<Product>>)
    ensures r.Err? <==> !HasId(ps, id)
    ensures r.Err? ==> r.error == NotInCart
    ensures r.Ok? ==> CountId(r.value, id) == if Find(ps, id).value.quantity == 1 then 0 else 1
  {
    match Find(ps, id)
    case None => Err(NotInCart)
    case Some(p) =>
      var lowered := p.(quantity := p.quantity - 1);
      var rest := FilterOut(ps, id);
      if lowered.quantity == 0 then Ok(rest)
      else
        assert CountId([lowered] + rest, id) == 1 by { CountIdAppend([lowered], rest, id); }
        Ok([lowered] + rest)
  }

  /** `addToCart(product)`: a product whose id is not in the cart is
      appended with quantity 1; otherwise the call is `increment` of its
      id. Either way the cart ends with exactly one item of that id. */
  function AddToCart(ps: seq<Product>, item: Item): (r: seq<Product>)
    ensures CountId(r, item.id) == 1
  {
    if FindIndex(ps, item.id) < 0 then
      assert CountId(ps + [NewLine(item)], item.id) == 1 by { CountIdAppend(ps, [NewLine(item)], item.id); }
      ps + [NewLine(item)]
    else
      Increment(ps, item.id).value
  }

  /** Counting distributes over concatenation. */
  lemma {:induction false} CountIdAppend(a: seq<Product>, b: seq<Product>, id: string)
    ensures CountId(a + b, id) == CountId(a, id) + CountId(b, id)
  {
    if |a| > 0 {
      assert (a + b)[1..] == a[1..] + b;
      CountIdAppend(a[1..], b, id);
    } else {
      assert a + b == b;
    }
  }
}

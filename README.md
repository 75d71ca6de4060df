# Cart line items of the storefront's cart hook

This project models the cart state of a React Native storefront. The state is an
ordered list of line items (`Product`: id, title, image URL, price, quantity).
Three callbacks change it:

- `increment(id)` looks up the first item with `id` and throws when there is none.
  Otherwise it drops every item with `id` and appends the found item with its
  quantity one higher.
- `decrement(id)` looks up the first item with `id` and throws when there is none.
  Otherwise it lowers that item's quantity by one and drops every item with `id`.
  When the new quantity is exactly 0 the item stays out. Otherwise it goes back
  in at the front.
- `addToCart(product)` appends `{ ...product, quantity: 1 }` when no item has the
  product's id. Otherwise it calls `increment(product.id)`.

The project has three modules:

- `CartLists` (`cart_lists.dfy`) holds the record types and the list operations
  as functions: `FindIndex` (`findIndex`), `Find` (`find`), `FilterOut` (`filter`
  on a different id), `NewLine` (the `{ ...product, quantity: 1 }` record that
  `addToCart` builds), and `Increment`, `Decrement`, `AddToCart`. The thrown error
  becomes `Result.Err(NotInCart)`.
- `CartProperties` (`cart_properties.dfy`) proves what the operations promise.
  It covers the error case, where the touched item ends up and with which
  quantity, that every other item keeps its contents and order, and the lengths
  when ids are unique. It also proves that each operation keeps ids unique
  and, separately, keeps every quantity at least 1.
- `CartHook` (`cart_provider.dfy`) holds the class `CartProvider`. Its one field,
  `products`, is the hook's state cell. Its methods run the callbacks step by
  step and overwrite that cell. Their postconditions tie the new list to the
  `CartLists` functions.

`addToCart` reuses `increment`: the method `CartProvider.AddToCart` calls
`CartProvider.Increment`, and the function `CartLists.AddToCart` calls
`CartLists.Increment`.

Quantities are unbounded integers. Prices are `real` values that are copied
unchanged, because nothing computes with them.

The model follows the code where the code's promise differs from a looser
description of it:

- `decrement` removes an item only when its new quantity is exactly 0, as the
  code has it (`=== 0`). It does not remove at "0 or below". An item with
  quantity 0 or less, which only a stored list could hold, is therefore kept
  with quantity -1 or less, at the front of the list. For that reason the two
  halves of the invariant are proved separately: unique ids are kept whatever
  the quantities are, and quantities of at least 1 are kept whatever the ids are.
- `increment` does not keep the item in place. It moves the item to the end, and
  `decrement` moves it to the front.
- If the list holds duplicate ids, at most the first matching item survives
  either operation. A decrement at quantity 1 drops all of them.

## Model

| member | source | states |
|---|---|---|
| CartLists.FindIndex | src/hooks/cart.tsx:94 | the result is -1 exactly when no item has the id; otherwise it is the index of an item with the id, and no earlier item has it |
| CartLists.Find | src/hooks/cart.tsx:47 | returns nothing exactly when the id is absent; otherwise it returns the item at the position FindIndex gives, which carries the id |
| CartLists.FilterOut | src/hooks/cart.tsx:53 | the result is no longer than the list and holds no item with the id |
| CartLists.NewLine | src/hooks/cart.tsx:97 | the new line item copies the product's id, title, image URL and price and has quantity 1 |
| CartLists.CountId | src/hooks/cart.tsx:53 | the count is at most the length and is 0 exactly when the id is absent |
| CartLists.Increment | src/hooks/cart.tsx:45-64 | fails with NotInCart exactly when the id is absent; on success exactly one item with the id remains |
| CartLists.Decrement | src/hooks/cart.tsx:66-90 | fails with NotInCart exactly when the id is absent; on success no item with the id remains if the found quantity was 1, and exactly one remains otherwise |
| CartLists.AddToCart | src/hooks/cart.tsx:92-110 | afterwards exactly one item carries the product's id, whether it was added or incremented |
| CartLists.CountIdAppend | src/hooks/cart.tsx:56 | the count over a concatenation is the sum of the counts over its parts |
| CartProperties.FilterOutLength | src/hooks/cart.tsx:53 | filtering shortens the list by exactly the number of items with the id |
| CartProperties.FilterOutMembers | src/hooks/cart.tsx:53 | an item is in the filtered list exactly when it is in the list and has another id |
| CartProperties.FilterOutAppend | src/hooks/cart.tsx:53 | filtering a concatenation is the concatenation of the filtered parts, so relative order is kept |
| CartProperties.FilterOutAbsent | src/hooks/cart.tsx:53 | filtering out an absent id returns the list unchanged |
| CartProperties.FilterOutUnique | src/hooks/cart.tsx:53 | with unique ids, filtering out the id of item k gives the list without position k, in order |
| CartProperties.FilterOutKeepsUnique | src/hooks/cart.tsx:53 | filtering keeps ids unique |
| CartProperties.FilterOutKeepsPositive | src/hooks/cart.tsx:53 | filtering keeps every quantity at least 1 |
| CartProperties.FindAppend | src/hooks/cart.tsx:47 | the first match in a concatenation is in the left part when there is one there, otherwise in the right part |
| CartProperties.FindFilterOut | src/hooks/cart.tsx:47-53 | filtering out one id does not change what a search for any other id finds |
| CartProperties.FindUnique | src/hooks/cart.tsx:47 | with unique ids, a search for an item's id finds that item |
| CartProperties.IncrementKeepsOthers | src/hooks/cart.tsx:53-56 | after increment, a search for any other id finds the same item as before |
| CartProperties.IncrementPresent | src/hooks/cart.tsx:47-56 | increment of a present id succeeds; the found item is last with quantity exactly one higher; the search for the id finds it; all other items are unchanged and in their old order; other ids are found as before |
| CartProperties.IncrementUnique | src/hooks/cart.tsx:53-56 | with unique ids, increment removes the item from position k and appends it with quantity one higher; the length is unchanged |
| CartProperties.IncrementKeepsUnique | src/hooks/cart.tsx:53-56 | increment keeps ids unique, whatever the quantities are |
| CartProperties.IncrementKeepsPositive | src/hooks/cart.tsx:55-56 | increment keeps every quantity at least 1, whatever the ids are |
| CartProperties.IncrementPreservesWellFormed | src/hooks/cart.tsx:53-56 | corollary of the two above: increment keeps ids unique and every quantity at least 1 |
| CartProperties.DecrementPresent | src/hooks/cart.tsx:68-82 | decrement of a present id succeeds; at quantity 1 the id leaves the cart; otherwise the item is first with quantity exactly one lower; all other items are unchanged and in their old order; other ids are found as before |
| CartProperties.DecrementUnique | src/hooks/cart.tsx:74-82 | with unique ids, decrement at quantity 1 removes position k, so the length drops by 1; otherwise it moves the item to the front with quantity one lower and the length is unchanged |
| CartProperties.DecrementKeepsUnique | src/hooks/cart.tsx:76-82 | decrement keeps ids unique, whatever the quantities are |
| CartProperties.DecrementKeepsPositive | src/hooks/cart.tsx:74-82 | decrement keeps every quantity at least 1, whatever the ids are, because an item that would reach 0 is removed |
| CartProperties.DecrementPreservesWellFormed | src/hooks/cart.tsx:74-82 | corollary of the two above: decrement keeps ids unique and every quantity at least 1 |
| CartProperties.AddToCartFresh | src/hooks/cart.tsx:94-99 | adding a product with a fresh id appends exactly one item, built from the product with quantity 1, and leaves the existing items untouched |
| CartProperties.AddToCartPresent | src/hooks/cart.tsx:100-102 | adding a product with a present id gives the same list as increment of that id; that item's quantity is one higher; with unique ids the length is unchanged |
| CartProperties.AddToCartKeepsUnique | src/hooks/cart.tsx:94-102 | addToCart keeps ids unique, whatever the quantities are, because it appends only an absent id |
| CartProperties.AddToCartKeepsPositive | src/hooks/cart.tsx:97-102 | addToCart keeps every quantity at least 1, whatever the ids are, because a new item starts at 1 |
| CartProperties.AddToCartPreservesWellFormed | src/hooks/cart.tsx:94-102 | corollary of the two above: addToCart keeps ids unique and every quantity at least 1 |
| CartProperties.Session | src/hooks/cart.tsx:45-110 | on an empty cart: add gives one item with quantity 1; increment gives quantity 2; two decrements give quantity 1 and then an empty cart; a third decrement fails |
| CartHook.CartProvider.constructor | src/hooks/cart.tsx:29 | the cart starts empty |
| CartHook.CartProvider.Increment | src/hooks/cart.tsx:45-64 | fails exactly when the id is absent, and then leaves the cart unchanged; otherwise stores the list CartLists.Increment gives; an old list with unique ids gives a new one with unique ids, and an old list with every quantity at least 1 gives a new one with every quantity at least 1 |
| CartHook.CartProvider.Decrement | src/hooks/cart.tsx:66-90 | fails exactly when the id is absent, and then leaves the cart unchanged; otherwise stores the list CartLists.Decrement gives; an old list with unique ids gives a new one with unique ids, and an old list with every quantity at least 1 gives a new one with every quantity at least 1 |
| CartHook.CartProvider.AddToCart | src/hooks/cart.tsx:92-110 | stores the list CartLists.AddToCart gives, by appending or by calling Increment; an old list with unique ids gives a new one with unique ids, and an old list with every quantity at least 1 gives a new one with every quantity at least 1 |

## Left out

- Loading the cart from AsyncStorage on mount (src/hooks/cart.tsx:31-43) is not modelled. It is asynchronous I/O through a library that is not part of this model. The same goes for the writes after each operation (src/hooks/cart.tsx:58-61, 84-87, 104-107). Each write serialises the array from before the update, so it has the old order and membership. Because the found item was changed in place, it does carry the touched item's new quantity. After a decrement from quantity 1, the stored list therefore still holds that item with quantity 0, and a load before the next write brings it back. The next write serialises the array current by then, which no longer holds the item.
- `JSON.parse` and `JSON.stringify` are library calls and are not modelled.
- React plumbing is not modelled: context, `useState`, `useCallback`, `useMemo` and re-render timing. Every update acts on the single current list. This also covers the functional update in `addToCart` (src/hooks/cart.tsx:99), which the model treats like the other updates.
- The found product is not shared between the old and the new list. In the source, `increment` and `decrement` change it in place, so the old array sees the new quantity too. The model builds an updated copy instead, so that aliasing is not captured.
- The asynchronous behaviour of the callbacks is not modelled. In the source, the throw becomes a rejected promise, and `addToCart` does not await `increment`. The model returns the error as a value.
- `useCart` and its "must be used within a CartProvider" check (src/hooks/cart.tsx:120-128) are UI wiring and are not modelled.
- Prices are JavaScript floating-point numbers in the source. The model uses `real`, which is safe only because prices are never computed with.
- Quantities are JavaScript numbers in the source. The model uses unbounded integers, so floating-point rounding of very large quantities is not captured.

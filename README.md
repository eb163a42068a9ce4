# Shopping-cart provider (RocketShoes `useCart`)

This project models the cart state of the `CartProvider` React component in
`src/hooks/useCart.tsx`. The cart is an ordered list of entries. Each entry
has a product id and an amount. A copy of the cart is kept in the browser's
local storage under the key `@RocketShoes:cart`. Three operations change the
cart. `addProduct` checks the stock; for an id not yet in the cart it asks the
product service first and the stock service second. `updateProductAmount`
refuses an amount below 1 before it asks the stock service, and checks the
stock only after that. `removeProduct` asks no service; it only checks that
the id is in the cart. Each failure shows one of two kinds of notice: out of
stock (the error tagged `'qtd'`) or a generic error.

The model has two modules:

- `Cart` (`cart.dfy`) holds the values. `Item` is a cart entry, `Product` is
  the descriptor the product service returns, and `Outcome` is `Ok`,
  `OutOfStock` or `Generic`. It also holds the three list operations the
  provider is built from, as pure functions: `FindIndex` is `Array.find`,
  `Without` is the `filter` and `WithAmount` is the amount-setting `map`. The
  lemmas about them are in the same module.
- `UseCart` (`cart_provider.dfy`) holds the class `CartProvider`. Its field
  `cart` is the cart in memory. Its field `stored` is the snapshot in storage,
  and `None` means the storage key is absent. Its methods are the three
  operations. Each method reassigns `cart` and `stored` the way the source
  does. Its `ensures` say which inputs are rejected and with which outcome,
  that a rejection leaves the cart and the snapshot alone, exactly what the
  new cart is on success, and that the snapshot equals the new cart then. They
  also say that `Valid()` is preserved. `Valid()` means unique ids and amounts
  of at least 1.

Each answer from a service is a parameter of the method. `stock: Option<int>`
is the stock amount, and `None` means the request failed. `product:
Option<Product>` is the answer of the product service.

Some behaviour of the code is kept as written:

- A new entry is `{...response.data, amount: 1}`. Its id is therefore the id
  of the descriptor the service returned, not the requested id. `AddProduct`
  keeps `Valid()` when the service returns the product it was asked for.
- When the product is already in the cart, `addProduct` first raises the
  amount of the first matching entry in place. It then calls
  `updateProductAmount` with the raised amount. If the old amount was
  negative, which only a hand-edited stored snapshot can hold, the update
  rejects the raised amount. The cart in memory keeps the raised entry and
  the snapshot is not rewritten. `AddProduct` states this case as it is.
- There is no separate not-found or invalid-quantity error. Removing an id
  that is not in the cart, and an amount below 1, show the operation's
  generic notice, so both are `Generic`.
- `removeProduct` drops every entry with the id, not only the first.
- `updateProductAmount` for an id that is not in the cart succeeds. The cart
  stays the same and the snapshot is still rewritten.

## Model

| member | source | states |
|---|---|---|
| `Cart.FindIndex` | src/hooks/useCart.tsx:37 | the result is None exactly when no entry has the id; otherwise it is the position of the first entry with that id |
| `Cart.Without` | src/hooks/useCart.tsx:76 | the result keeps exactly the entries whose id differs; it has no entry with the id; it is strictly shorter exactly when the cart had one, and equals the cart when it had none |
| `Cart.WithAmount` | src/hooks/useCart.tsx:99-104 | same length and ids at every position; every entry with the id gets the amount; every other entry is unchanged; a cart without the id is returned as it is |
| `Cart.WithoutConcat` | src/hooks/useCart.tsx:76 | filtering a concatenation is the concatenation of the filtered parts, so the entries kept stay in their original order |
| `Cart.WithoutKeepsUnique` | src/hooks/useCart.tsx:76 | removing a product from a cart with unique ids leaves the ids unique |
| `Cart.AppendThenWithout` | src/hooks/useCart.tsx:55-59 | removing the entry just appended for an id that was not in the cart gives back the cart it was appended to |
| `Cart.AppendFreshKeepsUnique` | src/hooks/useCart.tsx:37-59 | appending an entry for an id that `find` did not find keeps the ids unique |
| `Cart.SetAmountOfUniqueEntry` | src/hooks/useCart.tsx:99-104 | with unique ids, setting the amount of the id found at position k changes only that entry |
| `Cart.WithAmountOverridesEntry` | src/hooks/useCart.tsx:43-48 | raising one entry in place before setting the amount of its id makes no difference to the result |
| `Cart.WithAmountLastWins` | src/hooks/useCart.tsx:99-104 | setting the amount of an id twice gives the same cart as the second setting alone |
| `UseCart.CartProvider.constructor` | src/hooks/useCart.tsx:25-33 | the cart starts as the stored snapshot, or empty when there is none; memory and storage agree; the empty start is well formed |
| `UseCart.CartProvider.UpdateProductAmount` | src/hooks/useCart.tsx:86-115 | an amount below 1 is a generic error before the stock service is asked; a failed stock request is a generic error; a stock below the amount is out of stock; a rejection changes neither cart nor snapshot; a success sets every entry of the id to the amount, keeps the rest and the order, and stores the new cart, even when no entry has the id; well-formedness and agreement with storage are preserved |
| `UseCart.CartProvider.RemoveProduct` | src/hooks/useCart.tsx:73-84 | it succeeds exactly when some entry has the id; otherwise it is a generic error and nothing changes; a success removes every entry of the id, keeps every other entry in order, and stores the new cart; well-formedness and agreement with storage are preserved |
| `UseCart.CartProvider.AddProduct` | src/hooks/useCart.tsx:35-71 | for a new id, a failed product or stock request is a generic error, a stock below 1 is out of stock, and otherwise one entry with amount 1 is appended and stored; for an id in the cart, a failed stock request is a generic error, an amount not below the stock is out of stock, and otherwise the id's amount becomes the first entry's amount plus 1 and is stored; a raised amount still below 1 is a generic error (the update's notice) that keeps the raised entry in memory without storing it; every other rejection leaves cart and snapshot alone; from a well-formed cart only that one entry changes; well-formedness is preserved when the service returns the product asked for |

## Left out

- The React machinery: the context, `useState`, `useContext` and the `setCart([])` / `setCart(newCart)` pair. Only their net effect, the new value of `cart`, is modelled.
- The HTTP requests through `api.get`. Their answers are method parameters, and a failed request is `None`.
- The notices shown through `toast.error`. They are the `Outcome` values; the notice texts are not modelled.
- The JSON encoding of the snapshot. `stored` is a plain copy of the cart. A snapshot that does not parse makes the source crash at start; that case is not modelled.
- Overlapping asynchronous calls and the lost updates they can cause. The model runs each operation to completion before the next one starts. This includes the call from `addProduct` to `updateProductAmount`, which the source does not await.
- Writes to storage are assumed to succeed. In the source, `localStorage.setItem` runs only after the cart in memory has changed: after the push and `setCart` when adding, after `setCart` when removing, and after the in-place map and `setCart` when updating. If `setItem` throws (storage full or disabled), the operation shows its generic notice while the cart in memory has already changed and the snapshot has not. The model does not capture that case: each success writes `stored := Some(cart)`, and "a rejection leaves the cart and the snapshot alone" holds only under this assumption.
- The two stock requests of `addProduct` for an id already in the cart (its own, and the one made by the nested `updateProductAmount`) get the same answer in the model. The case where they differ is lost: if the second request fails, or returns less than the raised amount, the in-place raise of the first matching entry stays in memory, the snapshot is not rewritten, and the update's notice (generic or out of stock) is shown.
- Sharing of entry objects between the cart and the arrays built from it. Only the resulting values are modelled.
- The number type of the source. Ids, amounts and stock answers are JavaScript numbers (double-precision floats) and are modelled as unbounded `int`. Fractional values, NaN, values beyond 2^53, and a stock answer whose `amount` is not a number are not modelled. With NaN every comparison is false, so `updateProductAmount` with amount NaN would set the matching amounts in memory to NaN and write them to storage as `null` (that is how JSON encodes NaN), with no notice, and a stock answer without a numeric `amount` lets `addProduct` append the new entry.
- Product fields other than `id` and `amount`, the `useCart` accessor, and the read-only `cart` value exposed to the UI.

/**
 * The cart provider: the cart held in memory, the snapshot kept under the
 * storage key "@RocketShoes:cart", and the three operations that change
 * them. Each answer of the stock service is a parameter (None when the
 * request fails), as is the answer of the product service.
 */
module UseCart {
  import opened Cart

  class CartProvider {
    /** The cart held in memory. */
    var cart: seq<Item>
    /** The snapshot in storage; None while the storage key is absent. */
    var stored: Option<seq<Item>>

    /** The cart is well formed: unique ids and at least one unit per entry. */
    predicate Valid()
      reads this
    {
      UniqueIds(cart) && PositiveAmounts(cart)
    }

    /** Storage holds the cart in memory, or nothing while the cart is empty. */
    predicate InSync()
      reads this
    {
      stored == Some(cart) || (stored.None? && cart == [])
    }

    /** The cart starts as the stored snapshot, or empty when there is none. */
    constructor (snapshot: Option<seq<Item>>)
      ensures stored == snapshot
      ensures cart == (if snapshot.Some? then snapshot.value else [])
      ensures InSync()
      ensures snapshot.Some? ==> (Valid() <==> UniqueIds(snapshot.value) && PositiveAmounts(snapshot.value))
      ensures snapshot.None? ==> Valid()
    {
      stored := snapshot;
      cart := if snapshot.Some? then snapshot.value else [];
    }

    /**
     * Sets the amount of every entry with this id. Amounts below 1 are
     * refused before the stock service is asked; a stock below the amount
     * is out of stock. On success the snapshot is rewritten, even when no
     * entry has this id.
     */
    method UpdateProductAmount(productId: int, amount: int, stock: Option<int>) returns (r: Outcome)
      modifies this
      ensures amount < 1 ==> r == Generic
      ensures 1 <= amount && stock.None? ==> r == Generic
      ensures 1 <= amount && stock.Some? && stock.value < amount ==> r == OutOfStock
      ensures 1 <= amount && stock.Some? && amount <= stock.value ==> r == Ok
      ensures r != Ok ==> cart == old(cart) && stored == old(stored)
      ensures r == Ok ==> cart == WithAmount(old(cart), productId, amount) && stored == Some(cart)
      ensures r == Ok && !Has(old(cart), productId) ==> cart == old(cart)
      ensures old(Valid()) ==> Valid()
      ensures old(InSync()) ==> InSync()
    {
      if amount < 1 {
        return Generic;
      }
      if stock.None? {
        return Generic;
      }
      if stock.value < amount {
        return OutOfStock;
      }
      cart := WithAmount(cart, productId, amount);
      stored := Some(cart);
      r := Ok;
    }

    /** Drops every entry with this id; an id with no entry is an error. */
    method RemoveProduct(productId: int) returns (r: Outcome)
      modifies this
      ensures r == (if Has(old(cart), productId) then Ok else Generic)
      ensures r == Generic ==> cart == old(cart) && stored == old(stored)
      ensures r == Ok ==> cart == Without(old(cart), productId) && stored == Some(cart)
      ensures r == Ok ==> !Has(cart, productId) && |cart| < |old(cart)|
      ensures forall x :: x in old(cart) && x.id != productId ==> x in cart
      ensures old(Valid()) ==> Valid()
      ensures old(InSync()) ==> InSync()
    {
      var found := FindIndex(cart, productId);
      var newCart := Without(cart, productId);
      if found.None? {
        return Generic;
      }
      if UniqueIds(cart) {
        WithoutKeepsUnique(cart, productId);
      }
      cart := newCart;
      stored := Some(newCart);
      r := Ok;
    }

    /**
     * Adds one unit of a product. When the cart already has the id, the
     * first such entry is bumped in place if its amount is below the stock,
     * and the bumped amount is then set through UpdateProductAmount with the
     * same stock answer. Otherwise a new entry built from the product
     * descriptor is appended with amount 1 if the stock is at least 1.
     * If the bumped amount is still below 1, the nested update rejects it:
     * that Generic is the update's notice ("Erro na alteração de quantidade
     * do produto"), not the notice of adding, and the bump stays in memory.
     */
    method AddProduct(productId: int, stock: Option<int>, product: Option<Product>) returns (r: Outcome)
      modifies this
      // the id is not in the cart yet
      ensures !Has(old(cart), productId) ==>
        if product.None? || stock.None? then
          r == Generic && cart == old(cart) && stored == old(stored)
        else if stock.value < 1 then
          r == OutOfStock && cart == old(cart) && stored == old(stored)
        else
          r == Ok && cart == old(cart) + [Item(product.value.id, 1)] && stored == Some(cart)
      // the id is in the cart: k is its first entry
      ensures FindIndex(old(cart), productId).Some? ==>
        var k := FindIndex(old(cart), productId).value;
        var bumped := old(cart)[k].amount + 1;
        if stock.None? then
          r == Generic && cart == old(cart) && stored == old(stored)
        else if !(old(cart)[k].amount < stock.value) then
          r == OutOfStock && cart == old(cart) && stored == old(stored)
        else if bumped < 1 then
          r == Generic && cart == old(cart)[k := Item(productId, bumped)] && stored == old(stored)
        else
          r == Ok && cart == WithAmount(old(cart), productId, bumped) && stored == Some(cart)
      // from a well-formed cart, a bump touches exactly the one entry
      ensures old(Valid()) && FindIndex(old(cart), productId).Some? && r == Ok ==>
        var k := FindIndex(old(cart), productId).value;
        cart == old(cart)[k := Item(productId, old(cart)[k].amount + 1)]
      ensures old(Valid()) && (product.Some? ==> product.value.id == productId) ==> Valid()
      ensures old(Valid() && InSync()) ==> InSync()
    {
      var found := FindIndex(cart, productId);
      if found.Some? {
        var k := found.value;
        if stock.None? {
          return Generic;
        }
        if !(cart[k].amount < stock.value) {
          return OutOfStock;
        }
        var bumped := cart[k].amount + 1;
        cart := cart[k := Item(cart[k].id, bumped)];
        ghost var before := cart;
        r := UpdateProductAmount(productId, bumped, stock);
        if r == Ok {
          // the in-place bump is overwritten by the update of every entry with this id
          WithAmountOverridesEntry(old(cart), k, bumped, bumped);
          if old(Valid()) {
            SetAmountOfUniqueEntry(old(cart), k, bumped);
          }
        }
      } else {
        if product.None? || stock.None? {
          return Generic;
        }
        if stock.value < 1 {
          return OutOfStock;
        }
        if UniqueIds(cart) && product.value.id == productId {
          AppendFreshKeepsUnique(cart, Item(productId, 1));
        }
        cart := cart + [Item(product.value.id, 1)];
        stored := Some(cart);
        r := Ok;
      }
    }
  }
}

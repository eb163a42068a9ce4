/**
 * The values of the shopping cart and the three list operations the cart
 * provider builds its mutations from: `find` (first entry with an id),
 * `filter` (drop every entry with an id) and the amount-setting `map`.
 */
module Cart {

  datatype Option<+T> = None | Some(value: T)

  /** A cart entry: the product's id and the quantity of it held in the cart. */
  datatype Item = Item(id: int, amount: int)

  /** The descriptor the product service returns; only its id is modelled. */
  datatype Product = Product(id: int)

  /**
   * What an operation reports to the user: nothing (`Ok`), the
   * out-of-stock notice (the error tagged 'qtd'), or a generic error
   * notice. The generic notice is normally that of the operation called;
   * the one exception is described at CartProvider.AddProduct.
   */
  datatype Outcome = Ok | OutOfStock | Generic

  /** Some entry of the cart carries this id. */
  predicate Has(cart: seq<Item>, id: int)
  {
    exists i :: 0 <= i < |cart| && cart[i].id == id
  }

  /** No two entries share an id. */
  predicate UniqueIds(cart: seq<Item>)
  {
    forall i, j :: 0 <= i < j < |cart| ==> cart[i].id != cart[j].id
  }

  /** Every entry holds at least one unit. */
  predicate PositiveAmounts(cart: seq<Item>)
  {
    forall i :: 0 <= i < |cart| ==> cart[i].amount >= 1
  }

  /** The position of the first entry with this id (`cart.find`), or None when there is none. */
  function FindIndex(cart: seq<Item>, id: int): (r: Option<nat>)
    ensures r.None? <==> !Has(cart, id)
    ensures r.Some? ==> r.value < |cart| && cart[r.value].id == id
    ensures r.Some? ==> forall i :: 0 <= i < r.value ==> cart[i].id != id
  {
    if cart == [] then None
    else if cart[0].id == id then Some(0)
    else
      match FindIndex(cart[1..], id)
      case None =>
        assert forall i :: 0 < i < |cart| ==> cart[i] == cart[1..][i - 1];
        None
      case Some(k) => Some(k + 1)
  }

  /** The cart without any entry of this id (`cart.filter(p => p.id !== id)`). */
  function Without(cart: seq<Item>, id: int): (r: seq<Item>)
    ensures forall x :: x in r <==> x in cart && x.id != id
    ensures !Has(r, id)
    ensures |r| <= |cart|
    ensures |r| == |cart| <==> !Has(cart, id)
    ensures !Has(cart, id) ==> r == cart
  {
    if cart == [] then []
    else
      var rest := Without(cart[1..], id);
      assert forall i :: 0 < i < |cart| ==> cart[i] == cart[1..][i - 1];
      if cart[0].id == id then rest else [cart[0]] + rest
  }

  /**
   * The cart with every entry of this id set to `amount`
   * (`cart.map(p => { if (p.id === id) p.amount = amount; return p })`).
   */
  function WithAmount(cart: seq<Item>, id: int, amount: int): (r: seq<Item>)
    ensures |r| == |cart|
    ensures forall i :: 0 <= i < |cart| ==> r[i].id == cart[i].id
    ensures forall i :: 0 <= i < |cart| && cart[i].id == id ==> r[i].amount == amount
    ensures forall i :: 0 <= i < |cart| && cart[i].id != id ==> r[i] == cart[i]
    ensures !Has(cart, id) ==> r == cart
  {
    if cart == [] then []
    else
      var head := if cart[0].id == id then Item(id, amount) else cart[0];
      [head] + WithAmount(cart[1..], id, amount)
  }

  /** Filtering distributes over concatenation, so the entries kept stay in their original order. */
  lemma {:induction false} WithoutConcat(a: seq<Item>, b: seq<Item>, id: int)
    ensures Without(a + b, id) == Without(a, id) + Without(b, id)
  {
    if a == [] {
      assert a + b == b;
    } else {
      assert (a + b)[1..] == a[1..] + b;
      WithoutConcat(a[1..], b, id);
    }
  }

  /** Removing entries cannot create two entries with the same id. */
  lemma {:induction false} WithoutKeepsUnique(cart: seq<Item>, id: int)
    requires UniqueIds(cart)
    ensures UniqueIds(Without(cart, id))
  {
    if cart != [] {
      var tail := cart[1..];
      assert UniqueIds(tail) by {
        forall i, j | 0 <= i < j < |tail| ensures tail[i].id != tail[j].id {
          assert tail[i] == cart[i + 1] && tail[j] == cart[j + 1];
        }
      }
      WithoutKeepsUnique(tail, id);
      var rest := Without(tail, id);
      if cart[0].id != id {
        forall x | x in rest ensures x.id != cart[0].id {
          var j :| 0 <= j < |tail| && tail[j] == x;
          assert cart[j + 1] == x;
        }
        var r := [cart[0]] + rest;
        forall i, j | 0 <= i < j < |r| ensures r[i].id != r[j].id {
          assert r[j] == rest[j - 1];
          if i > 0 {
            assert r[i] == rest[i - 1];
          } else {
            assert r[j] in rest;
          }
        }
      }
    }
  }

  /** Removing the entry just appended for a fresh id gives back the cart it was appended to. */
  lemma AppendThenWithout(cart: seq<Item>, id: int, amount: int)
    requires !Has(cart, id)
    ensures Without(cart + [Item(id, amount)], id) == cart
  {
    WithoutConcat(cart, [Item(id, amount)], id);
  }

  /** Appending an entry whose id is not in the cart keeps the ids unique. */
  lemma AppendFreshKeepsUnique(cart: seq<Item>, item: Item)
    requires UniqueIds(cart) && !Has(cart, item.id)
    ensures UniqueIds(cart + [item])
  {
    var r := cart + [item];
    forall i, j | 0 <= i < j < |r| ensures r[i].id != r[j].id {
      if j == |cart| {
        assert r[i] == cart[i];
      }
    }
  }

  /**
   * When ids are unique, setting the amount of an id that sits at position k
   * changes that one entry and nothing else.
   */
  lemma SetAmountOfUniqueEntry(cart: seq<Item>, k: nat, amount: int)
    requires UniqueIds(cart) && k < |cart|
    ensures WithAmount(cart, cart[k].id, amount) == cart[k := Item(cart[k].id, amount)]
  {
    var r := WithAmount(cart, cart[k].id, amount);
    forall i | 0 <= i < |cart| ensures r[i] == cart[k := Item(cart[k].id, amount)][i] {
      if i != k {
        assert i < k ==> cart[i].id != cart[k].id;
        assert i > k ==> cart[k].id != cart[i].id;
      }
    }
  }

  /** Changing one entry of an id and then setting the amount of that id is the same as only setting it. */
  lemma WithAmountOverridesEntry(cart: seq<Item>, k: nat, x: int, amount: int)
    requires k < |cart|
    ensures WithAmount(cart[k := Item(cart[k].id, x)], cart[k].id, amount) == WithAmount(cart, cart[k].id, amount)
  {
    var r, s := WithAmount(cart[k := Item(cart[k].id, x)], cart[k].id, amount), WithAmount(cart, cart[k].id, amount);
    forall i | 0 <= i < |cart| ensures r[i] == s[i] {
    }
  }

  /** Setting an amount twice keeps only the last write. */
  lemma WithAmountLastWins(cart: seq<Item>, id: int, a: int, b: int)
    ensures WithAmount(WithAmount(cart, id, a), id, b) == WithAmount(cart, id, b)
  {
    var r, s := WithAmount(WithAmount(cart, id, a), id, b), WithAmount(cart, id, b);
    forall i | 0 <= i < |cart| ensures r[i] == s[i] {
    }
  }
}

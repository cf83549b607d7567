/** The shopping cart: adding a product (merging with an existing entry),
    removing an entry, and setting an entry's quantity. */
module Cart {
  import opened Types
  import opened Text
  import opened Seqs
  import Catalogue

  /** The generated cart entry id `cart{n}`. */
  function CartId(n: nat): (r: string)
    ensures |r| > 4 && r[..4] == "cart" && DecimalValue(r[4..]) == n
  {
    Prefixed("cart", n)
  }

  function HasItemId(id: string): CartItem -> bool { (it: CartItem) => it.id == id }
  function HoldsProduct(productId: string): CartItem -> bool { (it: CartItem) => it.product.id == productId }

  /** Adding to the cart: the product must exist in the catalogue; an entry that
      already holds it grows by `quantity`, otherwise a new entry is appended. */
  function Add(products: seq<Product>, cart: seq<CartItem>, productId: string, quantity: int): (st: Step<CartItem, CartItem>)
    ensures st.result.Err? <==> FindIndex(products, Catalogue.HasId(productId)) == -1
    ensures st.result.Err? ==> st.result.error == ProductNotFound && st.after == cart
    ensures st.result.Ok? ==> st.result.value.product.id == productId
    ensures st.result.Ok? && FindIndex(cart, HoldsProduct(productId)) >= 0 ==>
      var k := FindIndex(cart, HoldsProduct(productId));
      && |st.after| == |cart|
      && st.after[k] == cart[k].(quantity := cart[k].quantity + quantity)
      && st.result.value == st.after[k]
      && (forall j :: 0 <= j < |cart| && j != k ==> st.after[j] == cart[j])
    ensures st.result.Ok? && FindIndex(cart, HoldsProduct(productId)) == -1 ==>
      && st.after == cart + [st.result.value]
      && st.result.value.id == CartId(|cart| + 1)
      && st.result.value.quantity == quantity
      && st.result.value.product == products[FindIndex(products, Catalogue.HasId(productId))]
  {
    match Find(products, Catalogue.HasId(productId))
    case None => Step(Err(ProductNotFound), cart)
    case Some(p) =>
      var k := FindIndex(cart, HoldsProduct(productId));
      if k > -1 then
        var item := cart[k].(quantity := cart[k].quantity + quantity);
        Step(Ok(item), cart[k := item])
      else
        var item := CartItem(CartId(|cart| + 1), p, quantity);
        Step(Ok(item), cart + [item])
  }

  /** Removing from the cart: the first entry with that id is spliced out. */
  function Remove(cart: seq<CartItem>, itemId: string): (st: Step<(), CartItem>)
    ensures st.result.Err? <==> FindIndex(cart, HasItemId(itemId)) == -1
    ensures st.result.Err? ==> st.result.error == ItemNotFound && st.after == cart
    ensures st.result.Ok? ==>
      var k := FindIndex(cart, HasItemId(itemId));
      && 0 <= k < |cart| && cart[k].id == itemId
      && (forall j :: 0 <= j < k ==> cart[j].id != itemId)
      && st.after == cart[..k] + cart[k + 1..]
      && |st.after| == |cart| - 1
  {
    var k := FindIndex(cart, HasItemId(itemId));
    if k == -1 then Step(Err(ItemNotFound), cart)
    else Step(Ok(()), cart[..k] + cart[k + 1..])
  }

  /** Setting an entry's quantity. An unknown entry is an error and changes
      nothing; a quantity of zero or less removes the entry AND is an error;
      otherwise only that entry's quantity changes. */
  function SetQuantity(cart: seq<CartItem>, itemId: string, quantity: int): (st: Step<CartItem, CartItem>)
    ensures st.result.Ok? <==> quantity > 0 && FindIndex(cart, HasItemId(itemId)) >= 0
    ensures FindIndex(cart, HasItemId(itemId)) == -1 ==> st.result == Err(ItemNotFound) && st.after == cart
    ensures FindIndex(cart, HasItemId(itemId)) >= 0 && quantity <= 0 ==>
      var k := FindIndex(cart, HasItemId(itemId));
      st.result == Err(QuantityNotPositive) && st.after == cart[..k] + cart[k + 1..]
    ensures st.result.Ok? ==>
      var k := FindIndex(cart, HasItemId(itemId));
      && 0 <= k < |cart|
      && st.result.value == cart[k].(quantity := quantity)
      && st.after == cart[k := st.result.value]
  {
    var k := FindIndex(cart, HasItemId(itemId));
    if k > -1 then
      if quantity <= 0 then Step(Err(QuantityNotPositive), cart[..k] + cart[k + 1..])
      else
        var item := cart[k].(quantity := quantity);
        Step(Ok(item), cart[k := item])
    else Step(Err(ItemNotFound), cart)
  }

  /** A quantity of zero or less has the same effect on the cart as removing the
      entry, although the call reports an error. */
  lemma NonPositiveQuantityRemoves(cart: seq<CartItem>, itemId: string, quantity: int)
    requires quantity <= 0
    ensures SetQuantity(cart, itemId, quantity).after == Remove(cart, itemId).after
    ensures SetQuantity(cart, itemId, quantity).result.Err?
  {
  }

  /** Quantity held for a product: that of the first entry holding it, or 0. */
  function QuantityOf(cart: seq<CartItem>, productId: string): int {
    var k := FindIndex(cart, HoldsProduct(productId));
    if k >= 0 then cart[k].quantity else 0
  }

  /** Adding the same product twice: one entry holds it, with both quantities
      added, and the cart grew by at most one entry. */
  lemma AddTwice(products: seq<Product>, cart: seq<CartItem>, productId: string, q1: int, q2: int)
    requires Add(products, cart, productId, q1).result.Ok?
    ensures var once := Add(products, cart, productId, q1);
      var twice := Add(products, once.after, productId, q2);
      var k := FindIndex(twice.after, HoldsProduct(productId));
      && twice.result.Ok?
      && 0 <= k
      && twice.result.value == twice.after[k]
      && twice.after[k].quantity == QuantityOf(cart, productId) + q1 + q2
      && |twice.after| == |cart| + (if FindIndex(cart, HoldsProduct(productId)) >= 0 then 0 else 1)
  {
    var f := HoldsProduct(productId);
    var once := Add(products, cart, productId, q1);
    var k := FindIndex(cart, f);
    if k >= 0 {
      FindIndexAgrees(cart, once.after, f);
      FindIndexAgrees(cart, Add(products, once.after, productId, q2).after, f);
    } else {
      FindIndexAppend(cart, once.result.value, f);
      var twice := Add(products, once.after, productId, q2);
      FindIndexAgrees(once.after, twice.after, f);
    }
  }

  /** Removing the entry that an add just appended restores the cart, provided no
      earlier entry already carries the generated id. */
  lemma AddThenRemove(products: seq<Product>, cart: seq<CartItem>, productId: string, quantity: int)
    requires Add(products, cart, productId, quantity).result.Ok?
    requires FindIndex(cart, HoldsProduct(productId)) == -1
    requires FindIndex(cart, HasItemId(CartId(|cart| + 1))) == -1
    ensures var a := Add(products, cart, productId, quantity);
      Remove(a.after, a.result.value.id) == Step(Ok(()), cart)
  {
    var a := Add(products, cart, productId, quantity);
    var item := a.result.value;
    assert a.after == cart + [item] && item.id == CartId(|cart| + 1);
    RemoveAppended(cart, item, HasItemId(item.id));
  }

  /** Generated entry ids collide: after removing `cart1` from `[cart1, cart2]`,
      adding another product yields a second `cart2`, and removing `cart2` then
      takes out the older entry, not the new one. */
  lemma CartIdsCanCollide(p: Product, c1: CartItem, c2: CartItem, quantity: int)
    requires c1.id == "cart1" && c2.id == "cart2" && c2.product.id != p.id
    ensures var after := Add([p], Remove([c1, c2], "cart1").after, p.id, quantity).after;
      && after == [c2, CartItem("cart2", p, quantity)]
      && Remove(after, "cart2").after == [CartItem("cart2", p, quantity)]
  {
    assert FindIndex([c1, c2], HasItemId("cart1")) == 0;
    assert [c1, c2][..0] + [c1, c2][1..] == [c2];
    assert Remove([c1, c2], "cart1").after == [c2];
    assert FindIndex([c2], HoldsProduct(p.id)) == -1;
    assert Find([p], Catalogue.HasId(p.id)) == Some(p);
    assert Decimal(2) == "2";
    assert CartId(2) == "cart2";
    var after := [c2, CartItem("cart2", p, quantity)];
    assert FindIndex(after, HasItemId("cart2")) == 0;
    assert after[..0] + after[1..] == [CartItem("cart2", p, quantity)];
  }
}

/**
 * The session cart of `POST /products/cart/add/:id` (src/routes/products.js). The cart is an
 * array of entries kept in the session; an entry records the path id as the string it was
 * given, with the product's name and price as they were when it was first added.
 */
module ProductCart {
  import opened JsValues
  import opened Schema

  datatype CartItem = CartItem(id: string, name: string, price: real, quantity: int)

  /** `n || 1`: NaN and 0 (both falsy) become 1, any other number is kept. */
  function OrOne(n: Option<int>): int {
    match n
    case Some(v) => if v == 0 then 1 else v
    case None => 1
  }

  /** The requested quantity: `parseInt(req.body.quantity) || 1`, with the radix omitted. */
  function RequestedQuantity(field: string): (q: int)
    ensures q != 0
    ensures ParseInt(field, 0).Some? && ParseInt(field, 0).value != 0 ==> q == ParseInt(field, 0).value
    ensures ParseInt(field, 0).None? || ParseInt(field, 0).value == 0 ==> q == 1
  {
    OrOne(ParseInt(field, 0))
  }

  /** A decimal quantity, possibly followed by text, is taken as written, except that 0 becomes 1. */
  lemma RequestedQuantityOfDecimal(i: int, rest: string)
    requires EndsDecimal(rest, 0)
    ensures RequestedQuantity(IntToString(i) + rest) == if i == 0 then 1 else i
  {
    ParseIntOfDecimal(i, rest, 0);
  }

  /** A field without a number is 1; and with the radix omitted, "0x1A" is twenty-six. */
  lemma RequestedQuantityWithoutNumber(s: string)
    requires |s| == 0 || (!IsStrWhiteSpace(s[0]) && !IsDecimalDigit(s[0]) && s[0] != '-' && s[0] != '+')
    ensures RequestedQuantity(s) == 1
    ensures RequestedQuantity("0x1A") == 26
  {
    ParseIntNoDigits(s, 0);
    HexPrefixOnlyWithoutRadix();
  }

  predicate DistinctIds(cart: seq<CartItem>) {
    forall i, j :: 0 <= i < j < |cart| ==> cart[i].id != cart[j].id
  }

  /** `cart.findIndex(item => item.id === id)`: the first entry with that id, or -1. */
  function IndexOf(cart: seq<CartItem>, id: string): (r: int)
    ensures -1 <= r < |cart|
    ensures r >= 0 ==> cart[r].id == id && forall j :: 0 <= j < r ==> cart[j].id != id
    ensures r == -1 <==> forall j :: 0 <= j < |cart| ==> cart[j].id != id
  {
    match FirstWhere(cart, (item: CartItem) => item.id == id)
    case None => -1
    case Some(i) => i
  }

  /** Add `quantity` of product `p` under `id`: grow the existing entry, or append a new one. */
  function CartAdd(cart: seq<CartItem>, id: string, p: Product, quantity: int): (r: seq<CartItem>)
    ensures IndexOf(cart, id) >= 0 ==>
      var i := IndexOf(cart, id);
      && |r| == |cart|
      && r[i] == cart[i].(quantity := cart[i].quantity + quantity)
      && forall j :: 0 <= j < |cart| && j != i ==> r[j] == cart[j]
    ensures IndexOf(cart, id) == -1 ==> r == cart + [CartItem(id, p.name, p.price, quantity)]
  {
    var i := IndexOf(cart, id);
    if i >= 0 then cart[i := cart[i].(quantity := cart[i].quantity + quantity)]
    else
      var r := cart + [CartItem(id, p.name, p.price, quantity)];
      assert r[|cart|].id == id;
      r
  }

  /** Adding never makes two entries with the same id. */
  lemma CartAddKeepsIdsDistinct(cart: seq<CartItem>, id: string, p: Product, quantity: int)
    requires DistinctIds(cart)
    ensures DistinctIds(CartAdd(cart, id, p, quantity))
  {
    var r := CartAdd(cart, id, p, quantity);
    if IndexOf(cart, id) == -1 {
      assert forall j :: 0 <= j < |cart| ==> r[j] == cart[j] && cart[j].id != id;
    }
  }

  datatype AddOutcome = ProductMissing | Added

  /** The product a path id selects, if any. */
  function Lookup(products: map<int, Product>, id: string): (r: Option<Product>)
    ensures r.Some? <==> PathId(id).Some? && PathId(id).value in products
    ensures r.Some? ==> r.value == products[PathId(id).value]
  {
    var key := PathId(id);
    if key.Some? && key.value in products then Some(products[key.value]) else None
  }

  /**
   * The handler as one step on the session's cart (`None` until the first successful add): a
   * missing product leaves the cart as it was; otherwise the cart is created if need be and
   * the product added with `quantity`, the form field read by `RequestedQuantity`.
   */
  function AddToCartStep(cart: Option<seq<CartItem>>, products: map<int, Product>, id: string, quantity: int)
    : (r: (Option<seq<CartItem>>, AddOutcome))
    ensures r.1 == ProductMissing <==> Lookup(products, id).None?
    ensures r.1 == ProductMissing ==> r.0 == cart
    ensures r.1 == Added ==> r.0.Some? && r.0.value == CartAdd(if cart.Some? then cart.value else [], id, Lookup(products, id).value, quantity)
  {
    match Lookup(products, id)
    case None => (cart, ProductMissing)
    case Some(p) => (Some(CartAdd(if cart.Some? then cart.value else [], id, p, quantity)), Added)
  }

  /** `findIndex` as the loop it runs. */
  method FindIndex(cart: seq<CartItem>, id: string) returns (i: int)
    ensures i == IndexOf(cart, id)
  {
    var k := 0;
    while k < |cart|
      invariant 0 <= k <= |cart|
      invariant forall j :: 0 <= j < k ==> cart[j].id != id
    {
      if cart[k].id == id {
        return k;
      }
      k := k + 1;
    }
    return -1;
  }

  /** The session, whose `cart` the handler creates and changes in place. */
  class Session {
    var cart: Option<seq<CartItem>>

    constructor ()
      ensures cart == None
    {
      cart := None;
    }

    /** The handler: read the quantity field, then add. */
    method AddToCart(products: map<int, Product>, id: string, field: string) returns (r: AddOutcome)
      modifies this
      ensures (cart, r) == AddToCartStep(old(cart), products, id, RequestedQuantity(field))
    {
      var quantity := RequestedQuantity(field);
      r := AddQuantity(products, id, quantity);
    }

    /** Look the product up, create the cart if need be, and grow or append its entry. */
    method AddQuantity(products: map<int, Product>, id: string, quantity: int) returns (r: AddOutcome)
      modifies this
      ensures (cart, r) == AddToCartStep(old(cart), products, id, quantity)
    {
      var product := Lookup(products, id);
      if product.None? {
        return ProductMissing;
      }
      if cart.None? {
        cart := Some([]);
      }
      var items := cart.value;
      var i := FindIndex(items, id);
      if i != -1 {
        var item := items[i];
        cart := Some(items[i := item.(quantity := item.quantity + quantity)]);
      } else {
        cart := Some(items + [CartItem(id, product.value.name, product.value.price, quantity)]);
      }
      return Added;
    }
  }

  /**
   * Two adds under the same id amount to one add of the summed quantity; the entry keeps the
   * name and price of the first add even when the product has changed in between.
   */
  lemma CartAddAccumulates(cart: seq<CartItem>, id: string, p1: Product, p2: Product, q1: int, q2: int)
    ensures CartAdd(CartAdd(cart, id, p1, q1), id, p2, q2) == CartAdd(cart, id, p1, q1 + q2)
  {
    IndexOfAfterAdd(cart, id, p1, q1);
    if IndexOf(cart, id) >= 0 {
      AccumulateExisting(cart, id, p1, p2, q1, q2);
    } else {
      AccumulateNew(cart, id, p1, p2, q1, q2);
    }
  }

  lemma AccumulateExisting(cart: seq<CartItem>, id: string, p1: Product, p2: Product, q1: int, q2: int)
    requires IndexOf(cart, id) >= 0
    requires IndexOf(CartAdd(cart, id, p1, q1), id) == IndexOf(cart, id)
    ensures CartAdd(CartAdd(cart, id, p1, q1), id, p2, q2) == CartAdd(cart, id, p1, q1 + q2)
  {
    var i := IndexOf(cart, id);
    var c := cart[i];
    var once := cart[i := c.(quantity := c.quantity + q1)];
    var both := c.(quantity := c.quantity + (q1 + q2));
    assert CartAdd(cart, id, p1, q1) == once;
    assert CartAdd(cart, id, p1, q1 + q2) == cart[i := both];
    assert once[i := both] == cart[i := both];
    assert CartAdd(once, id, p2, q2) == once[i := both];
  }

  lemma AccumulateNew(cart: seq<CartItem>, id: string, p1: Product, p2: Product, q1: int, q2: int)
    requires IndexOf(cart, id) == -1
    requires IndexOf(CartAdd(cart, id, p1, q1), id) == |cart|
    ensures CartAdd(CartAdd(cart, id, p1, q1), id, p2, q2) == CartAdd(cart, id, p1, q1 + q2)
  {
    var e := CartItem(id, p1.name, p1.price, q1);
    var once := cart + [e];
    assert CartAdd(cart, id, p1, q1) == once;
    assert CartAdd(once, id, p2, q2) == once[|cart| := e.(quantity := q1 + q2)];
    assert once[|cart| := e.(quantity := q1 + q2)] == cart + [e.(quantity := q1 + q2)];
  }

  /** After an add, the id is found where it was, or at the new last entry. */
  lemma IndexOfAfterAdd(cart: seq<CartItem>, id: string, p: Product, quantity: int)
    ensures IndexOf(CartAdd(cart, id, p, quantity), id) == if IndexOf(cart, id) >= 0 then IndexOf(cart, id) else |cart|
  {
    var r := CartAdd(cart, id, p, quantity);
    var i := IndexOf(cart, id);
    if i >= 0 {
      assert r[i].id == id;
      assert forall j :: 0 <= j < i ==> r[j] == cart[j];
    } else {
      assert r[|cart|].id == id;
      assert forall j :: 0 <= j < |cart| ==> r[j] == cart[j];
    }
  }

  /**
   * Entries are keyed by the path string, while the product is selected by its number: "5"
   * and "05" add the same product as two separate entries.
   */
  lemma SameProductTwoEntries(products: map<int, Product>, n: nat, quantity: int)
    requires n in products
    ensures var id1 := NatToString(n);
      var id2 := "0" + id1;
      var r1 := AddToCartStep(None, products, id1, quantity);
      var r2 := AddToCartStep(r1.0, products, id2, quantity);
      && r2.1 == Added && r2.0.Some? && |r2.0.value| == 2
      && r2.0.value[0].id == id1 && r2.0.value[1].id == id2
      && r2.0.value[0].name == r2.0.value[1].name == products[n].name
  {
    var id1 := NatToString(n);
    var id2 := "0" + id1;
    var p := products[n];
    PathIdOfId(n);
    assert Lookup(products, id1) == Some(p);
    assert Lookup(products, id2) == Some(p);
    var first := [CartItem(id1, p.name, p.price, quantity)];
    assert CartAdd([], id1, p, quantity) == first;
    assert AddToCartStep(None, products, id1, quantity) == (Some(first), Added);
    assert |id1| != |id2|;
    assert IndexOf(first, id2) == -1;
    assert CartAdd(first, id2, p, quantity) == first + [CartItem(id2, p.name, p.price, quantity)];
  }
}

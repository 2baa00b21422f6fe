/**
 * The `products` and `purchases` tables as the product handlers of src/routes/products.js
 * change them: buying (`POST /shop/:id`), cancelling a purchase, editing and deleting a
 * product, and the role filter of the purchases page. Each handler is one step.
 */
module ProductShop {
  import opened JsValues
  import opened Schema
  import ProductCart

  /** The two tables and the next auto-increment id of `purchases`. */
  datatype Shop = Shop(products: map<int, Product>, purchases: map<int, Purchase>, nextPurchaseId: int)

  predicate Valid(s: Shop) {
    && s.nextPurchaseId >= 1
    && forall k :: k in s.purchases ==> 1 <= k < s.nextPurchaseId
  }

  /** `parseInt(req.body.quantity, 10) || 1`: unlike the cart, radix 10 is explicit. */
  function PurchaseQuantity(field: string): (q: int)
    ensures q != 0
    ensures ParseInt(field, 10).Some? && ParseInt(field, 10).value != 0 ==> q == ParseInt(field, 10).value
    ensures ParseInt(field, 10).None? || ParseInt(field, 10).value == 0 ==> q == 1
  {
    ProductCart.OrOne(ParseInt(field, 10))
  }

  /** The URL the JSON answer gives for the invoice of a purchase. */
  function InvoiceUrl(purchaseId: nat): (url: string)
    ensures |url| >= 23 && url[..18] == "/invoices/factura-" && url[|url| - 4..] == ".pdf"
    ensures url[18..|url| - 4] == NatToString(purchaseId)
  {
    "/invoices/factura-" + NatToString(purchaseId) + ".pdf"
  }

  /**
   * What the buyer gets: the purchase id, the product, the quantity and the total printed on
   * the invoice, and its URL. `BuyFailed` is the error the INSERT throws.
   */
  datatype BuyOutcome =
    | BuyProductMissing
    | BuyFailed
    | Invoice(purchaseId: int, productName: string, quantity: int, total: real, pdfUrl: string)

  /** The invoice of `quantity` items of `p`: the total is the unit price times the quantity. */
  function InvoiceFor(purchaseId: nat, p: Product, quantity: int): (r: BuyOutcome)
  {
    Invoice(purchaseId, p.name, quantity, p.price * quantity as real, InvoiceUrl(purchaseId))
  }

  /** The products table after taking `quantity` from the stock of product `k`. */
  function Decremented(s: Shop, k: int, quantity: int): (r: Shop)
    requires Valid(s) && k in s.products
    ensures Valid(r) && r.purchases == s.purchases && r.nextPurchaseId == s.nextPurchaseId
    ensures r.products == s.products[k := s.products[k].(stock := s.products[k].stock - quantity)]
  {
    s.(products := s.products[k := s.products[k].(stock := s.products[k].stock - quantity)])
  }

  /** The purchases table after inserting `purchase` under the next id. */
  function Recorded(s: Shop, purchase: Purchase): (r: Shop)
    requires Valid(s)
    ensures Valid(r) && r.products == s.products && r.nextPurchaseId == s.nextPurchaseId + 1
    ensures s.nextPurchaseId !in s.purchases && r.purchases == s.purchases[s.nextPurchaseId := purchase]
  {
    s.(purchases := s.purchases[s.nextPurchaseId := purchase], nextPurchaseId := s.nextPurchaseId + 1)
  }

  /**
   * `POST /shop/:id`: decrement the stock by the quantity, with no check against the stock
   * there is, then insert the purchase. The two statements are separate: an INSERT that fails
   * leaves the stock decremented. `quantity` is the form field read by `PurchaseQuantity`.
   */
  function BuyStep(s: Shop, id: string, quantity: int, clientId: int, paymentMethod: string, insertFails: bool)
    : (r: (Shop, BuyOutcome))
    requires Valid(s)
    ensures Valid(r.0)
    ensures r.1 == BuyProductMissing <==> ProductCart.Lookup(s.products, id).None?
    ensures r.1 == BuyProductMissing ==> r.0 == s
    ensures r.1 != BuyProductMissing ==>
      var k := PathId(id).value;
      var p := s.products[k];
      && r.0.products == s.products[k := p.(stock := p.stock - quantity)]
      && (insertFails <==> r.1 == BuyFailed)
      && (insertFails ==> r.0.purchases == s.purchases && r.0.nextPurchaseId == s.nextPurchaseId)
      && (!insertFails ==>
            && s.nextPurchaseId !in s.purchases
            && r.0.purchases == s.purchases[s.nextPurchaseId := Purchase(k, clientId, p.barberId, quantity, paymentMethod)]
            && r.0.nextPurchaseId == s.nextPurchaseId + 1
            && r.1 == InvoiceFor(s.nextPurchaseId, p, quantity))
  {
    var product := ProductCart.Lookup(s.products, id);
    if product.None? then (s, BuyProductMissing)
    else
      var k := PathId(id).value;
      var p := product.value;
      var decremented := Decremented(s, k, quantity);
      if insertFails then (decremented, BuyFailed)
      else (Recorded(decremented, Purchase(k, clientId, p.barberId, quantity, paymentMethod)), InvoiceFor(s.nextPurchaseId, p, quantity))
  }

  /** `CancelFailed` is the error the DELETE throws, which the handler catches. */
  datatype CancelOutcome = Cancelled | PurchaseMissing | CancelFailed

  /** The products table after giving `quantity` back to product `k`, when it still exists. */
  function Restocked(products: map<int, Product>, k: int, quantity: int): (r: map<int, Product>)
    ensures r.Keys == products.Keys
    ensures forall j :: j in products && j != k ==> r[j] == products[j]
    ensures k in products ==> r[k] == products[k].(stock := products[k].stock + quantity)
  {
    if k in products then products[k := products[k].(stock := products[k].stock + quantity)] else products
  }

  /**
   * `GET /delete-purchase/:id`: give the recorded quantity back to the product, if it still
   * exists, and delete that one purchase. A missing purchase changes nothing. The two
   * statements are separate: a DELETE that fails (`deleteFails`) leaves the stock restored
   * and the purchase in place.
   */
  function CancelStep(s: Shop, id: string, deleteFails: bool): (r: (Shop, CancelOutcome))
    requires Valid(s)
    ensures Valid(r.0)
    ensures r.1 == PurchaseMissing <==> PathId(id).None? || PathId(id).value !in s.purchases
    ensures r.1 == PurchaseMissing ==> r.0 == s
    ensures r.1 != PurchaseMissing ==>
      var k := PathId(id).value;
      var pu := s.purchases[k];
      && (deleteFails <==> r.1 == CancelFailed)
      && r.0.purchases == (if deleteFails then s.purchases else s.purchases - {k})
      && r.0.nextPurchaseId == s.nextPurchaseId
      && r.0.products.Keys == s.products.Keys
      && (forall j :: j in s.products && j != pu.productId ==> r.0.products[j] == s.products[j])
      && (pu.productId in s.products ==>
            r.0.products[pu.productId] == s.products[pu.productId].(stock := s.products[pu.productId].stock + pu.quantity))
  {
    var key := PathId(id);
    if key.None? || key.value !in s.purchases then (s, PurchaseMissing)
    else
      var pu := s.purchases[key.value];
      var restocked := s.(products := Restocked(s.products, pu.productId, pu.quantity));
      if deleteFails then (restocked, CancelFailed)
      else (restocked.(purchases := s.purchases - {key.value}), Cancelled)
  }

  /** `Edited(unlink)` names the old image file the handler deletes, if any. */
  datatype EditOutcome = EditFailed | Edited(unlink: Option<string>)

  /**
   * `POST /edit/:id`: read the current image (a missing product makes `product[0].image`
   * throw), then set name, price and stock, and the image only when a file was uploaded
   * (`newImage` is "" otherwise). The old image is unlinked when it is replaced.
   */
  function EditStep(s: Shop, id: string, name: string, price: real, stock: int, newImage: string)
    : (r: (Shop, EditOutcome))
    ensures r.1 == EditFailed <==> ProductCart.Lookup(s.products, id).None?
    ensures r.1 == EditFailed ==> r.0 == s
    ensures r.1.Edited? ==>
      var k := PathId(id).value;
      var old_ := s.products[k];
      && r.0 == s.(products := s.products[k := Product(name, price, stock, if newImage != "" then newImage else old_.image, old_.barberId)])
      && (r.1.unlink.Some? <==> newImage != "" && old_.image != "")
      && (r.1.unlink.Some? ==> r.1.unlink.value == old_.image)
  {
    match ProductCart.Lookup(s.products, id)
    case None => (s, EditFailed)
    case Some(current) =>
      var k := PathId(id).value;
      var image := if newImage != "" then newImage else current.image;
      var unlink := if newImage != "" && current.image != "" then Some(current.image) else None;
      (s.(products := s.products[k := Product(name, price, stock, image, current.barberId)]), Edited(unlink))
  }

  /** `GET /delete/:id`: delete the product; its purchases stay in their table. */
  function DeleteStep(s: Shop, id: string): (r: Shop)
    requires Valid(s)
    ensures Valid(r)
    ensures r.purchases == s.purchases && r.nextPurchaseId == s.nextPurchaseId
    ensures PathId(id).Some? ==> r.products == s.products - {PathId(id).value}
    ensures PathId(id).None? ==> r == s
  {
    match PathId(id)
    case None => s
    case Some(k) => s.(products := s.products - {k})
  }

  /**
   * The rows of the purchases page: the user's purchases as barber (`barber_id`) or, for any
   * other role, as client (`client_id`), kept only when the product, the client and the barber
   * all join. The rows are identified by purchase id; their `purchase_date` order is not kept.
   */
  function VisiblePurchases(s: Shop, users: seq<User>, user: User): set<int>
  {
    set k | k in s.purchases
      && (if IsBarberRole(user) then s.purchases[k].barberId else s.purchases[k].clientId) == user.id
      && s.purchases[k].productId in s.products
      && UserById(users, s.purchases[k].clientId).Some?
      && UserById(users, s.purchases[k].barberId).Some?
  }

  /** The two tables, changed in place by the handlers. */
  class ShopDb {
    var products: map<int, Product>
    var purchases: map<int, Purchase>
    var nextPurchaseId: int

    function State(): Shop
      reads this
    {
      Shop(products, purchases, nextPurchaseId)
    }

    constructor (initial: map<int, Product>)
      ensures State() == Shop(initial, map[], 1) && Valid(State())
    {
      products := initial;
      purchases := map[];
      nextPurchaseId := 1;
    }

    /** The handler: read the quantity field, then buy. */
    method Buy(id: string, field: string, clientId: int, paymentMethod: string, insertFails: bool)
      returns (r: BuyOutcome)
      requires Valid(State())
      modifies this
      ensures Valid(State())
      ensures (State(), r) == BuyStep(old(State()), id, PurchaseQuantity(field), clientId, paymentMethod, insertFails)
    {
      var quantity := PurchaseQuantity(field);
      r := BuyQuantity(id, quantity, clientId, paymentMethod, insertFails);
    }

    /** Look the product up, decrement its stock, then insert the purchase. */
    method BuyQuantity(id: string, quantity: int, clientId: int, paymentMethod: string, insertFails: bool)
      returns (r: BuyOutcome)
      requires Valid(State())
      modifies this
      ensures Valid(State())
      ensures (State(), r) == BuyStep(old(State()), id, quantity, clientId, paymentMethod, insertFails)
    {
      var product := ProductCart.Lookup(products, id);
      if product.None? {
        return BuyProductMissing;
      }
      var k := PathId(id).value;
      var p := product.value;
      products := products[k := p.(stock := p.stock - quantity)];
      if insertFails {
        return BuyFailed;
      }
      var purchaseId := nextPurchaseId;
      purchases := purchases[purchaseId := Purchase(k, clientId, p.barberId, quantity, paymentMethod)];
      nextPurchaseId := nextPurchaseId + 1;
      r := InvoiceFor(purchaseId, p, quantity);
    }

    /** Restock from the purchase, then delete it. */
    method CancelPurchase(id: string, deleteFails: bool) returns (r: CancelOutcome)
      requires Valid(State())
      modifies this
      ensures Valid(State())
      ensures (State(), r) == CancelStep(old(State()), id, deleteFails)
    {
      var key := PathId(id);
      if key.None? || key.value !in purchases {
        return PurchaseMissing;
      }
      var pu := purchases[key.value];
      if pu.productId in products {
        var p := products[pu.productId];
        products := products[pu.productId := p.(stock := p.stock + pu.quantity)];
      }
      if deleteFails {
        return CancelFailed;
      }
      purchases := purchases - {key.value};
      r := Cancelled;
    }

    /** Read the current image, update the row, and report the file to unlink. */
    method EditProduct(id: string, name: string, price: real, stock: int, newImage: string)
      returns (r: EditOutcome)
      modifies this
      ensures (State(), r) == EditStep(old(State()), id, name, price, stock, newImage)
    {
      var product := ProductCart.Lookup(products, id);
      if product.None? {
        return EditFailed;
      }
      var k := PathId(id).value;
      var current := product.value;
      if newImage != "" {
        products := products[k := Product(name, price, stock, newImage, current.barberId)];
      } else {
        products := products[k := current.(name := name, price := price, stock := stock)];
      }
      if newImage != "" && current.image != "" {
        r := Edited(Some(current.image));
      } else {
        r := Edited(None);
      }
    }

    method DeleteProduct(id: string)
      requires Valid(State())
      modifies this
      ensures Valid(State())
      ensures State() == DeleteStep(old(State()), id)
    {
      var key := PathId(id);
      if key.Some? {
        products := products - {key.value};
      }
    }
  }

  // -----------------------------------------------------------------------------------------
  // What the handlers promise together
  // -----------------------------------------------------------------------------------------

  /**
   * Cancelling a purchase right after it was made, through the id in its invoice, restores
   * the products and the purchases; only the auto-increment counter has moved on.
   */
  lemma BuyThenCancelRestores(s: Shop, id: string, quantity: int, clientId: int, paymentMethod: string)
    requires Valid(s)
    requires BuyStep(s, id, quantity, clientId, paymentMethod, false).1.Invoice?
    ensures var bought := BuyStep(s, id, quantity, clientId, paymentMethod, false);
      CancelStep(bought.0, NatToString(bought.1.purchaseId), false) == (s.(nextPurchaseId := s.nextPurchaseId + 1), Cancelled)
  {
    var bought := BuyStep(s, id, quantity, clientId, paymentMethod, false);
    var pid := s.nextPurchaseId;
    PathIdOfId(pid);
    var k := PathId(id).value;
    var p := s.products[k];
    var q := quantity;
    assert bought.0.purchases[pid].productId == k;
    var restocked := CancelStep(bought.0, NatToString(pid), false).0;
    assert restocked.products == s.products by {
      assert p.(stock := p.stock - q).(stock := p.stock - q + q) == p;
      assert s.products[k := p.(stock := p.stock - q)][k := p] == s.products;
    }
    assert restocked.purchases == s.purchases by {
      assert s.purchases[pid := bought.0.purchases[pid]] - {pid} == s.purchases;
    }
  }

  /**
   * A cancel whose DELETE fails has already restocked, and the purchase is still there: a
   * second cancel gives its quantity back a second time.
   */
  lemma FailedCancelRestocksTwice(s: Shop, k: nat)
    requires Valid(s) && k in s.purchases && s.purchases[k].productId in s.products
    ensures var first := CancelStep(s, NatToString(k), true);
      var second := CancelStep(first.0, NatToString(k), false);
      var pu := s.purchases[k];
      && first.1 == CancelFailed && first.0.purchases == s.purchases
      && second.1 == Cancelled && second.0.purchases == s.purchases - {k}
      && second.0.products[pu.productId].stock == s.products[pu.productId].stock + 2 * pu.quantity
  {
    PathIdOfId(k);
    var first := CancelStep(s, NatToString(k), true);
    var pu := s.purchases[k];
    assert first.0.purchases[k] == pu;
    assert first.0.products[pu.productId].stock == s.products[pu.productId].stock + pu.quantity;
  }

  /** A decimal quantity, possibly followed by text, is taken as written, except that 0 becomes 1. */
  lemma PurchaseQuantityOfDecimal(i: int, rest: string)
    requires EndsDecimal(rest, 10)
    ensures PurchaseQuantity(IntToString(i) + rest) == if i == 0 then 1 else i
  {
    ParseIntOfDecimal(i, rest, 10);
  }

  /** The cart reads the quantity "0x1A" as 26 items; the checkout, with radix 10, as 1. */
  lemma CartAndCheckoutReadQuantitiesDifferently()
    ensures ProductCart.RequestedQuantity("0x1A") == 26
    ensures PurchaseQuantity("0x1A") == 1
  {
    HexPrefixOnlyWithoutRadix();
  }

  /**
   * Nothing stops a purchase of more than the stock: buying `n` items of a product with stock
   * `stock` leaves `stock - n`, negative when `n > stock`.
   */
  lemma BuyHasNoStockCheck(s: Shop, k: nat, n: int, clientId: int, paymentMethod: string)
    requires Valid(s) && k in s.products && n != 0
    ensures var r := BuyStep(s, NatToString(k), PurchaseQuantity(IntToString(n)), clientId, paymentMethod, false);
      && r.1.Invoice? && r.1.quantity == n
      && r.0.products[k].stock == s.products[k].stock - n
      && (n > s.products[k].stock ==> r.0.products[k].stock < 0)
  {
    PathIdOfId(k);
    PurchaseQuantityOfDecimal(n, "");
    assert IntToString(n) + "" == IntToString(n);
    assert ProductCart.Lookup(s.products, NatToString(k)) == Some(s.products[k]);
  }

  /**
   * The buyer, as a client, and the product's barber, as a barber, both find the new purchase
   * on their purchases page, provided both users exist.
   */
  lemma BuyerAndBarberSeePurchase(s: Shop, id: string, quantity: int, paymentMethod: string,
                                  users: seq<User>, client: User, barber: User)
    requires Valid(s)
    requires !IsBarberRole(client) && IsBarberRole(barber)
    requires UserById(users, client.id).Some? && UserById(users, barber.id).Some?
    requires BuyStep(s, id, quantity, client.id, paymentMethod, false).1.Invoice?
    requires s.products[PathId(id).value].barberId == barber.id
    ensures var r := BuyStep(s, id, quantity, client.id, paymentMethod, false);
      && r.1.purchaseId in VisiblePurchases(r.0, users, client)
      && r.1.purchaseId in VisiblePurchases(r.0, users, barber)
  {
  }

  /** Deleting a product keeps its purchases in the table but hides them from every page. */
  lemma DeletedProductHidesPurchases(s: Shop, k: nat, users: seq<User>, user: User)
    requires Valid(s)
    ensures var r := DeleteStep(s, NatToString(k));
      && r.purchases == s.purchases
      && forall j :: j in VisiblePurchases(r, users, user) ==> r.purchases[j].productId != k
  {
    PathIdOfId(k);
  }
}

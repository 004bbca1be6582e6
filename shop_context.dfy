/**
 * The client's cart state (`ShopContextProvider`). Each edit builds a new
 * cart from the current one and installs it with `setCartItems`; the
 * model gives carts value semantics, so the inner size maps that the
 * source's shallow copy shares with the previous state are not aliased
 * here. The axios call that follows an edit is returned as the request
 * the client would send, and toasts become the `Notice` it shows.
 */
module ShopContext {
  import opened Wrappers
  import opened CartMap

  /** Delivery is charged in cents: a fee of 10 and a threshold of 100 in the shop's currency. */
  const CentsPerUnit := 100
  const DeliveryFee := 10 * CentsPerUnit
  const FreeDeliveryAbove := 100 * CentsPerUnit

  /** The request body an edit posts to the server's cart routes. */
  datatype CartRequest =
    | AddRequest(itemId: ProductId, size: Size)
    | UpdateRequest(itemId: ProductId, size: Size, quantity: int)
    | ClearRequest

  /** What follows an edit: a toast, nothing, or a server request with the stored token. */
  datatype Notice =
    | SelectSizeFirst
    | MustLogIn
    | LocalOnly
    | Send(request: CartRequest)

  /** The notice for an edit whose local part is done: send when a token is held. */
  function SyncOr(token: string, request: CartRequest, otherwise: Notice): (n: Notice)
    requires !otherwise.Send?
    ensures n.Send? <==> token != ""
    ensures n.Send? ==> n.request == request
    ensures !n.Send? ==> n == otherwise
  {
    if token == "" then otherwise else Send(request)
  }

  /**
   * `getTotalWithDelivery`'s rule: the fee is waived only when the subtotal
   * is strictly above the threshold.
   */
  function TotalWithDelivery(subtotal: int): (total: int)
    ensures total == subtotal || total == subtotal + DeliveryFee
    ensures total == subtotal <==> subtotal > FreeDeliveryAbove
  {
    if subtotal > FreeDeliveryAbove then subtotal else subtotal + DeliveryFee
  }

  /** A subtotal of exactly the threshold still pays the fee. */
  lemma FeeChargedAtThreshold()
    ensures TotalWithDelivery(FreeDeliveryAbove) == FreeDeliveryAbove + DeliveryFee
  {
  }

  /**
   * Crossing the threshold lowers the total: one cent more in the cart
   * costs the fee less at checkout.
   */
  lemma CrossingThresholdLowersTotal()
    ensures TotalWithDelivery(FreeDeliveryAbove + 1) < TotalWithDelivery(FreeDeliveryAbove)
  {
  }

  class Shop {
    var cartItems: Cart
    var products: seq<Product>
    var token: string

    /** The provider's initial state: empty cart, no products loaded, no token. */
    constructor ()
      ensures cartItems == map[] && products == [] && token == ""
    {
      cartItems := map[];
      products := [];
      token := "";
    }

    /**
     * `addToCart`: without a size nothing happens; otherwise the local cart
     * gains one unit even when no token is held, and the add is sent only
     * with a token.
     */
    method AddToCart(itemId: ProductId, size: Size) returns (notice: Notice)
      modifies this`cartItems
      ensures size == "" ==> notice == SelectSizeFirst && cartItems == old(cartItems)
      ensures size != "" ==> cartItems == Increment(old(cartItems), itemId, size)
      ensures size != "" ==> notice == SyncOr(token, AddRequest(itemId, size), MustLogIn)
    {
      if size == "" {
        return SelectSizeFirst;
      }
      var updatedCart := cartItems;
      if itemId in updatedCart {
        var count := if size in updatedCart[itemId] then updatedCart[itemId][size] else 0;
        updatedCart := updatedCart[itemId := updatedCart[itemId][size := count + 1]];
      } else {
        updatedCart := updatedCart[itemId := map[size := 1]];
      }
      assert updatedCart == Increment(cartItems, itemId, size);
      cartItems := updatedCart;
      if token == "" {
        return MustLogIn;
      }
      notice := Send(AddRequest(itemId, size));
    }

    /** `updateQuantity`: stores the quantity as given; 0 is stored, not removed. */
    method UpdateQuantity(itemId: ProductId, size: Size, quantity: int) returns (notice: Notice)
      modifies this`cartItems
      ensures cartItems == SetQuantity(old(cartItems), itemId, size, quantity)
      ensures notice == SyncOr(token, UpdateRequest(itemId, size, quantity), LocalOnly)
    {
      var updatedCart := cartItems;
      if itemId !in updatedCart {
        updatedCart := updatedCart[itemId := map[]];
      }
      assert updatedCart[itemId] == Sizes(cartItems, itemId);
      updatedCart := updatedCart[itemId := updatedCart[itemId][size := quantity]];
      cartItems := updatedCart;
      if token == "" {
        return LocalOnly;
      }
      notice := Send(UpdateRequest(itemId, size, quantity));
    }

    /**
     * `removeFromCart`: only an entry that is present with a non-zero
     * count is deleted (and its product when no size is left); the server
     * is told quantity 0 whenever a token is held, changed or not.
     */
    method RemoveFromCart(itemId: ProductId, size: Size) returns (notice: Notice)
      modifies this`cartItems
      ensures Quantity(old(cartItems), itemId, size) != 0 ==> cartItems == RemoveSize(old(cartItems), itemId, size)
      ensures Quantity(old(cartItems), itemId, size) == 0 ==> cartItems == old(cartItems)
      ensures notice == SyncOr(token, UpdateRequest(itemId, size, 0), LocalOnly)
    {
      var updatedCart := cartItems;
      if itemId in updatedCart && size in updatedCart[itemId] && updatedCart[itemId][size] != 0 {
        updatedCart := updatedCart[itemId := updatedCart[itemId] - {size}];
        if updatedCart[itemId] == map[] {
          updatedCart := updatedCart - {itemId};
        }
        assert updatedCart == RemoveSize(cartItems, itemId, size);
        cartItems := updatedCart;
      }
      if token == "" {
        return LocalOnly;
      }
      notice := Send(UpdateRequest(itemId, size, 0));
    }

    /** `clearCart`: the local cart is emptied; the server is told when a token is held. */
    method ClearCart() returns (notice: Notice)
      modifies this`cartItems
      ensures cartItems == map[]
      ensures notice == SyncOr(token, ClearRequest, LocalOnly)
    {
      cartItems := map[];
      if token == "" {
        return LocalOnly;
      }
      notice := Send(ClearRequest);
    }

    /** `logout`: the token is dropped and the local cart emptied. */
    method Logout()
      modifies this`cartItems, this`token
      ensures cartItems == map[] && token == ""
    {
      token := "";
      cartItems := map[];
    }

    /** `getCartCount`: every stored count, summed. */
    method GetCartCount() returns (totalCount: int)
      ensures totalCount == TotalCount(cartItems)
    {
      totalCount := 0;
      var items := cartItems;
      while items != map[]
        invariant totalCount + TotalCount(items) == TotalCount(cartItems)
        decreases |items|
      {
        var itemId :| itemId in items;
        TotalCountRemoveItem(items, itemId);
        var sizes := items[itemId];
        ghost var lineTotal := totalCount + SumValues(sizes);
        while sizes != map[]
          invariant totalCount + SumValues(sizes) == lineTotal
          decreases |sizes|
        {
          var size :| size in sizes;
          SumValuesRemove(sizes, size);
          totalCount := totalCount + sizes[size];
          sizes := sizes - {size};
        }
        items := items - {itemId};
      }
    }

    /**
     * `getCartAmount`: price times count over every entry whose product the
     * catalogue lists; entries of unknown products are skipped.
     */
    method GetCartAmount() returns (totalAmount: int)
      ensures totalAmount == Amount(cartItems, products)
    {
      totalAmount := 0;
      var items := cartItems;
      while items != map[]
        invariant totalAmount + Amount(items, products) == Amount(cartItems, products)
        decreases |items|
      {
        var productId :| productId in items;
        AmountRemoveItem(items, products, productId);
        var product := FindProduct(products, productId);
        assert product.None? ==> PriceOf(products, productId) == 0;
        if product.Some? {
          var price := product.value.price;
          assert price == PriceOf(products, productId);
          var sizes := items[productId];
          ghost var lineTotal := totalAmount + price * SumValues(sizes);
          while sizes != map[]
            invariant totalAmount + price * SumValues(sizes) == lineTotal
            decreases |sizes|
          {
            var size :| size in sizes;
            LineAmountStep(price, sizes, size);
            totalAmount := totalAmount + price * sizes[size];
            sizes := sizes - {size};
          }
        }
        items := items - {productId};
      }
    }

    /** `getTotalWithDelivery`: the subtotal with the delivery rule applied. */
    method GetTotalWithDelivery() returns (total: int)
      ensures total == TotalWithDelivery(Amount(cartItems, products))
    {
      var subtotal := GetCartAmount();
      total := TotalWithDelivery(subtotal);
    }
  }

  /** Taking one entry out of a line moves its price times count into the running total. */
  lemma LineAmountStep(price: int, sizes: map<Size, int>, size: Size)
    requires size in sizes
    ensures price * SumValues(sizes) == price * sizes[size] + price * SumValues(sizes - {size})
  {
    SumValuesRemove(sizes, size);
    MulAdd(price, sizes[size], SumValues(sizes - {size}));
  }

  lemma MulAdd(p: int, a: int, b: int)
    ensures p * (a + b) == p * a + p * b
  {
  }

  /**
   * Where client and server part ways on removal: an entry held at count 0
   * stays in the client's cart, while the update to 0 it sends deletes the
   * entry on the server.
   */
  lemma RemoveZeroEntryDiverges(c: Cart, itemId: ProductId, size: Size)
    requires Has(c, itemId, size) && Quantity(c, itemId, size) == 0
    ensures RemoveSize(c, itemId, size) != c
  {
    assert Has(c, itemId, size) && !Has(RemoveSize(c, itemId, size), itemId, size);
  }

  /**
   * Where they differ: `updateQuantity(…, 0)` keeps a zero entry that the
   * server's update to 0 deletes, yet both carts count the same units.
   */
  lemma ZeroQuantityDiffersButCountsAlike(c: Cart, itemId: ProductId, size: Size)
    ensures Has(SetQuantity(c, itemId, size, 0), itemId, size)
    ensures !Has(RemoveSize(c, itemId, size), itemId, size)
    ensures TotalCount(SetQuantity(c, itemId, size, 0)) == TotalCount(RemoveSize(c, itemId, size))
  {
    TotalCountSetQuantity(c, itemId, size, 0);
    TotalCountRemoveSize(c, itemId, size);
  }
}

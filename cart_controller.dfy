/**
 * The server's cart handlers. Each reads the user whose id the auth
 * middleware put in `req.body.userId`, edits that user's `cartData` and
 * saves the record. An empty string is a missing (falsy) body field; `None`
 * is an undefined one. `AddToCart` and `UpdateCart` save the edited cart,
 * as the handlers do once the Mixed path is marked modified; the versions
 * as written, whose save writes nothing, follow at the end.
 */
module CartController {
  import opened Wrappers
  import opened Tokens
  import opened Http
  import opened CartMap
  import opened UserModel

  /** `addToCart`: one more unit of (itemId, size) in the user's cart. */
  method AddToCart(store: UserStore, userId: Option<UserId>, itemId: ProductId, size: Size) returns (r: Reply<Cart>)
    requires store.Valid()
    modifies store
    ensures store.Valid() && store.nextId == old(store.nextId)
    ensures itemId == "" || size == "" ==>
              r == Fail(BadRequest, "Missing fields") && store.users == old(store.users)
    ensures itemId != "" && size != "" && old(store.OwnerOf(userId)).None? ==>
              r == Fail(NotFound, "User not found") && store.users == old(store.users)
    ensures itemId != "" && size != "" && old(store.OwnerOf(userId)).Some? ==>
              var e := old(store.OwnerOf(userId)).value;
              var cart := Increment(old(store.users)[e].cartData, itemId, size);
              && store.users == old(store.users)[e := old(store.users)[e].(cartData := cart)]
              && r == Reply(OK, true, Some("Added to cart"), Some(cart))
  {
    if itemId == "" || size == "" {
      return Fail(BadRequest, "Missing fields");
    }
    var owner := store.FindById(userId);
    if owner.None? {
      return Fail(NotFound, "User not found");
    }
    var user := store.users[owner.value];
    var cartData := user.cartData;
    if itemId !in cartData {
      cartData := cartData[itemId := map[]];
    }
    var count := if size in cartData[itemId] then cartData[itemId][size] else 0;
    assert count == Quantity(user.cartData, itemId, size);
    assert cartData[itemId] == Sizes(user.cartData, itemId);
    cartData := cartData[itemId := cartData[itemId][size := count + 1]];
    assert cartData == Increment(user.cartData, itemId, size);
    store.Replace(owner.value, user.(cartData := cartData));
    r := Reply(OK, true, Some("Added to cart"), Some(cartData));
  }

  /**
   * `updateCart`: quantity 0 deletes the entry (and the product once it has
   * no size left); any other quantity is stored as given, with no sign or
   * bound check. An undefined quantity is refused, 0 is not.
   */
  method UpdateCart(store: UserStore, userId: Option<UserId>, itemId: ProductId, size: Size, quantity: Option<int>)
    returns (r: Reply<Cart>)
    requires store.Valid()
    modifies store
    ensures store.Valid() && store.nextId == old(store.nextId)
    ensures userId.None? || itemId == "" || size == "" || quantity.None? ==>
              r == Fail(BadRequest, "Missing fields") && store.users == old(store.users)
    ensures userId.Some? && itemId != "" && size != "" && quantity.Some? && old(store.OwnerOf(userId)).None? ==>
              r == Fail(NotFound, "User not found") && store.users == old(store.users)
    ensures userId.Some? && itemId != "" && size != "" && quantity.Some? && old(store.OwnerOf(userId)).Some? ==>
              var e := old(store.OwnerOf(userId)).value;
              var before := old(store.users)[e].cartData;
              var cart := if quantity.value == 0 then RemoveSize(before, itemId, size)
                          else SetQuantity(before, itemId, size, quantity.value);
              && store.users == old(store.users)[e := old(store.users)[e].(cartData := cart)]
              && r == Reply(OK, true, Some("Cart updated"), Some(cart))
  {
    if userId.None? || itemId == "" || size == "" || quantity.None? {
      return Fail(BadRequest, "Missing fields");
    }
    var owner := store.FindById(userId);
    if owner.None? {
      return Fail(NotFound, "User not found");
    }
    var user := store.users[owner.value];
    var cartData := user.cartData;
    if quantity.value == 0 {
      if itemId in cartData {
        cartData := cartData[itemId := cartData[itemId] - {size}];
      }
      if itemId in cartData && cartData[itemId] == map[] {
        cartData := cartData - {itemId};
      }
      assert cartData == RemoveSize(user.cartData, itemId, size);
    } else {
      if itemId !in cartData {
        cartData := cartData[itemId := map[]];
      }
      assert cartData[itemId] == Sizes(user.cartData, itemId);
      cartData := cartData[itemId := cartData[itemId][size := quantity.value]];
      assert cartData == SetQuantity(user.cartData, itemId, size, quantity.value);
    }
    store.Replace(owner.value, user.(cartData := cartData));
    r := Reply(OK, true, Some("Cart updated"), Some(cartData));
  }

  /** `getUserCart`: the stored cart, read only. */
  method GetUserCart(store: UserStore, userId: Option<UserId>) returns (r: Reply<Cart>)
    requires store.Valid()
    ensures store.OwnerOf(userId).None? ==> r == Fail(NotFound, "User not found")
    ensures store.OwnerOf(userId).Some? ==>
              r == Reply(OK, true, None, Some(store.users[store.OwnerOf(userId).value].cartData))
  {
    var owner := store.FindById(userId);
    if owner.None? {
      return Fail(NotFound, "User not found");
    }
    r := Reply(OK, true, None, Some(store.users[owner.value].cartData));
  }

  /** `clearCart`: the user's cart becomes the empty map. */
  method ClearCart(store: UserStore, userId: Option<UserId>) returns (r: Reply<Cart>)
    requires store.Valid()
    modifies store
    ensures store.Valid() && store.nextId == old(store.nextId)
    ensures old(store.OwnerOf(userId)).None? ==>
              r == Fail(NotFound, "User not found") && store.users == old(store.users)
    ensures old(store.OwnerOf(userId)).Some? ==>
              var e := old(store.OwnerOf(userId)).value;
              && store.users == old(store.users)[e := old(store.users)[e].(cartData := map[])]
              && r == Reply(OK, true, Some("Cart cleared"), None)
  {
    var owner := store.FindById(userId);
    if owner.None? {
      return Fail(NotFound, "User not found");
    }
    var user := store.users[owner.value];
    store.Replace(owner.value, user.(cartData := map[]));
    r := Reply(OK, true, Some("Cart cleared"), None);
  }

  /**
   * `addToCart` as Mongoose runs it. `cartData` is declared `type: Object`,
   * a Mixed path. The handler edits the loaded object in place and assigns
   * that same object back; the assignment compares it with itself, finds no
   * change and leaves the path unmarked, so `save` writes nothing. The reply
   * still shows the edited cart. `AddToCart` above is the handler with the
   * path marked modified, which the rest of the model uses.
   */
  method AddToCartAsWritten(store: UserStore, userId: Option<UserId>, itemId: ProductId, size: Size)
    returns (r: Reply<Cart>)
    requires store.Valid()
    ensures itemId == "" || size == "" ==> r == Fail(BadRequest, "Missing fields")
    ensures itemId != "" && size != "" && store.OwnerOf(userId).None? ==> r == Fail(NotFound, "User not found")
    ensures itemId != "" && size != "" && store.OwnerOf(userId).Some? ==>
              var cart := store.users[store.OwnerOf(userId).value].cartData;
              r == Reply(OK, true, Some("Added to cart"), Some(Increment(cart, itemId, size)))
  {
    if itemId == "" || size == "" {
      return Fail(BadRequest, "Missing fields");
    }
    var owner := store.FindById(userId);
    if owner.None? {
      return Fail(NotFound, "User not found");
    }
    var cartData := Increment(store.users[owner.value].cartData, itemId, size);
    r := Reply(OK, true, Some("Added to cart"), Some(cartData));
  }

  /**
   * `updateCart` as Mongoose runs it: the same in-place edit of the Mixed
   * path and the same unmarked assignment, so the reply shows the new cart
   * and the stored one stays as it was.
   */
  method UpdateCartAsWritten(store: UserStore, userId: Option<UserId>, itemId: ProductId, size: Size, quantity: Option<int>)
    returns (r: Reply<Cart>)
    requires store.Valid()
    ensures userId.None? || itemId == "" || size == "" || quantity.None? ==> r == Fail(BadRequest, "Missing fields")
    ensures userId.Some? && itemId != "" && size != "" && quantity.Some? && store.OwnerOf(userId).None? ==>
              r == Fail(NotFound, "User not found")
    ensures userId.Some? && itemId != "" && size != "" && quantity.Some? && store.OwnerOf(userId).Some? ==>
              var before := store.users[store.OwnerOf(userId).value].cartData;
              var cart := if quantity.value == 0 then RemoveSize(before, itemId, size)
                          else SetQuantity(before, itemId, size, quantity.value);
              r == Reply(OK, true, Some("Cart updated"), Some(cart))
  {
    if userId.None? || itemId == "" || size == "" || quantity.None? {
      return Fail(BadRequest, "Missing fields");
    }
    var owner := store.FindById(userId);
    if owner.None? {
      return Fail(NotFound, "User not found");
    }
    var before := store.users[owner.value].cartData;
    var cartData := if quantity.value == 0 then RemoveSize(before, itemId, size)
                    else SetQuantity(before, itemId, size, quantity.value);
    r := Reply(OK, true, Some("Cart updated"), Some(cartData));
  }

  /**
   * The as-written add for a newly registered user: the reply shows one
   * unit of ("p", "M"), while the stored cart is still empty.
   */
  method AddedUnitNotStored() returns (r: Reply<Cart>, stored: Cart)
    ensures r == Reply(OK, true, Some("Added to cart"), Some(map["p" := map["M" := 1]]))
    ensures stored == map[]
  {
    var store := new UserStore();
    var saved := store.Create(NewRecord(0, "Ada", "ada@example.com", "hash"));
    r := AddToCartAsWritten(store, Some(0), "p", "M");
    stored := store.users["ada@example.com"].cartData;
  }

  /** The same add with the path marked modified: the stored cart is the one replied. */
  method AddedUnitStored() returns (r: Reply<Cart>, stored: Cart)
    ensures r == Reply(OK, true, Some("Added to cart"), Some(map["p" := map["M" := 1]]))
    ensures stored == map["p" := map["M" := 1]]
  {
    var store := new UserStore();
    var saved := store.Create(NewRecord(0, "Ada", "ada@example.com", "hash"));
    r := AddToCart(store, Some(0), "p", "M");
    stored := store.users["ada@example.com"].cartData;
  }

  /**
   * The as-written update setting 3 units for a newly registered user:
   * the reply shows them, the stored cart is still empty.
   */
  method UpdatedQuantityNotStored() returns (r: Reply<Cart>, stored: Cart)
    ensures r == Reply(OK, true, Some("Cart updated"), Some(map["p" := map["M" := 3]]))
    ensures stored == map[]
  {
    var store := new UserStore();
    var saved := store.Create(NewRecord(0, "Ada", "ada@example.com", "hash"));
    r := UpdateCartAsWritten(store, Some(0), "p", "M", Some(3));
    stored := store.users["ada@example.com"].cartData;
  }

  /** The same update with the path marked modified: the 3 units are stored. */
  method UpdatedQuantityStored() returns (r: Reply<Cart>, stored: Cart)
    ensures r == Reply(OK, true, Some("Cart updated"), Some(map["p" := map["M" := 3]]))
    ensures stored == map["p" := map["M" := 3]]
  {
    var store := new UserStore();
    var saved := store.Create(NewRecord(0, "Ada", "ada@example.com", "hash"));
    r := UpdateCart(store, Some(0), "p", "M", Some(3));
    stored := store.users["ada@example.com"].cartData;
  }
}

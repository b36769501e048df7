/**
 * The read side of hooks/useCart.ts: the lists `loadCartData` builds from the backend, the
 * two `reduce` totals over `cartItems`, and the local effect of a successful `clearCart`.
 */
module Cart {
  import opened Wrappers
  import opened Types
  import opened Seqs
  import opened Backend

  /** A line of the backend's `cart` or `savedForLater` array. */
  datatype BackendCartItem = BackendCartItem(product: BackendProduct, quantity: int, size: string, color: string)

  /** The `data` of a successful `GET /cart`. */
  datatype CartResponse = CartResponse(cart: seq<BackendCartItem>, savedForLater: seq<BackendCartItem>)

  /** The hook's two lists. */
  datatype CartState = CartState(cartItems: seq<CartItem>, savedItems: seq<CartItem>)

  function InitialCart(): CartState
  {
    CartState([], [])
  }

  /** The object literal both `map` callbacks of `loadCartData` build. */
  function CartLine(item: BackendCartItem): CartItem
  {
    CartItem(CartProduct(item.product), item.quantity, item.size, item.color)
  }

  /**
   * `loadCartData`: `response` is `None` unless the request succeeded with status "success";
   * then both lists are replaced by their transformed backend arrays, otherwise nothing changes.
   */
  function LoadCartData(state: CartState, response: Option<CartResponse>): (r: CartState)
    ensures response.None? ==> r == state
    ensures response.Some? ==> |r.cartItems| == |response.value.cart| && |r.savedItems| == |response.value.savedForLater|
  {
    match response
    case None => state
    case Some(data) => CartState(Map(CartLine, data.cart), Map(CartLine, data.savedForLater))
  }

  /** Each loaded list is the backend array mapped line by line: same length, same order, quantity, size and colour copied. */
  lemma LoadCartDataSpec(state: CartState, data: CartResponse)
    ensures var s := LoadCartData(state, Some(data));
      && |s.cartItems| == |data.cart| && |s.savedItems| == |data.savedForLater|
      && (forall i :: 0 <= i < |data.cart| ==>
            && s.cartItems[i].product == CartProduct(data.cart[i].product)
            && s.cartItems[i].quantity == data.cart[i].quantity
            && s.cartItems[i].size == data.cart[i].size
            && s.cartItems[i].color == data.cart[i].color)
      && (forall i :: 0 <= i < |data.savedForLater| ==>
            && s.savedItems[i].product == CartProduct(data.savedForLater[i].product)
            && s.savedItems[i].quantity == data.savedForLater[i].quantity
            && s.savedItems[i].size == data.savedForLater[i].size
            && s.savedItems[i].color == data.savedForLater[i].color)
  {
  }

  /** A failed or unsuccessful response leaves both lists as they were. */
  lemma LoadCartDataFailure(state: CartState)
    ensures LoadCartData(state, None) == state
  {
  }

  /** The same backend line gives the same `CartItem` whether it arrives in the cart or in the saved list. */
  lemma CartAndSavedAgree(item: BackendCartItem)
    ensures LoadCartData(InitialCart(), Some(CartResponse([item], [item]))).cartItems
         == LoadCartData(InitialCart(), Some(CartResponse([item], [item]))).savedItems
  {
  }

  /** `item.product.price * item.quantity` */
  function LineTotal(item: CartItem): int
  {
    item.product.price * item.quantity
  }

  function Quantity(item: CartItem): int
  {
    item.quantity
  }

  /** `items.reduce((total, item) => total + weight(item), acc)`, folding from the left. */
  function Reduce(weight: CartItem -> int, acc: int, items: seq<CartItem>): int
    decreases items
  {
    if items == [] then acc else Reduce(weight, acc + weight(items[0]), items[1..])
  }

  /** The sum of `weight` over `items`, the reference the totals are measured against. */
  function Sum(weight: CartItem -> int, items: seq<CartItem>): int
  {
    if items == [] then 0 else weight(items[0]) + Sum(weight, items[1..])
  }

  /** `getTotalPrice` */
  function GetTotalPrice(state: CartState): (total: int)
    ensures total == Sum(LineTotal, state.cartItems)
  {
    ReduceIsSum(LineTotal, 0, state.cartItems);
    Reduce(LineTotal, 0, state.cartItems)
  }

  /** `getTotalItems` */
  function GetTotalItems(state: CartState): (total: int)
    ensures total == Sum(Quantity, state.cartItems)
  {
    ReduceIsSum(Quantity, 0, state.cartItems);
    Reduce(Quantity, 0, state.cartItems)
  }

  lemma {:induction false} ReduceIsSum(weight: CartItem -> int, acc: int, items: seq<CartItem>)
    ensures Reduce(weight, acc, items) == acc + Sum(weight, items)
    decreases items
  {
    if items != [] {
      ReduceIsSum(weight, acc + weight(items[0]), items[1..]);
    }
  }

  /** The totals are the sums of `price * quantity` and of `quantity` over the cart; only `cartItems` counts. */
  lemma TotalsAreSums(state: CartState)
    ensures GetTotalPrice(state) == Sum(LineTotal, state.cartItems)
    ensures GetTotalItems(state) == Sum(Quantity, state.cartItems)
    ensures state.cartItems == [] ==> GetTotalPrice(state) == 0 && GetTotalItems(state) == 0
    ensures forall saved :: GetTotalPrice(state.(savedItems := saved)) == GetTotalPrice(state)
    ensures forall saved :: GetTotalItems(state.(savedItems := saved)) == GetTotalItems(state)
  {
  }

  lemma {:induction false} SumConcat(weight: CartItem -> int, a: seq<CartItem>, b: seq<CartItem>)
    ensures Sum(weight, a + b) == Sum(weight, a) + Sum(weight, b)
  {
    if a == [] {
      assert a + b == b;
    } else {
      assert (a + b)[1..] == a[1..] + b;
      SumConcat(weight, a[1..], b);
    }
  }

  /** Both totals add up over a cart split in two. */
  lemma TotalsAdditive(a: seq<CartItem>, b: seq<CartItem>, saved: seq<CartItem>)
    ensures GetTotalPrice(CartState(a + b, saved)) == GetTotalPrice(CartState(a, saved)) + GetTotalPrice(CartState(b, saved))
    ensures GetTotalItems(CartState(a + b, saved)) == GetTotalItems(CartState(a, saved)) + GetTotalItems(CartState(b, saved))
  {
    TotalsAreSums(CartState(a + b, saved));
    TotalsAreSums(CartState(a, saved));
    TotalsAreSums(CartState(b, saved));
    SumConcat(LineTotal, a, b);
    SumConcat(Quantity, a, b);
  }

  /** Taking one item out of the middle takes its weight out of the sum. */
  lemma {:induction false} SumRemove(weight: CartItem -> int, b: seq<CartItem>, k: int)
    requires 0 <= k < |b|
    ensures Sum(weight, b) == weight(b[k]) + Sum(weight, b[..k] + b[k + 1..])
  {
    if k > 0 {
      SumRemove(weight, b[1..], k - 1);
      assert b[1..][..k - 1] + b[1..][k..] == (b[..k] + b[k + 1..])[1..];
    } else {
      assert b[..k] + b[k + 1..] == b[1..];
    }
  }

  /** A sum does not depend on the order of the items. */
  lemma {:induction false} SumPermutation(weight: CartItem -> int, a: seq<CartItem>, b: seq<CartItem>)
    requires multiset(a) == multiset(b)
    ensures Sum(weight, a) == Sum(weight, b)
    decreases |a|
  {
    if a != [] {
      assert a[0] in multiset(b);
      var k :| 0 <= k < |b| && b[k] == a[0];
      var rest := b[..k] + b[k + 1..];
      MultisetCancel(a, b, k);
      SumPermutation(weight, a[1..], rest);
      SumRemove(weight, b, k);
    } else {
      assert |b| == |multiset(b)|;
    }
  }

  /** Reordering the cart changes neither total. */
  lemma TotalsIgnoreOrder(state: CartState, reordered: seq<CartItem>)
    requires multiset(reordered) == multiset(state.cartItems)
    ensures GetTotalPrice(state.(cartItems := reordered)) == GetTotalPrice(state)
    ensures GetTotalItems(state.(cartItems := reordered)) == GetTotalItems(state)
  {
    TotalsAreSums(state);
    TotalsAreSums(state.(cartItems := reordered));
    SumPermutation(LineTotal, reordered, state.cartItems);
    SumPermutation(Quantity, reordered, state.cartItems);
  }

  /** `clearCart`: the cart is emptied only when the server reports success. */
  function ClearCart(state: CartState, succeeded: bool): (r: CartState)
    ensures r.savedItems == state.savedItems
    ensures succeeded ==> r.cartItems == []
    ensures !succeeded ==> r.cartItems == state.cartItems
  {
    if succeeded then state.(cartItems := []) else state
  }

  /** A successful clear empties the cart, zeroes both totals and keeps the saved list; a failed one changes nothing. */
  lemma ClearCartSpec(state: CartState, succeeded: bool)
    ensures succeeded ==> ClearCart(state, true).cartItems == [] && ClearCart(state, true).savedItems == state.savedItems
    ensures succeeded ==> GetTotalPrice(ClearCart(state, true)) == 0 && GetTotalItems(ClearCart(state, true)) == 0
    ensures !succeeded ==> ClearCart(state, false) == state
  {
  }
}

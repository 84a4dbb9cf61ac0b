/** The cart page's ledger (src/pages/CartPage.tsx): cart lines, quantity
    changes, removal, the subtotal / tax / total arithmetic, the SAVE10 promo
    code and the checkout guard. Money is exact (`real`), so `toFixed` display
    rounding is not part of the model. */
module Cart {
  import opened Wrappers
  import opened Lists
  import opened Text

  datatype CartItem = CartItem(id: string, name: string, price: real, quantity: int)

  /** The cart the page starts with. */
  const InitialCartItems: seq<CartItem> := [
    CartItem("m1", "Margherita Pizza", 12.99, 1),
    CartItem("m3", "Garlic Bread", 5.99, 2)
  ]

  const TaxRate: real := 0.1
  const PromoRate: real := 0.1
  const PromoCode: string := "SAVE10"

  function LineTotal(item: CartItem): real {
    item.price * item.quantity as real
  }

  /** `cartItems.reduce((acc, item) => acc + item.price * item.quantity, 0)`: a left fold. */
  function Subtotal(items: seq<CartItem>): real {
    if items == [] then 0.0
    else Subtotal(items[..|items| - 1]) + LineTotal(items[|items| - 1])
  }

  /** The sum of the line totals, taken from the front: the reference the fold is checked against. */
  function LineSum(items: seq<CartItem>): real {
    if items == [] then 0.0 else LineTotal(items[0]) + LineSum(items[1..])
  }

  function Taxes(subtotal: real): real {
    subtotal * TaxRate
  }

  /** `subtotal + taxes - discount`, with no clamp at zero. */
  function Total(subtotal: real, discount: real): real {
    subtotal + Taxes(subtotal) - discount
  }

  /** The discount `handleApplyPromoCode` stores for `code` against the current subtotal. */
  function PromoDiscount(code: string, subtotal: real): real {
    if Upper(code) == PromoCode then subtotal * PromoRate else 0.0
  }

  /** `items.map(item => item.id === id ? { ...item, quantity } : item)`. */
  function SetQuantity(items: seq<CartItem>, id: string, quantity: int): (r: seq<CartItem>)
    ensures |r| == |items|
    ensures forall i :: 0 <= i < |r| ==>
      r[i] == if items[i].id == id then items[i].(quantity := quantity) else items[i]
  {
    seq(|items|, i requires 0 <= i < |items| =>
      if items[i].id == id then items[i].(quantity := quantity) else items[i])
  }

  /** `items.filter(item => item.id !== id)`. */
  function RemoveById(items: seq<CartItem>, id: string): seq<CartItem> {
    Filter(items, OtherId(id))
  }

  /** The filter's predicate: the line does not carry `id`. */
  function OtherId(id: string): CartItem -> bool {
    (item: CartItem) => item.id != id
  }

  predicate QuantitiesPositive(items: seq<CartItem>) {
    forall i :: 0 <= i < |items| ==> items[i].quantity >= 1
  }

  function ItemId(item: CartItem): string {
    item.id
  }

  /** No two lines carry the same id. */
  predicate UniqueIds(items: seq<CartItem>) {
    DistinctBy(items, ItemId)
  }

  predicate HasId(items: seq<CartItem>, id: string) {
    exists i :: 0 <= i < |items| && items[i].id == id
  }

  /** The order id checkout navigates to: "ORD-" and the last six digits of the timestamp. */
  function OrderId(now: nat): string {
    "ORD-" + Last(Dec(now), 6)
  }

  // ---------------------------------------------------------------------------
  // Properties of the pure rules

  /** The left fold computes the sum of `price * quantity` over the lines. */
  lemma {:induction false} SubtotalIsLineSum(items: seq<CartItem>)
    ensures Subtotal(items) == LineSum(items)
    decreases |items|
  {
    if items != [] {
      var n := |items|;
      if n == 1 {
        assert items[..0] == [];
      } else {
        SubtotalIsLineSum(items[..n - 1]);
        SubtotalIsLineSum(items[1..]);
        SubtotalIsLineSum(items[1..][..n - 2]);
        assert items[1..][..n - 2] == items[..n - 1][1..];
        assert items[1..][n - 2] == items[n - 1];
      }
    }
  }

  lemma SubtotalAppend(items: seq<CartItem>, x: CartItem)
    ensures Subtotal(items + [x]) == Subtotal(items) + LineTotal(x)
  {
    assert (items + [x])[..|items|] == items;
  }

  /** A quantity change on an id the cart does not hold changes nothing. */
  lemma SetQuantityAbsent(items: seq<CartItem>, id: string, quantity: int)
    requires !HasId(items, id)
    ensures SetQuantity(items, id, quantity) == items
  {
  }

  /** Setting the quantity of the one line with `id` moves the subtotal by that line's price
      times the change in quantity. */
  lemma {:induction false} SubtotalAfterSetQuantity(items: seq<CartItem>, id: string, quantity: int, k: int)
    requires 0 <= k < |items| && items[k].id == id
    requires forall j :: 0 <= j < |items| && j != k ==> items[j].id != id
    ensures Subtotal(SetQuantity(items, id, quantity))
         == Subtotal(items) + items[k].price * (quantity - items[k].quantity) as real
    decreases |items|
  {
    var n := |items|;
    var r := SetQuantity(items, id, quantity);
    assert r[..n - 1] == SetQuantity(items[..n - 1], id, quantity);
    if k == n - 1 {
      SetQuantityAbsent(items[..n - 1], id, quantity);
    } else {
      SubtotalAfterSetQuantity(items[..n - 1], id, quantity, k);
    }
  }

  /** Removing the one line with `id` takes exactly its line total off the subtotal. */
  lemma {:induction false} SubtotalAfterRemove(items: seq<CartItem>, id: string, k: int)
    requires 0 <= k < |items| && items[k].id == id
    requires forall j :: 0 <= j < |items| && j != k ==> items[j].id != id
    ensures Subtotal(RemoveById(items, id)) == Subtotal(items) - LineTotal(items[k])
    decreases |items|
  {
    var n := |items|;
    var init := items[..n - 1];
    assert items == init + [items[n - 1]];
    FilterAppend(init, items[n - 1], OtherId(id));
    if k == n - 1 {
      FilterAll(init, OtherId(id));
      assert !OtherId(id)(items[n - 1]);
      assert RemoveById(items, id) == init;
    } else {
      SubtotalAfterRemove(init, id, k);
      SubtotalAppend(RemoveById(init, id), items[n - 1]);
    }
  }

  /** Removal leaves no line with the id, keeps every other line, never reorders, and is idempotent. */
  lemma RemoveByIdProperties(items: seq<CartItem>, id: string)
    ensures !HasId(RemoveById(items, id), id)
    ensures forall i :: 0 <= i < |items| && items[i].id != id ==> items[i] in RemoveById(items, id)
    ensures Subsequence(RemoveById(items, id), items)
    ensures RemoveById(RemoveById(items, id), id) == RemoveById(items, id)
  {
    var p := OtherId(id);
    FilterIsSubsequence(items, p);
    FilterIdempotent(items, p);
  }

  /** The cart invariants survive a quantity change of at least 1 and any removal. */
  lemma InvariantsPreserved(items: seq<CartItem>, id: string, quantity: int)
    requires QuantitiesPositive(items) && UniqueIds(items)
    ensures quantity >= 1 ==> QuantitiesPositive(SetQuantity(items, id, quantity))
    ensures UniqueIds(SetQuantity(items, id, quantity))
    ensures QuantitiesPositive(RemoveById(items, id)) && UniqueIds(RemoveById(items, id))
  {
    FilterKeepsDistinct(items, OtherId(id), ItemId);
  }

  /** The promo check ignores letter case: "save10", "Save10" and "SAVE10" give the same discount. */
  lemma PromoIgnoresCase(code: string, subtotal: real)
    ensures PromoDiscount(Lower(code), subtotal) == PromoDiscount(code, subtotal)
    ensures PromoDiscount(Upper(code), subtotal) == PromoDiscount(code, subtotal)
  {
    UpperIgnoresCase(code);
  }

  /** With SAVE10 applied to the current subtotal, the discount cancels the tax exactly. */
  lemma PromoCancelsTax(code: string, subtotal: real)
    ensures Upper(code) == PromoCode ==> Total(subtotal, PromoDiscount(code, subtotal)) == subtotal
    ensures Upper(code) != PromoCode ==> Total(subtotal, PromoDiscount(code, subtotal)) == subtotal + Taxes(subtotal)
  {
  }

  /** The starting cart: subtotal 24.97, tax 2.497, and SAVE10 brings the total back to 24.97. */
  lemma InitialCartTotals()
    ensures Subtotal(InitialCartItems) == 24.97
    ensures Taxes(Subtotal(InitialCartItems)) == 2.497
    ensures Total(24.97, PromoDiscount("save10", 24.97)) == 24.97
  {
    assert InitialCartItems[..1] == [InitialCartItems[0]];
    assert Upper("save10") == PromoCode;
  }

  /** The discount is not recomputed when the cart shrinks, and the total is not clamped:
      apply SAVE10 to a 101.00 cart, remove the 100.00 line, and the total is negative. */
  lemma StaleDiscountCanMakeTotalNegative()
    ensures var items := [CartItem("a", "A", 100.0, 1), CartItem("b", "B", 1.0, 1)];
            var discount := PromoDiscount(PromoCode, Subtotal(items));
            Total(Subtotal(RemoveById(items, "a")), discount) < 0.0
  {
    var items := [CartItem("a", "A", 100.0, 1), CartItem("b", "B", 1.0, 1)];
    assert items[..1] == [items[0]];
    assert Upper(PromoCode) == PromoCode;
    SubtotalAfterRemove(items, "a", 0);
  }

  /** The order id is "ORD-" and digits that spell the timestamp modulo 10^6; once the
      timestamp has six digits, the id is exactly ten characters. */
  lemma OrderIdEncodesTimestamp(now: nat)
    ensures OrderId(now)[..4] == "ORD-"
    ensures AllDigits(OrderId(now)[4..])
    ensures ParseDec(OrderId(now)[4..]) == now % 1000000
    ensures now >= 100000 ==> |OrderId(now)| == 10
  {
    var digits := Last(Dec(now), 6);
    assert OrderId(now)[4..] == digits;
    LastDigitsValue(now, 6);
    assert Pow10(6) == 1000000;
    assert Pow10(5) == 100000;
    DecLengthBound(now);
    if |Dec(now)| < 6 {
      PowMonotone(|Dec(now)|, 5);
    }
  }

  // ---------------------------------------------------------------------------
  // The page state

  class CartLedger {
    var cartItems: seq<CartItem>
    var promoCode: string
    var discount: real

    ghost predicate Valid()
      reads this
    {
      QuantitiesPositive(cartItems) && UniqueIds(cartItems)
    }

    constructor ()
      ensures Valid()
      ensures cartItems == InitialCartItems && promoCode == "" && discount == 0.0
    {
      cartItems := InitialCartItems;
      promoCode := "";
      discount := 0.0;
    }

    /** `updateQuantity`: below 1 nothing happens; otherwise every line with `id` gets the new
        quantity. The discount is left as it was. */
    method UpdateQuantity(id: string, newQuantity: int)
      requires Valid()
      modifies this
      ensures Valid()
      ensures newQuantity < 1 ==> cartItems == old(cartItems)
      ensures newQuantity >= 1 ==> cartItems == SetQuantity(old(cartItems), id, newQuantity)
      ensures discount == old(discount) && promoCode == old(promoCode)
    {
      if newQuantity < 1 {
        return;
      }
      InvariantsPreserved(cartItems, id, newQuantity);
      cartItems := SetQuantity(cartItems, id, newQuantity);
    }

    /** `removeItem`: drop every line with `id`; the discount is left as it was. */
    method RemoveItem(id: string)
      requires Valid()
      modifies this
      ensures Valid()
      ensures cartItems == RemoveById(old(cartItems), id)
      ensures discount == old(discount) && promoCode == old(promoCode)
    {
      InvariantsPreserved(cartItems, id, 1);
      cartItems := RemoveById(cartItems, id);
    }

    /** The promo-code input's `onChange`. */
    method SetPromoCode(code: string)
      requires Valid()
      modifies this
      ensures Valid()
      ensures promoCode == code
      ensures cartItems == old(cartItems) && discount == old(discount)
    {
      promoCode := code;
    }

    /** `handleApplyPromoCode`: SAVE10 in any letter case stores 10% of the current subtotal,
        anything else stores 0, overwriting an earlier discount. `accepted` is which toast shows. */
    method ApplyPromoCode() returns (accepted: bool)
      requires Valid()
      modifies this
      ensures Valid()
      ensures accepted <==> Upper(promoCode) == PromoCode
      ensures discount == PromoDiscount(promoCode, Subtotal(cartItems))
      ensures accepted ==> Total(Subtotal(cartItems), discount) == Subtotal(cartItems)
      ensures !accepted ==> discount == 0.0
      ensures cartItems == old(cartItems) && promoCode == old(promoCode)
    {
      var subtotal := Subtotal(cartItems);
      if Upper(promoCode) == PromoCode {
        discount := subtotal * PromoRate;
        accepted := true;
      } else {
        discount := 0.0;
        accepted := false;
      }
    }

    /** `handleCheckout`: an empty cart creates no order; otherwise the order id is built from
        the timestamp. Nothing in the ledger changes. */
    method Checkout(now: nat) returns (orderId: Option<string>)
      ensures orderId.None? <==> cartItems == []
      ensures orderId.Some? ==> orderId.value == OrderId(now)
      ensures orderId.Some? ==> ParseDec(orderId.value[4..]) == now % 1000000
    {
      if |cartItems| == 0 {
        return None;
      }
      OrderIdEncodesTimestamp(now);
      orderId := Some(OrderId(now));
    }
  }
}

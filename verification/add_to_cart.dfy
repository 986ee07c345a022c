/** The quantity picker and add button of a product page
    (components/products/add-to-cart.tsx). */
module AddToCartView {
  import opened Wrappers
  import opened Strings

  const MinQty := 1
  const MaxQty := 99

  /** `handleChange`: NaN (`None`) or below MIN_QTY gives MIN_QTY, above MAX_QTY gives
      MAX_QTY, anything else is floored. */
  function ChangedQuantity(valueAsNumber: Option<real>): (q: int)
    ensures MinQty <= q <= MaxQty
    ensures valueAsNumber.None? ==> q == MinQty
    ensures valueAsNumber.Some? && valueAsNumber.value < MinQty as real ==> q == MinQty
    ensures valueAsNumber.Some? && valueAsNumber.value > MaxQty as real ==> q == MaxQty
    ensures valueAsNumber.Some? && MinQty as real <= valueAsNumber.value <= MaxQty as real ==>
      q as real <= valueAsNumber.value < q as real + 1.0
  {
    if valueAsNumber.None? || valueAsNumber.value < MinQty as real then MinQty
    else if valueAsNumber.value > MaxQty as real then MaxQty
    else valueAsNumber.value.Floor
  }

  /** `handleDecrease`'s update: one less, saturating at MIN_QTY. */
  function Decreased(q: int): (r: int)
    ensures q > MinQty ==> r == q - 1
    ensures q <= MinQty ==> r == MinQty
  {
    if q > MinQty then q - 1 else MinQty
  }

  /** `handleIncrease`'s update: one more, saturating at MAX_QTY. */
  function Increased(q: int): (r: int)
    ensures q < MaxQty ==> r == q + 1
    ensures q >= MaxQty ==> r == MaxQty
  {
    if q < MaxQty then q + 1 else MaxQty
  }

  /** The mutation the add button sends: `{ productId: String(product.id), quantity }`. */
  datatype AddItem = AddItem(productId: string, quantity: int)

  class AddToCart {
    var quantity: int
    var loginOpen: bool

    predicate Valid()
      reads this
    {
      MinQty <= quantity <= MaxQty
    }

    /** `useState(MIN_QTY)` and `useState(false)`. */
    constructor ()
      ensures quantity == MinQty && !loginOpen && Valid()
    {
      quantity := MinQty;
      loginOpen := false;
    }

    method HandleChange(valueAsNumber: Option<real>)
      modifies this`quantity
      ensures quantity == ChangedQuantity(valueAsNumber) && Valid()
    {
      quantity := ChangedQuantity(valueAsNumber);
    }

    method HandleDecrease()
      requires Valid()
      modifies this`quantity
      ensures quantity == Decreased(old(quantity)) && Valid()
    {
      quantity := Decreased(quantity);
    }

    method HandleIncrease()
      requires Valid()
      modifies this`quantity
      ensures quantity == Increased(old(quantity)) && Valid()
    {
      quantity := Increased(quantity);
    }

    /** `handleAddToCart`: a signed-out visitor gets the login dialog and nothing is
        sent; otherwise the product id, as text, and the current quantity are sent. */
    method HandleAddToCart(isAuthenticated: bool, productId: nat) returns (sent: Option<AddItem>)
      modifies this`loginOpen
      ensures !isAuthenticated ==> sent.None? && loginOpen
      ensures isAuthenticated ==> sent == Some(AddItem(NatToString(productId), quantity)) && loginOpen == old(loginOpen)
    {
      if !isAuthenticated {
        loginOpen := true;
        return None;
      }
      sent := Some(AddItem(NatToString(productId), quantity));
    }

    /** The minus button's `disabled`. */
    function DecreaseDisabled(isPending: bool): (disabled: bool)
      reads this
      ensures disabled <==> quantity <= MinQty || isPending
    {
      quantity <= MinQty || isPending
    }

    /** The plus button's `disabled`. */
    function IncreaseDisabled(isPending: bool): (disabled: bool)
      reads this
      ensures disabled <==> quantity >= MaxQty || isPending
    {
      quantity >= MaxQty || isPending
    }
  }

  /** Below the maximum, a step up followed by a step down returns to the start. */
  lemma IncreaseThenDecrease(q: int)
    requires MinQty <= q < MaxQty
    ensures Decreased(Increased(q)) == q
  {
  }

  /** Every handler keeps the quantity an integer in [MIN_QTY, MAX_QTY], and an enabled
      button always moves it by exactly one. */
  lemma StepsStayInRange(q: int)
    requires MinQty <= q <= MaxQty
    ensures MinQty <= Decreased(q) <= MaxQty && MinQty <= Increased(q) <= MaxQty
    ensures q > MinQty ==> Decreased(q) == q - 1
    ensures q < MaxQty ==> Increased(q) == q + 1
  {
  }
}

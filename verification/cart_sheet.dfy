/** The quantity editor of the cart sheet (components/cart/cart-sheet.tsx): the lines
    come from GET /api/cart, and edits are kept in a per-product override map until
    the field loses focus, when a changed quantity is sent and the override dropped. */
module CartSheetView {
  import opened Wrappers
  import opened Schema
  import OrdersRoute

  const MinQty := 1
  const MaxQty := 99

  /** `Math.min(MAX_QTY, Math.max(MIN_QTY, value))`. */
  function Clamp(value: int): (q: int)
    ensures MinQty <= q <= MaxQty
    ensures MinQty <= value <= MaxQty ==> q == value
    ensures value < MinQty ==> q == MinQty
    ensures value > MaxQty ==> q == MaxQty
  {
    if value < MinQty then MinQty else if value > MaxQty then MaxQty else value
  }

  /** The quantity update `handleQtyBlur` sends: `{ productId, quantity }`. */
  datatype QuantityUpdate = QuantityUpdate(productId: ProductId, quantity: int)

  class CartSheet {
    /** `localQty`: the quantities typed or stepped but not yet sent. */
    var localQty: map<ProductId, int>

    /** Every override `setQty` stores is within [MIN_QTY, MAX_QTY]. */
    predicate Valid()
      reads this
    {
      forall id :: id in localQty ==> MinQty <= localQty[id] <= MaxQty
    }

    constructor ()
      ensures localQty == map[] && Valid()
    {
      localQty := map[];
    }

    /** `getQty`: the override if there is one, else the server quantity. */
    function GetQty(productId: ProductId, defaultQty: int): (q: int)
      reads this
      ensures productId in localQty ==> q == localQty[productId]
      ensures productId !in localQty ==> q == defaultQty
      ensures Valid() && productId in localQty ==> MinQty <= q <= MaxQty
    {
      if productId in localQty then localQty[productId] else defaultQty
    }

    /** `setQty`: store the clamped value as the product's override. */
    method SetQty(productId: ProductId, value: int)
      requires Valid()
      modifies this`localQty
      ensures localQty == old(localQty)[productId := Clamp(value)]
      ensures Valid()
      ensures forall d :: GetQty(productId, d) == Clamp(value)
    {
      localQty := localQty[productId := Clamp(value)];
    }

    /** The minus button: one less than the shown quantity, clamped. */
    method Decrease(line: CartLine)
      requires Valid()
      modifies this`localQty
      ensures localQty == old(localQty)[line.id := Clamp(old(GetQty(line.id, line.quantity)) - 1)]
      ensures Valid()
    {
      SetQty(line.id, GetQty(line.id, line.quantity) - 1);
    }

    /** The plus button: one more than the shown quantity, clamped. */
    method Increase(line: CartLine)
      requires Valid()
      modifies this`localQty
      ensures localQty == old(localQty)[line.id := Clamp(old(GetQty(line.id, line.quantity)) + 1)]
      ensures Valid()
    {
      SetQty(line.id, GetQty(line.id, line.quantity) + 1);
    }

    /** The number field's `onChange`: `valueAsNumber` is `None` for NaN (an empty or
        unreadable field), which is ignored; any other value is floored and stored. */
    method TypeQuantity(productId: ProductId, valueAsNumber: Option<real>)
      requires Valid()
      modifies this`localQty
      ensures valueAsNumber.None? ==> localQty == old(localQty)
      ensures valueAsNumber.Some? ==> localQty == old(localQty)[productId := Clamp(valueAsNumber.value.Floor)]
      ensures Valid()
    {
      if valueAsNumber.Some? {
        SetQty(productId, valueAsNumber.value.Floor);
      }
    }

    /** The update `handleQtyBlur` sends: the shown quantity, when it differs from the
        server's and is at least MIN_QTY. */
    function BlurUpdate(productId: ProductId, currentQty: int): (u: Option<QuantityUpdate>)
      reads this
      ensures u.Some? ==> u.value.productId == productId && u.value.quantity != currentQty
      ensures u.Some? ==> u.value.quantity == GetQty(productId, currentQty) >= MinQty
      ensures u.None? ==> GetQty(productId, currentQty) == currentQty || GetQty(productId, currentQty) < MinQty
    {
      var value := GetQty(productId, currentQty);
      if value != currentQty && value >= MinQty then Some(QuantityUpdate(productId, value)) else None
    }

    /** `handleQtyBlur`: send the update, if any, and drop this product's override
        whatever happened. */
    method HandleQtyBlur(productId: ProductId, currentQty: int) returns (update: Option<QuantityUpdate>)
      requires Valid()
      modifies this`localQty
      ensures update == old(BlurUpdate(productId, currentQty))
      ensures localQty == old(localQty) - {productId}
      ensures productId !in localQty && Valid()
      ensures forall id :: id != productId && id in old(localQty) ==> id in localQty && localQty[id] == old(localQty)[id]
    {
      update := BlurUpdate(productId, currentQty);
      localQty := localQty - {productId};
    }

    /** `products.reduce((sum, p) => sum + p.price * getQty(p.id, p.quantity), 0)`. */
    function ShownSubtotal(lines: seq<CartLine>): int
      reads this
    {
      if lines == [] then 0
      else ShownSubtotal(lines[..|lines| - 1])
           + lines[|lines| - 1].price * GetQty(lines[|lines| - 1].id, lines[|lines| - 1].quantity)
    }

    /** The decrement button's `disabled`. */
    function DecreaseDisabled(line: CartLine, updatePending: bool): (disabled: bool)
      reads this
      ensures !updatePending ==> (disabled <==> GetQty(line.id, line.quantity) <= MinQty)
      ensures updatePending ==> disabled
    {
      GetQty(line.id, line.quantity) <= MinQty || updatePending
    }

    /** The increment button's `disabled`. */
    function IncreaseDisabled(line: CartLine, updatePending: bool): (disabled: bool)
      reads this
      ensures !updatePending ==> (disabled <==> GetQty(line.id, line.quantity) >= MaxQty)
      ensures updatePending ==> disabled
    {
      GetQty(line.id, line.quantity) >= MaxQty || updatePending
    }
  }

  /** With overrides kept in range the `>= MIN_QTY` half of the blur test never
      decides anything: an update is sent exactly when the shown quantity differs
      from the server's. */
  lemma BlurSendsExactlyChanges(sheet: CartSheet, productId: ProductId, currentQty: int)
    requires sheet.Valid()
    ensures sheet.BlurUpdate(productId, currentQty).Some? <==> sheet.GetQty(productId, currentQty) != currentQty
  {
  }

  /** An enabled minus button lowers the shown quantity by exactly one, an enabled
      plus button raises it by exactly one, when the server quantity is in range. */
  lemma EnabledStepsMoveByOne(sheet: CartSheet, line: CartLine)
    requires sheet.Valid() && MinQty <= line.quantity <= MaxQty
    ensures var q := sheet.GetQty(line.id, line.quantity);
      && (!sheet.DecreaseDisabled(line, false) ==> Clamp(q - 1) == q - 1)
      && (!sheet.IncreaseDisabled(line, false) ==> Clamp(q + 1) == q + 1)
  {
  }

  /** Before any edit (no override for a listed product) the sheet shows the same
      subtotal that checkout computes from the same lines. */
  lemma {:induction false} ShownSubtotalMatchesCheckout(sheet: CartSheet, lines: seq<CartLine>)
    requires forall i :: 0 <= i < |lines| ==> lines[i].id !in sheet.localQty
    ensures sheet.ShownSubtotal(lines) == OrdersRoute.Subtotal(lines)
  {
    if lines != [] {
      var init := lines[..|lines| - 1];
      var last := lines[|lines| - 1];
      assert forall i :: 0 <= i < |init| ==> init[i] == lines[i];
      ShownSubtotalMatchesCheckout(sheet, init);
      OrdersRoute.SubtotalAppend(init, [last]);
      assert init + [last] == lines;
      assert OrdersRoute.Subtotal([last]) == last.price * last.quantity by {
        assert [last][1..] == [];
      }
    }
  }
}

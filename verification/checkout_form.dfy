/** The checkout form's radio groups and disabled flag
    (components/orders/checkout-form.tsx). A selected shipment or payment method is
    kept in state as its bare id; the radio group's value carries a prefix so that
    the two groups' item ids differ. */
module CheckoutForm {
  import opened Strings

  const ShipmentPrefix := "shipment-"
  const PaymentPrefix := "payment-"

  /** The radio group's `value`: `` selected ? `${prefix}${selected}` : '' ``. */
  function RadioValue(prefix: string, selected: string): (v: string)
    ensures selected == "" ==> v == ""
    ensures selected != "" ==> v == prefix + selected
  {
    if selected == "" then "" else prefix + selected
  }

  /** `onValueChange`: `v ? v.replace(/^prefix/, '') : ''`, the anchored pattern
      removing only a leading prefix. */
  function SelectedId(prefix: string, v: string): (selected: string)
    ensures v == "" ==> selected == ""
    ensures prefix <= v ==> v == prefix + selected
    ensures !(prefix <= v) ==> selected == v
  {
    if v == "" then "" else StripPrefix(v, prefix)
  }

  /** Reading back the value the group shows gives the selection it was built from,
      including the empty selection; a later occurrence of the prefix inside the id is
      kept. */
  lemma SelectionRoundTrip(prefix: string, selected: string)
    ensures SelectedId(prefix, RadioValue(prefix, selected)) == selected
  {
    if selected != "" {
      var v := prefix + selected;
      assert prefix <= v;
      assert v[|prefix|..] == selected;
    }
  }

  /** Picking a radio item, whose value is the prefix followed by a non-empty id,
      selects that id, and the group then shows that item as picked. */
  lemma PickedItemShown(prefix: string, id: string)
    requires id != ""
    ensures SelectedId(prefix, prefix + id) == id
    ensures RadioValue(prefix, SelectedId(prefix, prefix + id)) == prefix + id
  {
    SelectionRoundTrip(prefix, id);
  }

  /** The shipment and payment groups use different prefixes, so an item value of one
      group is never an item value of the other. */
  lemma GroupsDoNotClash(shipmentId: string, paymentId: string)
    ensures ShipmentPrefix + shipmentId != PaymentPrefix + paymentId
  {
    var a, b := ShipmentPrefix + shipmentId, PaymentPrefix + paymentId;
    assert a[0] == 's' && b[0] == 'p';
  }

  /** The four loading flags of the form's `states`. */
  datatype LoadingStates = LoadingStates(
    isCartLoading: bool, isPaymentMethodsLoading: bool,
    isShipmentMethodsLoading: bool, isCreateOrderLoading: bool)

  /** `isGlobalDisabled`, which disables both radio groups and the submit button. */
  function IsGlobalDisabled(states: LoadingStates): (disabled: bool)
    ensures !disabled <==>
      !states.isCartLoading && !states.isPaymentMethodsLoading
      && !states.isShipmentMethodsLoading && !states.isCreateOrderLoading
  {
    states.isCartLoading || states.isPaymentMethodsLoading
    || states.isShipmentMethodsLoading || states.isCreateOrderLoading
  }
}

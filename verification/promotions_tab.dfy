/** The status switch of the admin promotions list (components/admin/promotions-tab.tsx). */
module PromotionsTab {
  /** The update the switch sends: `{ id, isActive: !isActive }`. */
  datatype StatusUpdate = StatusUpdate(id: nat, isActive: bool)

  function ToggleRequest(id: nat, isActive: bool): (u: StatusUpdate)
    ensures u.id == id && u.isActive != isActive
  {
    StatusUpdate(id, !isActive)
  }

  /** The success toast: `Promotion ${!isActive ? 'activated' : 'deactivated'} successfully`. */
  function ToggleToast(isActive: bool): string {
    if !isActive then "Promotion activated successfully" else "Promotion deactivated successfully"
  }

  /** Switching twice asks for the original state again, and the toast names the
      state the request asks for. */
  lemma ToggleProperties(id: nat, isActive: bool)
    ensures ToggleRequest(id, ToggleRequest(id, isActive).isActive).isActive == isActive
    ensures ToggleToast(isActive) == "Promotion activated successfully" <==> ToggleRequest(id, isActive).isActive
  {
    if isActive {
      assert ToggleToast(isActive)[10] == 'd';
      assert "Promotion activated successfully"[10] == 'a';
    }
  }
}

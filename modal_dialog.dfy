/**
  ModalDialog: the action buttons it shows and what clicking one does. Closing and cancelling the
  MudBlazor dialog instance are returned as effects, in the order the component performs them.
 */
module ModalDialog {
  import opened Wrappers
  import opened Mud

  /** DialogCloseBehavior; `UndeclaredBehavior` stands for an enum value with no name. */
  datatype DialogCloseBehavior = StayOpen | CloseOk | CloseCancel | UndeclaredBehavior

  /** The `object? Value` payloads the project passes: a boolean, or some other object, named by a tag. */
  datatype Payload = BoolValue(b: bool) | OtherValue(tag: string)

  datatype DialogAction = DialogAction(
    text: string, color: Color, variant: Variant, disabled: bool, closeBehavior: DialogCloseBehavior,
    closeOnClick: bool, isDefault: bool, value: Option<Payload>)

  /** `new DialogAction()`: every property at its initialiser or default. */
  const NewAction: DialogAction := DialogAction("", Default, Filled, false, CloseOk, true, false, None)

  lemma NewActionClosesOk()
    ensures NewAction.closeBehavior == CloseOk && NewAction.closeOnClick && !NewAction.isDefault
  {
  }

  /** DialogAction.Cancel(text). */
  function CancelAction(text: string): (a: DialogAction)
    ensures a.closeBehavior == CloseCancel && a.value == Some(BoolValue(false)) && a.text == text
    ensures a.color == Default && a.variant == Outlined && !a.isDefault
  {
    NewAction.(text := text, color := Default, variant := Outlined, closeBehavior := CloseCancel, value := Some(BoolValue(false)))
  }

  /** DialogAction.Ok(text, value, isDefault, color, variant). */
  function OkAction(text: string, value: Option<Payload>, isDefault: bool, color: Color, variant: Variant): (a: DialogAction)
    ensures a.closeBehavior == CloseOk && a.text == text && a.value == value && a.isDefault == isDefault
    ensures a.color == color && a.variant == variant && a.closeOnClick && !a.disabled
  {
    NewAction.(text := text, color := color, variant := variant, closeBehavior := CloseOk, isDefault := isDefault, value := value)
  }

  /** DialogAction.NoClose(text, color, variant). */
  function NoCloseAction(text: string, color: Color, variant: Variant): (a: DialogAction)
    ensures a.closeBehavior == StayOpen && a.text == text && a.value == None && a.color == color && a.variant == variant
  {
    NewAction.(text := text, color := color, variant := variant, closeBehavior := StayOpen)
  }

  /** `Cancel()` and `Ok(value: true)` with their default arguments. */
  const DefaultCancel: DialogAction := CancelAction("Cancel")
  const DefaultOk: DialogAction := OkAction("OK", Some(BoolValue(true)), true, Primary, Filled)

  /** ComputedActions: the given actions in order, or Cancel then OK when there are none. */
  function ComputedActions(actions: Option<seq<DialogAction>>): (r: seq<DialogAction>)
    ensures actions.None? || actions.value == [] ==> r == [DefaultCancel, DefaultOk]
    ensures actions.Some? && actions.value != [] ==> r == actions.value
    ensures |r| > 0
  {
    if actions.None? || |actions.value| == 0 then [DefaultCancel, DefaultOk] else actions.value
  }

  /** The default pair cancels with value false, and OK closes with value true as the default button. */
  lemma DefaultActions()
    ensures ComputedActions(None) == ComputedActions(Some([]))
    ensures ComputedActions(None)[0].closeBehavior == CloseCancel && ComputedActions(None)[0].text == "Cancel"
    ensures ComputedActions(None)[1].closeBehavior == CloseOk && ComputedActions(None)[1].value == Some(BoolValue(true))
    ensures ComputedActions(None)[1].isDefault && ComputedActions(None)[1].text == "OK"
  {
  }

  /** DialogResult data: the action's value, or the action itself when it has none. */
  datatype DialogData = ValueData(payload: Payload) | ActionData(action: DialogAction)

  /** What OnActionClickedAsync does, in order. */
  datatype DialogEffect = InvokedCallback(action: DialogAction) | Cancelled | Closed(data: Option<DialogData>)

  /** The data an Ok close returns. */
  function ResultData(action: DialogAction, returnActionAsResult: bool): (d: Option<DialogData>)
    ensures !returnActionAsResult ==> d.None?
    ensures returnActionAsResult && action.value.Some? ==> d == Some(ValueData(action.value.value))
    ensures returnActionAsResult && action.value.None? ==> d == Some(ActionData(action))
  {
    if !returnActionAsResult then None
    else if action.value.Some? then Some(ValueData(action.value.value))
    else Some(ActionData(action))
  }

  /** OnActionClickedAsync: the callback (when one is attached) runs first, then the close decision. */
  function OnActionClicked(action: DialogAction, hasDelegate: bool, returnActionAsResult: bool): (effects: seq<DialogEffect>)
  {
    var invoked := if hasDelegate then [InvokedCallback(action)] else [];
    match action.closeBehavior
    case CloseCancel => invoked + [Cancelled]
    case CloseOk => invoked + [Closed(ResultData(action, returnActionAsResult))]
    case _ => invoked
  }

  /**
    The click's effects: the callback first when there is one; then a cancel for a Cancel action, a close
    with the result data for an Ok action, and nothing else, so None keeps the dialog open.
   */
  lemma ActionClickOutcome(action: DialogAction, hasDelegate: bool, returnActionAsResult: bool)
    ensures var e := OnActionClicked(action, hasDelegate, returnActionAsResult);
      && (hasDelegate <==> |e| > 0 && e[0] == InvokedCallback(action))
      && (forall k :: 0 < k < |e| ==> !e[k].InvokedCallback?)
      && (action.closeBehavior == CloseCancel <==> |e| > 0 && e[|e| - 1] == Cancelled)
      && (action.closeBehavior == CloseOk <==> |e| > 0 && e[|e| - 1] == Closed(ResultData(action, returnActionAsResult)))
      && (action.closeBehavior != CloseCancel && action.closeBehavior != CloseOk <==> |e| == (if hasDelegate then 1 else 0))
  {
  }
}

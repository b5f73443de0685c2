/**
  The custom-mode card: its list/create views, the prompt it submits, and the
  Activate/Active toggle of each listed mode.
*/
module CustomModeCard {
  import opened Types
  import opened JsText

  datatype View = List | Create

  /**
    The id the Dashboard hands the card: `activeCustomMode?.id || null`.
    An id of 0 is falsy, so a mode with id 0 never shows as active.
  */
  function ActiveModeId(active: Option<CustomFocusMode>): (id: Option<nat>)
  {
    if active.Some? && active.value.id != 0 then Some(active.value.id) else None
  }

  /** The mode `handleToggleActivation` hands to `onActivateMode` (`None` for null). */
  function Activation(activeModeId: Option<nat>, mode: CustomFocusMode): (activated: Option<CustomFocusMode>)
  {
    if activeModeId == Some(mode.id) then None else Some(mode)
  }

  /**
    Pressing the button of the active mode deactivates it; pressing any other
    mode's button activates that mode.
  */
  lemma ActivationRules(activeModeId: Option<nat>, mode: CustomFocusMode)
    ensures Activation(activeModeId, mode).None? <==> activeModeId == Some(mode.id)
    ensures Activation(activeModeId, mode).Some? ==> Activation(activeModeId, mode) == Some(mode)
  {
  }

  /**
    Seen from the Dashboard's active mode: the button of the active mode
    deactivates it unless its id is 0, in which case it activates it again;
    a second press restores the first state for any mode with a non-zero id.
  */
  lemma ToggleFromDashboard(active: Option<CustomFocusMode>, mode: CustomFocusMode)
    ensures var next := Activation(ActiveModeId(active), mode);
      && (next.None? <==> active.Some? && active.value.id == mode.id && mode.id != 0)
      && (active.None? && mode.id != 0 ==> Activation(ActiveModeId(next), mode) == active)
  {
  }

  class ModeCard {
    var view: View
    var prompt: string
    var isLoading: bool

    constructor()
      ensures view == List && prompt == "" && !isLoading
    {
      view := List;
      prompt := "";
      isLoading := false;
    }

    /** Whether the Create button is disabled. */
    predicate CreateDisabled()
      reads this
    {
      isLoading || Trim(prompt) == ""
    }

    /** The "New" button. */
    method OpenCreate()
      modifies this
      ensures view == Create && prompt == old(prompt) && isLoading == old(isLoading)
    {
      view := Create;
    }

    /** The "Cancel" button, disabled while loading. */
    method Cancel()
      requires !isLoading
      modifies this
      ensures view == List && prompt == old(prompt) && !isLoading
    {
      view := List;
    }

    method EditPrompt(text: string)
      modifies this
      ensures prompt == text && view == old(view) && isLoading == old(isLoading)
    {
      prompt := text;
    }

    /**
      The first half of `handleCreate`: a blank prompt (empty or JavaScript
      white space only) changes nothing; otherwise loading starts and the
      prompt is handed to the App.
    */
    method BeginCreate() returns (submitted: Option<string>)
      modifies this
      ensures AllSpace(old(prompt)) ==> submitted.None? && view == old(view) && prompt == old(prompt) && isLoading == old(isLoading)
      ensures !AllSpace(old(prompt)) ==> submitted == Some(old(prompt)) && isLoading && view == old(view) && prompt == old(prompt)
    {
      TrimEmptyIffAllSpace(prompt);
      if Trim(prompt) == "" {
        return None;
      }
      isLoading := true;
      submitted := Some(prompt);
    }

    /**
      The second half, once the App's handler returns (it never fails: it
      reports its own errors): back to the list with an empty prompt, and
      the Create button disabled.
    */
    method FinishCreate()
      modifies this
      ensures prompt == "" && view == List && !isLoading
      ensures CreateDisabled()
    {
      isLoading := false;
      prompt := "";
      view := List;
    }

    /** The button is disabled exactly while loading or when the prompt is blank. */
    lemma CreateDisabledRule()
      ensures CreateDisabled() <==> isLoading || AllSpace(prompt)
    {
      TrimEmptyIffAllSpace(prompt);
    }

    method ToggleActivation(activeModeId: Option<nat>, mode: CustomFocusMode) returns (activated: Option<CustomFocusMode>)
      ensures activated == Activation(activeModeId, mode)
      ensures activated.None? <==> activeModeId == Some(mode.id)
      ensures activated.Some? ==> activated.value == mode
    {
      if activeModeId == Some(mode.id) {
        activated := None;
      } else {
        activated := Some(mode);
      }
    }
  }
}

/**
 * utils/state_manager.py: the application's state machine. It holds the
 * current state, the selected account id, a dirty flag and the registered
 * observers; a state change updates the main window (when there is one) and
 * notifies the observers, and falls back to ERROR when either raises.
 */
module StateManagement {
  import opened Wrappers

  datatype AppState = INITIALIZING | AUTHENTICATING | READY | EDITING | SEARCHING | LOCKED | ERROR

  /**
   * Which call raises during a state change, if it is made: a main-window
   * method in `_handle_state_change`, or an observer's `on_state_change`.
   */
  datatype Fault = NoFault | WindowFault | ObserverFault

  /** `_handle_state_change` calls into the main window for these states only. */
  predicate TouchesWindow(s: AppState) { s == READY || s == EDITING || s == LOCKED || s == SEARCHING }

  predicate Distinct(s: seq<object>) {
    forall i, j :: 0 <= i < j < |s| ==> s[i] != s[j]
  }

  /** `if account_id`: an id that is present and non-empty. */
  predicate Truthy(id: Option<string>) { id.Some? && id.value != "" }

  class StateManager {
    /** Whether a main window was passed in. */
    const hasWindow: bool
    var currentState: AppState
    var selectedAccount: Option<string>
    var isModified: bool
    var observers: seq<object>

    ghost predicate Valid()
      reads this
    {
      Distinct(observers)
    }

    /** A fresh manager: INITIALIZING, nothing selected, not modified, no observers. */
    constructor(hasWindow: bool)
      ensures this.hasWindow == hasWindow && Valid()
      ensures currentState == INITIALIZING && selectedAccount == None && !isModified && observers == []
    {
      this.hasWindow := hasWindow;
      currentState := INITIALIZING;
      selectedAccount := None;
      isModified := false;
      observers := [];
    }

    /** `register_observer`: append the observer unless it is already registered. */
    method RegisterObserver(observer: object)
      requires Valid()
      modifies this`observers
      ensures Valid()
      ensures observer in old(observers) ==> observers == old(observers)
      ensures observer !in old(observers) ==> observers == old(observers) + [observer]
    {
      if observer !in observers {
        observers := observers + [observer];
      }
    }

    /**
     * `set_state`: the new state, the window-side flag updates, then the
     * notification; a raising window call or observer leaves ERROR. With no
     * window nothing but the state changes.
     */
    method SetState(newState: AppState, fault: Fault)
      modifies this`currentState, this`isModified, this`selectedAccount
      ensures var windowRaises := hasWindow && TouchesWindow(newState) && fault == WindowFault;
        var observerRaises := |observers| > 0 && fault == ObserverFault;
        && currentState == (if windowRaises || observerRaises then ERROR else newState)
        && isModified == (if hasWindow && !windowRaises && newState == READY then false
                          else if hasWindow && !windowRaises && newState == EDITING then true
                          else old(isModified))
        && selectedAccount == (if hasWindow && !windowRaises && newState == LOCKED then None
                               else old(selectedAccount))
    {
      currentState := newState;
      var raised := HandleStateChange(newState, fault);
      if !raised && |observers| > 0 && fault == ObserverFault {
        raised := true;
      }
      if raised {
        currentState := ERROR;
      }
    }

    /** `_handle_state_change`; `raised` reports the window call raising before its flag update. */
    method HandleStateChange(newState: AppState, fault: Fault) returns (raised: bool)
      modifies this`isModified, this`selectedAccount
      ensures raised <==> hasWindow && TouchesWindow(newState) && fault == WindowFault
      ensures !hasWindow ==> isModified == old(isModified) && selectedAccount == old(selectedAccount)
      ensures isModified == (if hasWindow && !raised && newState == READY then false
                             else if hasWindow && !raised && newState == EDITING then true
                             else old(isModified))
      ensures selectedAccount == (if hasWindow && !raised && newState == LOCKED then None else old(selectedAccount))
    {
      raised := false;
      if !hasWindow {
        return;
      }
      if TouchesWindow(newState) && fault == WindowFault {
        return true;
      }
      if newState == READY {
        isModified := false;
      } else if newState == EDITING {
        isModified := true;
      } else if newState == LOCKED {
        selectedAccount := None;
      }
    }

    /**
     * `select_account`: store the id, then go to EDITING for a non-empty id
     * and to READY otherwise.
     */
    method SelectAccount(id: Option<string>, fault: Fault)
      modifies this`currentState, this`isModified, this`selectedAccount
      ensures selectedAccount == id
      ensures var windowRaises := hasWindow && fault == WindowFault;
        var observerRaises := |observers| > 0 && fault == ObserverFault;
        && currentState == (if windowRaises || observerRaises then ERROR
                            else if Truthy(id) then EDITING else READY)
        && isModified == (if hasWindow && !windowRaises then Truthy(id) else old(isModified))
    {
      selectedAccount := id;
      if Truthy(id) {
        SetState(EDITING, fault);
      } else {
        SetState(READY, fault);
      }
    }

    /** `mark_modified`: only a change from clean to dirty moves to EDITING. */
    method MarkModified(fault: Fault)
      modifies this`currentState, this`isModified, this`selectedAccount
      ensures isModified
      ensures old(isModified) ==> currentState == old(currentState) && selectedAccount == old(selectedAccount)
      ensures !old(isModified) ==>
        var windowRaises := hasWindow && fault == WindowFault;
        var observerRaises := |observers| > 0 && fault == ObserverFault;
        currentState == (if windowRaises || observerRaises then ERROR else EDITING)
      ensures selectedAccount == old(selectedAccount)
    {
      if !isModified {
        isModified := true;
        SetState(EDITING, fault);
      }
    }

    /** `is_dirty` */
    function IsDirty(): bool
      reads this
    {
      isModified
    }

    /**
     * `reset`: READY, nothing selected, clean; then the observers are
     * notified outside any handler, so an observer's exception propagates
     * (`raised`) with the new values already in place.
     */
    method Reset(fault: Fault) returns (raised: bool)
      modifies this`currentState, this`isModified, this`selectedAccount
      ensures currentState == READY && selectedAccount == None && !isModified
      ensures raised <==> |observers| > 0 && fault == ObserverFault
    {
      currentState := READY;
      selectedAccount := None;
      isModified := false;
      raised := |observers| > 0 && fault == ObserverFault;
    }
  }
}

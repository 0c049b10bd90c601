/**
 * utils/session_manager.py: the inactivity lock. The session remembers the
 * time of the last activity; a monitor tick locks it once the idle time
 * exceeds the `security.lock_timeout` setting, and unlocking needs the
 * master password.
 *
 * Times are microseconds (the resolution of `datetime`), the timeout is in
 * seconds. The monitor's thread and its one-second sleep are not modelled:
 * `MonitorTick` is one pass of its loop body.
 *
 * As written, two calls fail at run time and are caught: `lock_session`
 * asks the state manager for an attribute `AppState` it does not have, and
 * `unlock_session` imports `verify_master_password`, which
 * auth/authentication.py does not define. `LockSession` and `UnlockSession`
 * model that; `LockSessionIntended` and `UnlockSessionIntended` model the
 * calls as evidently intended, with both faults corrected (`unlock_session`
 * also reads `state_manager.AppState`, so fixing the import alone would
 * still end in the handler, after the unlock, with False).
 */
module SessionManagement {
  import opened Wrappers
  import opened StateManagement

  const MICROS_PER_SECOND: int := 1000000

  /** The default `security.lock_timeout`, in seconds. */
  const DEFAULT_LOCK_TIMEOUT: int := 300

  class SessionManager {
    const stateManager: StateManager
    var isLocked: bool
    /** `last_activity`, in microseconds. */
    var lastActivity: int

    constructor(stateManager: StateManager, now: int)
      ensures this.stateManager == stateManager && !isLocked && lastActivity == now
    {
      this.stateManager := stateManager;
      isLocked := false;
      lastActivity := now;
    }

    /** `get_idle_time`, in microseconds. */
    function IdleTime(now: int): int
      reads this
    {
      now - lastActivity
    }

    /** One pass of `_monitor_session`: lock when unlocked and idle for longer than the timeout. */
    method MonitorTick(now: int, timeoutSeconds: int)
      modifies this`isLocked
      ensures isLocked <==> old(isLocked) || IdleTime(now) > timeoutSeconds * MICROS_PER_SECOND
      ensures lastActivity == old(lastActivity)
    {
      if !isLocked {
        var idle := now - lastActivity;
        if idle > timeoutSeconds * MICROS_PER_SECOND {
          LockSession();
        }
      }
    }

    /** One pass of `_monitor_session` with `lock_session` as intended. */
    method MonitorTickIntended(now: int, timeoutSeconds: int, fault: Fault)
      modifies this`isLocked, stateManager`currentState, stateManager`isModified, stateManager`selectedAccount
      ensures isLocked <==> old(isLocked) || IdleTime(now) > timeoutSeconds * MICROS_PER_SECOND
      ensures lastActivity == old(lastActivity)
      ensures stateManager.isModified == old(stateManager.isModified)
      ensures var locks := !old(isLocked) && IdleTime(now) > timeoutSeconds * MICROS_PER_SECOND;
        var windowRaises := stateManager.hasWindow && fault == WindowFault;
        var observerRaises := |stateManager.observers| > 0 && fault == ObserverFault;
        && stateManager.currentState == (if !locks then old(stateManager.currentState)
                                         else if windowRaises || observerRaises then ERROR
                                         else LOCKED)
        && stateManager.selectedAccount == (if locks && stateManager.hasWindow && !windowRaises then None
                                            else old(stateManager.selectedAccount))
    {
      if !isLocked {
        var idle := now - lastActivity;
        if idle > timeoutSeconds * MICROS_PER_SECOND {
          LockSessionIntended(fault);
        }
      }
    }

    /** `record_activity`: the idle time starts again from zero. */
    method RecordActivity(now: int)
      modifies this`lastActivity
      ensures lastActivity == now && IdleTime(now) == 0
    {
      lastActivity := now;
    }

    /**
     * `lock_session`, as written: `is_locked` is set, then reading
     * `state_manager.AppState` raises AttributeError, which is caught, so the
     * application state is left as it was.
     */
    method LockSession()
      modifies this`isLocked
      ensures isLocked
    {
      if !isLocked {
        isLocked := true;
      }
    }

    /**
     * `lock_session` as intended: a first lock also moves the application
     * to LOCKED through `set_state` (ERROR when the window call or an
     * observer raises; the window clears the selection); locking a locked
     * session does nothing.
     */
    method LockSessionIntended(fault: Fault)
      modifies this`isLocked, stateManager`currentState, stateManager`isModified, stateManager`selectedAccount
      ensures isLocked
      ensures stateManager.isModified == old(stateManager.isModified)
      ensures old(isLocked) ==> stateManager.currentState == old(stateManager.currentState)
                                && stateManager.selectedAccount == old(stateManager.selectedAccount)
      ensures !old(isLocked) ==>
        var windowRaises := stateManager.hasWindow && fault == WindowFault;
        var observerRaises := |stateManager.observers| > 0 && fault == ObserverFault;
        && stateManager.currentState == (if windowRaises || observerRaises then ERROR else LOCKED)
        && stateManager.selectedAccount == (if stateManager.hasWindow && !windowRaises then None
                                            else old(stateManager.selectedAccount))
    {
      if !isLocked {
        isLocked := true;
        stateManager.SetState(LOCKED, fault);
      }
    }

    /**
     * `unlock_session`, as written: the import fails before the password is
     * looked at, the handler returns False and nothing changes, whatever
     * `verify` would say. (Past the import, `state_manager.AppState` would
     * raise in the same way once the session had been unlocked.)
     */
    method UnlockSession(masterPassword: string, verify: string -> bool) returns (ok: bool)
      ensures !ok
    {
      ok := false;
    }

    /**
     * `unlock_session` as intended: a verified password unlocks, records
     * activity and moves the application to READY through `set_state`
     * (ERROR when the window call or an observer raises; the window clears
     * the dirty flag); otherwise False and no change.
     */
    method UnlockSessionIntended(masterPassword: string, verify: string -> bool, now: int, fault: Fault)
      returns (ok: bool)
      modifies this`isLocked, this`lastActivity, stateManager`currentState, stateManager`isModified,
               stateManager`selectedAccount
      ensures ok == verify(masterPassword)
      ensures stateManager.selectedAccount == old(stateManager.selectedAccount)
      ensures ok ==> !isLocked && lastActivity == now
      ensures ok ==>
        var windowRaises := stateManager.hasWindow && fault == WindowFault;
        var observerRaises := |stateManager.observers| > 0 && fault == ObserverFault;
        && stateManager.currentState == (if windowRaises || observerRaises then ERROR else READY)
        && stateManager.isModified == (if stateManager.hasWindow && !windowRaises then false
                                       else old(stateManager.isModified))
      ensures !ok ==> isLocked == old(isLocked) && lastActivity == old(lastActivity)
                      && stateManager.currentState == old(stateManager.currentState)
                      && stateManager.isModified == old(stateManager.isModified)
    {
      if verify(masterPassword) {
        isLocked := false;
        RecordActivity(now);
        stateManager.SetState(READY, fault);
        return true;
      }
      return false;
    }

    /** `get_time_until_lock`, in microseconds. */
    function TimeUntilLock(now: int, timeoutSeconds: int): (r: int)
      reads this
      ensures r >= 0
      ensures r == 0 <==> IdleTime(now) >= timeoutSeconds * MICROS_PER_SECOND
      ensures r > 0 ==> IdleTime(now) + r == timeoutSeconds * MICROS_PER_SECOND
    {
      var remaining := timeoutSeconds * MICROS_PER_SECOND - IdleTime(now);
      if remaining > 0 then remaining else 0
    }

    /** `force_lock`: the same as `lock_session`. */
    method ForceLock()
      modifies this`isLocked
      ensures isLocked
    {
      LockSession();
    }

    /** `reset`: record activity and unlock. */
    method Reset(now: int)
      modifies this`isLocked, this`lastActivity
      ensures !isLocked && lastActivity == now
    {
      RecordActivity(now);
      isLocked := false;
    }
  }

  /**
   * The remaining time reaches 0 one tick before a tick locks: at an idle
   * time of exactly the timeout nothing is left, but the strict comparison
   * does not lock yet.
   */
  lemma LockBoundary(s: SessionManager, now: int, timeoutSeconds: int)
    requires s.IdleTime(now) == timeoutSeconds * MICROS_PER_SECOND
    ensures s.TimeUntilLock(now, timeoutSeconds) == 0
    ensures !(s.IdleTime(now) > timeoutSeconds * MICROS_PER_SECOND)
  {
  }

  /**
   * With the code as written an inactivity lock leaves the application
   * state alone: the session is locked but the window still shows the state
   * it had.
   */
  method LockLeavesStateAlone(now: int) returns (locked: bool, state: AppState)
    ensures locked && state == INITIALIZING
  {
    var sm := new StateManager(true);
    var session := new SessionManager(sm, now);
    session.MonitorTick(now + DEFAULT_LOCK_TIMEOUT * MICROS_PER_SECOND + 1, DEFAULT_LOCK_TIMEOUT);
    locked := session.isLocked;
    state := sm.currentState;
  }

  /**
   * With `lock_session` as intended the same tick, after the same 301 idle
   * seconds, moves the application to LOCKED.
   */
  method IntendedLockReachesState(now: int) returns (locked: bool, state: AppState)
    ensures locked && state == LOCKED
  {
    var sm := new StateManager(true);
    var session := new SessionManager(sm, now);
    session.MonitorTickIntended(now + DEFAULT_LOCK_TIMEOUT * MICROS_PER_SECOND + 1, DEFAULT_LOCK_TIMEOUT, NoFault);
    locked := session.isLocked;
    state := sm.currentState;
  }

  /** As written a locked session can never be unlocked with the right password. */
  method UnlockNeverSucceeds(now: int, password: string) returns (ok: bool, locked: bool)
    ensures !ok && locked
  {
    var sm := new StateManager(true);
    var session := new SessionManager(sm, now);
    session.ForceLock();
    ok := session.UnlockSession(password, p => p == password);
    locked := session.isLocked;
  }

  /** With `unlock_session` as intended the right password unlocks and the application is READY. */
  method IntendedUnlockSucceeds(now: int, password: string) returns (ok: bool, locked: bool, state: AppState)
    ensures ok && !locked && state == READY
  {
    var sm := new StateManager(true);
    var session := new SessionManager(sm, now);
    session.LockSessionIntended(NoFault);
    ok := session.UnlockSessionIntended(password, p => p == password, now, NoFault);
    locked := session.isLocked;
    state := sm.currentState;
  }
}

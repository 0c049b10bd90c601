/**
 * utils/activity_monitor.py: keyboard, mouse and focus events reset the
 * session's inactivity clock. Events closer together than one second are
 * ignored, so the session manager hears of at most one per second.
 *
 * Times are microseconds; the tkinter bindings and the clipboard calls on
 * focus and blur are not modelled.
 */
module ActivityMonitoring {
  import opened StateManagement
  import opened SessionManagement

  /** `total_seconds() > 1`: events within one second of the last recorded one are ignored. */
  const DEBOUNCE: int := 1000000

  class ActivityMonitor {
    const session: SessionManager
    /** `last_activity`, in microseconds. */
    var lastActivity: int

    constructor(session: SessionManager, now: int)
      ensures this.session == session && lastActivity == now
    {
      this.session := session;
      lastActivity := now;
    }

    /** `get_idle_time`, in microseconds. */
    function IdleTime(now: int): int
      reads this
    {
      now - lastActivity
    }

    /**
     * `on_activity`: more than a second after the last recorded event, record
     * this one here and in the session; otherwise change nothing. Either way
     * the monitor is at most one second behind `now` afterwards.
     */
    method OnActivity(now: int)
      modifies this`lastActivity, session`lastActivity
      ensures now - old(lastActivity) > DEBOUNCE ==> lastActivity == now && session.lastActivity == now
      ensures now - old(lastActivity) <= DEBOUNCE ==>
                lastActivity == old(lastActivity) && session.lastActivity == old(session.lastActivity)
      ensures IdleTime(now) <= DEBOUNCE
    {
      if now - lastActivity > DEBOUNCE {
        lastActivity := now;
        session.RecordActivity(now);
      }
    }

    /** `on_window_focus`: the same debounced recording as any other event. */
    method OnWindowFocus(now: int)
      modifies this`lastActivity, session`lastActivity
      ensures now - old(lastActivity) > DEBOUNCE ==> lastActivity == now && session.lastActivity == now
      ensures now - old(lastActivity) <= DEBOUNCE ==>
                lastActivity == old(lastActivity) && session.lastActivity == old(session.lastActivity)
    {
      OnActivity(now);
    }

    /** `reset`: record `now` here and in the session, whatever the last event was. */
    method Reset(now: int)
      modifies this`lastActivity, session`lastActivity
      ensures lastActivity == now && session.lastActivity == now
      ensures IdleTime(now) == 0 && session.IdleTime(now) == 0
    {
      lastActivity := now;
      session.RecordActivity(now);
    }
  }

  /**
   * A burst of events: with the first more than a second after the last
   * recorded one and the second within a second of the first, the session
   * is told only once, at the first.
   */
  method Burst(start: int) returns (sessionSeen: int, monitorSeen: int)
    ensures sessionSeen == start + DEBOUNCE + 1 && monitorSeen == start + DEBOUNCE + 1
  {
    var stateManager := new StateManager(false);
    var session := new SessionManager(stateManager, start);
    var monitor := new ActivityMonitor(session, start);
    monitor.OnActivity(start + DEBOUNCE + 1);
    monitor.OnActivity(start + DEBOUNCE + 1 + DEBOUNCE);
    sessionSeen := session.lastActivity;
    monitorSeen := monitor.lastActivity;
  }
}

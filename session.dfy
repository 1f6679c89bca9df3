/**
 * The idle-session timer of the planner page (class SessionManager in app.js).
 * Any input event records activity; a check that runs once a minute logs the
 * user out after 30 idle minutes and, in the 5 minutes before that, asks once
 * whether to keep the session. The clock is an integer number of
 * milliseconds passed in as `now`; the user's answer to the prompt is passed
 * in as `confirmed`.
 */
module Session {

  /** Idle time after which the user is logged out, in milliseconds. */
  const Timeout: int := 30 * 60 * 1000

  /** Length of the warning window before `Timeout`, in milliseconds. */
  const WarningTime: int := 5 * 60 * 1000

  /** Milliseconds per minute, used to round the time left for the prompt. */
  const MinuteMs: int := 60000

  /** What one periodic check does. */
  datatype Outcome = LogOut | Warn | NoAction

  /** The decision a check takes after `idle` milliseconds without activity. */
  function Decide(idle: int, warningShown: bool): (o: Outcome)
    ensures o == LogOut <==> idle >= Timeout
    ensures o == Warn <==> Timeout - WarningTime <= idle < Timeout && !warningShown
    ensures o == NoAction <==> idle < Timeout - WarningTime || (idle < Timeout && warningShown)
  {
    if idle >= Timeout then LogOut
    else if idle >= Timeout - WarningTime && !warningShown then Warn
    else NoAction
  }

  /**
   * The whole minutes the prompt says are left: the time remaining before
   * `Timeout`, rounded up to a whole number of minutes.
   */
  function RemainingMinutes(idle: int): (m: int)
    ensures (m - 1) * MinuteMs < Timeout - idle <= m * MinuteMs
    ensures Timeout - WarningTime <= idle < Timeout ==> 1 <= m <= 5
  {
    -((idle - Timeout) / MinuteMs)
  }

  /**
   * The timer's state: the last activity time, whether the prompt has been
   * shown in the current idle period, and whether the signed-in user's record
   * is still in local storage.
   */
  datatype SessionState = SessionState(lastActivity: int, warningShown: bool, userStored: bool)

  /** The state after activity at time `now`. */
  function Active(s: SessionState, now: int): (t: SessionState)
    ensures t.lastActivity == now && !t.warningShown && t.userStored == s.userStored
  {
    s.(lastActivity := now, warningShown := false)
  }

  /** The state after a periodic check at time `now`, the prompt (if any) answered `confirmed`. */
  function Checked(s: SessionState, now: int, confirmed: bool): (t: SessionState)
    ensures t.userStored <==> s.userStored && now - s.lastActivity < Timeout
    ensures t.lastActivity != s.lastActivity ==> t.lastActivity == now && !t.warningShown
    ensures t.warningShown && !s.warningShown ==> Decide(now - s.lastActivity, false) == Warn && !confirmed
    ensures t.lastActivity ==
              if Decide(now - s.lastActivity, s.warningShown) == Warn && confirmed then now else s.lastActivity
    ensures t.warningShown ==
              if Decide(now - s.lastActivity, s.warningShown) == Warn then !confirmed else s.warningShown
    ensures Decide(now - s.lastActivity, s.warningShown) == NoAction ==> t == s
  {
    match Decide(now - s.lastActivity, s.warningShown)
    case LogOut => s.(userStored := false)
    case Warn => if confirmed then Active(s, now) else s.(warningShown := true)
    case NoAction => s
  }

  /** What happens to the timer: input activity, or a periodic check. */
  datatype Event = Activity(at: int) | Check(at: int, confirmed: bool)

  /** The state after `ev`. */
  function Step(s: SessionState, ev: Event): SessionState
  {
    match ev
    case Activity(at) => Active(s, at)
    case Check(at, confirmed) => Checked(s, at, confirmed)
  }

  /** Whether `ev` shows the prompt in state `s`. */
  predicate Warns(s: SessionState, ev: Event)
  {
    ev.Check? && Decide(ev.at - s.lastActivity, s.warningShown) == Warn
  }

  /** Whether `ev` starts a new idle period: activity, or a prompt the user confirms. */
  predicate Resets(s: SessionState, ev: Event)
  {
    ev.Activity? || (Warns(s, ev) && ev.confirmed)
  }

  /** The number of prompts shown while `evs` happen, starting in state `s`. */
  function WarningCount(s: SessionState, evs: seq<Event>): nat
    decreases |evs|
  {
    if evs == [] then 0
    else (if Warns(s, evs[0]) then 1 else 0) + WarningCount(Step(s, evs[0]), evs[1..])
  }

  /** The number of idle periods started while `evs` happen, starting in state `s`. */
  function ResetCount(s: SessionState, evs: seq<Event>): nat
    decreases |evs|
  {
    if evs == [] then 0
    else (if Resets(s, evs[0]) then 1 else 0) + ResetCount(Step(s, evs[0]), evs[1..])
  }

  /**
   * At most one prompt per idle period: the prompts shown never outnumber the
   * idle periods started, plus one for the period in progress if it has not
   * been warned yet. With no activity and no confirmed prompt, there is at most
   * one prompt.
   */
  lemma {:induction false} AtMostOneWarningPerIdlePeriod(s: SessionState, evs: seq<Event>)
    ensures WarningCount(s, evs) <= ResetCount(s, evs) + (if s.warningShown then 0 else 1)
    ensures ResetCount(s, evs) == 0 ==> WarningCount(s, evs) <= (if s.warningShown then 0 else 1)
    decreases |evs|
  {
    if evs != [] {
      AtMostOneWarningPerIdlePeriod(Step(s, evs[0]), evs[1..]);
    }
  }

  /** The page's idle-session timer. */
  class SessionManager {
    var lastActivity: int
    var warningShown: bool
    /** Whether local storage still holds the signed-in user's record. */
    var userStored: bool

    /** The timer's state as a value. */
    function State(): SessionState
      reads this
    {
      SessionState(lastActivity, warningShown, userStored)
    }

    /** Starts the timer at time `now`, with no prompt shown. */
    constructor (now: int, signedIn: bool)
      ensures State() == SessionState(now, false, signedIn)
    {
      lastActivity := now;
      warningShown := false;
      userStored := signedIn;
    }

    /** Records input activity at time `now`, which starts a new idle period. */
    method UpdateActivity(now: int)
      modifies this
      ensures State() == Active(old(State()), now)
    {
      lastActivity := now;
      warningShown := false;
    }

    /** The periodic check at time `now`; `confirmed` is the answer to the prompt if one is shown. */
    method CheckTimeout(now: int, confirmed: bool) returns (outcome: Outcome)
      modifies this
      ensures outcome == Decide(now - old(lastActivity), old(warningShown))
      ensures State() == Checked(old(State()), now, confirmed)
    {
      var timeSinceActivity := now - lastActivity;
      if timeSinceActivity >= Timeout {
        Logout();
        outcome := LogOut;
      } else if timeSinceActivity >= Timeout - WarningTime && !warningShown {
        var _ := ShowWarning(now, confirmed);
        outcome := Warn;
      } else {
        outcome := NoAction;
      }
    }

    /**
     * Shows the prompt at time `now`, saying how many minutes are left; a
     * confirmed prompt counts as activity.
     */
    method ShowWarning(now: int, confirmed: bool) returns (minutesLeft: int)
      modifies this
      ensures minutesLeft == RemainingMinutes(now - old(lastActivity))
      ensures State() == if confirmed then Active(old(State()), now)
                         else old(State()).(warningShown := true)
    {
      warningShown := true;
      minutesLeft := RemainingMinutes(now - lastActivity);
      if confirmed {
        UpdateActivity(now);
      }
    }

    /** Removes the signed-in user's record; the page then reloads. */
    method Logout()
      modifies this
      ensures State() == old(State()).(userStored := false)
    {
      userStored := false;
    }
  }
}

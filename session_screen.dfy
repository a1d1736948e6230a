/** The session screen's countdown: the interval lowers the session object's
    `remainingTimeMs` in place once a second until it reaches zero or the
    session is completed, and a one-off probe closes a session that already has
    a submission. */
module SessionScreen {
  import opened Common
  import opened ClientCommon

  /** What the screen works on: the session object's count and completion
      flag (the interval changes them in place), the displayed time, the
      `isSessionComplete` state and whether the interval is still set. */
  datatype Timer = Timer(remainingTimeMs: int, isCompleted: bool, timeLeft: string, isSessionComplete: bool,
    running: bool)

  /** A timer state with the requests sent on the way. */
  datatype TimerEffect = TimerEffect(t: Timer, sent: seq<Request>)

  /** The effect run when the screen receives a session: show its time, copy
      its flag and set the interval. */
  function Start(s: ClientSession): (t: Timer)
    ensures t.running && t.remainingTimeMs == s.remainingTimeMs && t.isCompleted == s.isCompleted
    ensures t.isSessionComplete == s.isCompleted && t.timeLeft == FormatTime(s.remainingTimeMs)
  {
    Timer(s.remainingTimeMs, s.isCompleted, FormatTime(s.remainingTimeMs), s.isCompleted, true)
  }

  /** One firing of the interval. `seen` is the `isSessionComplete` value the
      interval's closure captured when it was set, not the current one. */
  function Tick(t: Timer, seen: bool): Timer
  {
    if !t.running then t
    else if t.remainingTimeMs <= 0 || t.isCompleted || seen then t.(running := false)
    else
      var left := t.remainingTimeMs - 1000;
      t.(remainingTimeMs := left, timeLeft := FormatTime(left), running := left > 0)
  }

  /** A live tick takes exactly one second off and stops the interval when it
      reaches zero or below; once the count is not positive or the session is
      completed, nothing is taken off any more. The flags never change. */
  lemma TickFacts(t: Timer, seen: bool)
    ensures var u := Tick(t, seen);
      && u.isCompleted == t.isCompleted && u.isSessionComplete == t.isSessionComplete
      && (t.running && t.remainingTimeMs > 0 && !t.isCompleted && !seen ==>
           && u.remainingTimeMs == t.remainingTimeMs - 1000
           && u.timeLeft == FormatTime(u.remainingTimeMs)
           && (u.running <==> u.remainingTimeMs > 0))
      && (!(t.running && t.remainingTimeMs > 0 && !t.isCompleted && !seen) ==>
           u == t.(running := false) || u == t)
      && (!t.running ==> u == t)
  {
  }

  /** `n` firings in a row. */
  function Ticks(t: Timer, seen: bool, n: nat): Timer
    decreases n
  {
    if n == 0 then t else Ticks(Tick(t, seen), seen, n - 1)
  }

  /** A stopped interval stays stopped and changes nothing. */
  lemma {:induction false} StoppedStaysStopped(t: Timer, seen: bool, n: nat)
    requires !t.running
    ensures Ticks(t, seen, n) == t
    decreases n
  {
    if n > 0 {
      StoppedStaysStopped(Tick(t, seen), seen, n - 1);
    }
  }

  /** While the count was positive before each of the `n` ticks, they take
      exactly `n` seconds off, and the interval is still set exactly when the
      count is still positive. */
  lemma {:induction false} TicksWhileOpen(t: Timer, n: nat)
    requires t.running && !t.isCompleted && t.remainingTimeMs > 0
    requires 1000 * n < t.remainingTimeMs + 1000
    ensures Ticks(t, false, n).remainingTimeMs == t.remainingTimeMs - 1000 * n
    ensures Ticks(t, false, n).running <==> t.remainingTimeMs - 1000 * n > 0
    ensures !Ticks(t, false, n).isCompleted
    decreases n
  {
    if n > 0 {
      var u := Tick(t, false);
      if u.running {
        TicksWhileOpen(u, n - 1);
      } else {
        assert n == 1;
      }
    }
  }

  /** `ceil(a / 1000)` ticks of one second cover `a` milliseconds, and
      overshoot exactly when `a` is not a whole number of seconds. */
  lemma CeilSeconds(a: int)
    requires a > 0
    ensures var k := (a + 999) / 1000;
      && 1 <= k && a <= 1000 * k < a + 1000
      && (a % 1000 == 0 <==> 1000 * k == a)
  {
    var q, r := a / 1000, a % 1000;
    assert a == 1000 * q + r && 0 <= r < 1000;
    if r == 0 {
      assert a + 999 == 1000 * q + 999;
      assert (a + 999) / 1000 == q;
    } else {
      assert a + 999 == 1000 * (q + 1) + (r - 1);
      assert (a + 999) / 1000 == q + 1;
    }
  }

  /** Left alone, an open session with time on it counts down in whole seconds
      and stops on the first tick that reaches zero or below, after
      `ceil(start / 1000)` ticks, at a count in (-1000, 0]; a start that is not
      a whole number of seconds therefore ends negative. Later ticks change
      nothing. */
  lemma RunDown(s: ClientSession, extra: nat)
    requires s.remainingTimeMs > 0 && !s.isCompleted
    ensures var k := (s.remainingTimeMs + 999) / 1000;
      var last := Ticks(Start(s), false, k);
      && !last.running
      && last.remainingTimeMs == s.remainingTimeMs - 1000 * k
      && -1000 < last.remainingTimeMs <= 0
      && (s.remainingTimeMs % 1000 != 0 <==> last.remainingTimeMs < 0)
      && Ticks(last, false, extra) == last
  {
    var k := (s.remainingTimeMs + 999) / 1000;
    CeilSeconds(s.remainingTimeMs);
    TicksWhileOpen(Start(s), k);
    StoppedStaysStopped(Ticks(Start(s), false, k), false, extra);
  }

  /** `checkSubmission`: for an open session with a team code, probe for a
      submission (`found` is `success && hasSubmission`); with one, mark the
      screen complete, send the completion PUT and, when the PUT did not
      throw, mark the session object completed too. */
  function Reconcile(t: Timer, teamCode: string, found: bool, putOk: bool): TimerEffect
  {
    if t.isCompleted || teamCode == "" then TimerEffect(t, [])
    else if !found then TimerEffect(t, [CheckSubmission(teamCode)])
    else
      var marked := t.(isSessionComplete := true);
      var sent := [CheckSubmission(teamCode), UpdateSession(teamCode, Absent, true)];
      TimerEffect(if putOk then marked.(isCompleted := true) else marked, sent)
  }

  /** The probe runs exactly for an open session with a team code; a
      submission leads to exactly one completion PUT and marks the screen
      complete; the count is never touched. */
  lemma ReconcileFacts(t: Timer, teamCode: string, found: bool, putOk: bool)
    ensures var e := Reconcile(t, teamCode, found, putOk);
      && (e.sent != [] <==> !t.isCompleted && teamCode != "")
      && (e.sent != [] ==> e.sent[0] == CheckSubmission(teamCode))
      && (UpdateSession(teamCode, Absent, true) in e.sent <==> !t.isCompleted && teamCode != "" && found)
      && (!t.isCompleted && teamCode != "" && found ==> e.t.isSessionComplete)
      && (e.t.isCompleted <==> t.isCompleted || (teamCode != "" && found && putOk))
      && e.t.remainingTimeMs == t.remainingTimeMs && e.t.running == t.running
  {
  }

  /** Once the session object is marked completed the next tick stops the
      interval without taking time off; but when the PUT threw, only the
      `isSessionComplete` state is set, which the interval's closure does not
      see, so the countdown goes on. */
  lemma ReconcileAndTick(t: Timer, teamCode: string, putOk: bool)
    requires t.running && !t.isCompleted && teamCode != "" && t.remainingTimeMs > 0
    ensures var u := Reconcile(t, teamCode, true, putOk).t;
      && (putOk ==> Tick(u, false) == u.(running := false))
      && (!putOk ==> Tick(u, false).remainingTimeMs == t.remainingTimeMs - 1000)
  {
  }

  /** The session screen's timer, updated in place. */
  class SessionTimer {
    const teamCode: string
    /** The `isSessionComplete` value the interval's closure captured. */
    const seen: bool
    var remainingTimeMs: int
    var isCompleted: bool
    var timeLeft: string
    var isSessionComplete: bool
    var running: bool

    function State(): Timer
      reads this
    {
      Timer(remainingTimeMs, isCompleted, timeLeft, isSessionComplete, running)
    }

    constructor (s: ClientSession, seenComplete: bool)
      ensures teamCode == s.teamCode && seen == seenComplete
      ensures State() == Start(s)
    {
      teamCode, seen := s.teamCode, seenComplete;
      timeLeft := FormatTime(s.remainingTimeMs);
      isSessionComplete := s.isCompleted;
      remainingTimeMs, isCompleted, running := s.remainingTimeMs, s.isCompleted, true;
    }

    method OnTick()
      modifies this
      ensures State() == Tick(old(State()), seen)
    {
      if !running {
        return;
      }
      if remainingTimeMs <= 0 || isCompleted || seen {
        running := false;
        return;
      }
      var newRemainingTime := remainingTimeMs - 1000;
      remainingTimeMs := newRemainingTime;
      timeLeft := FormatTime(newRemainingTime);
      if newRemainingTime <= 0 {
        running := false;
      }
    }

    method OnCheckSubmission(found: bool, putOk: bool) returns (sent: seq<Request>)
      modifies this
      ensures TimerEffect(State(), sent) == Reconcile(old(State()), teamCode, found, putOk)
    {
      sent := [];
      if !isCompleted && teamCode != "" {
        sent := [CheckSubmission(teamCode)];
        if found {
          isSessionComplete := true;
          sent := sent + [UpdateSession(teamCode, Absent, true)];
          if putOk {
            isCompleted := true;
          }
        }
      }
    }
  }
}

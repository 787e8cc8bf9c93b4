/** The rate limiter of the user interface (src/RateLimiter.cpp): events are delayed, combined and
    served at most once per period.  Times are readings of the steady clock, which are positive. */
module RateLimiter {
  import opened Common

  /** `period` and `delay` as the caller configures them. */
  datatype Config = Config(period: int, delay: int) {
    predicate Valid() {
      0 <= delay <= period
    }
  }

  /** One call of Run(): the time of the trigger, by how much the timer's idea of the present was
      behind then, when it was due and when it was made. */
  datatype Service = Service(asked: int, lag: int, due: int, at: int)

  datatype Pending = Pending(asked: int, lag: int, due: int)

  /** `last` is the clock: zero until the first Run(). */
  datatype State = State(now: int, last: int, timer: Option<Pending>, served: seq<Service>)

  const INITIAL := State(0, 0, None, [])

  /** The timer counts from `base`; an event loop that caches its clock gives an earlier time than
      the clock itself.  A timer may fire late, but not early. */
  datatype Action = Trigger(now: int, base: int) | Cancel(now: int) | Timer(now: int)

  predicate Possible(s: State, a: Action) {
    && 0 < a.now && s.now <= a.now
    && (a.Timer? ==> s.timer.Some? && s.timer.value.due <= a.now)
  }

  /** PeriodClock::Elapsed */
  function Elapsed(last: int, now: int): int {
    if last > 0 then now - last else -1
  }

  function Delay(c: Config, last: int, now: int): int {
    var period, elapsed := c.period - c.delay, Elapsed(last, now);
    if 0 <= elapsed < period then c.delay + (period - elapsed) else c.delay
  }

  function Step(c: Config, s: State, a: Action): State
    requires Possible(s, a)
  {
    match a
    case Trigger(now, base) =>
      if s.timer.Some? then s.(now := now)
      else s.(now := now, timer := Some(Pending(now, now - base, base + Delay(c, s.last, now))))
    case Cancel(now) => s.(now := now, timer := None)
    case Timer(now) =>
      var t := s.timer.value;
      State(now, now, None, s.served + [Service(t.asked, t.lag, t.due, now)])
  }

  ghost predicate IsRun(c: Config, actions: seq<Action>, s: State) {
    if actions == [] then s == INITIAL
    else
      var k := |actions| - 1;
      exists t :: IsRun(c, actions[..k], t) && Possible(t, actions[k]) && s == Step(c, t, actions[k])
  }

  // The invariant

  predicate Timely(c: Config, last: int, asked: int, lag: int, due: int) {
    && c.delay <= due - (asked - lag) <= c.period
    && (last > 0 ==> due >= last + c.period - lag)
  }

  predicate ServedTimely(c: Config, served: seq<Service>, i: nat)
    requires i < |served|
  {
    Timely(c, if i == 0 then 0 else served[i - 1].at, served[i].asked, served[i].lag, served[i].due)
  }

  predicate Inv(c: Config, s: State) {
    && s.last == (if s.served == [] then 0 else s.served[|s.served| - 1].at) <= s.now
    && (forall i :: 0 <= i < |s.served| ==> s.served[i].at > 0 && s.served[i].due <= s.served[i].at)
    && (forall i :: 0 <= i < |s.served| ==> ServedTimely(c, s.served, i))
    && (s.timer.Some? ==>
          s.timer.value.asked <= s.now && Timely(c, s.last, s.timer.value.asked, s.timer.value.lag, s.timer.value.due))
  }

  lemma StepKeeps(c: Config, s: State, a: Action)
    requires c.Valid() && Inv(c, s) && Possible(s, a)
    ensures Inv(c, Step(c, s, a))
  {
    var t := Step(c, s, a);
    forall i | 0 <= i < |t.served|
      ensures ServedTimely(c, t.served, i)
    {
      if i < |s.served| {
        assert ServedTimely(c, s.served, i);
      }
    }
  }

  lemma {:induction false} RunKeeps(c: Config, actions: seq<Action>, s: State)
    requires c.Valid() && IsRun(c, actions, s)
    ensures Inv(c, s)
  {
    if actions != [] {
      var k := |actions| - 1;
      var t :| IsRun(c, actions[..k], t) && Possible(t, actions[k]) && s == Step(c, t, actions[k]);
      hide Inv, Step, Possible;
      RunKeeps(c, actions[..k], t);
      StepKeeps(c, t, actions[k]);
    }
  }

  // The main results

  /** Two calls of Run() are never closer than the period, less what the timer's clock was behind
      when the second was scheduled; timers may be late and triggers cancelled. */
  lemma RunsAreSpaced(c: Config, actions: seq<Action>, s: State, i: nat)
    requires c.Valid() && IsRun(c, actions, s) && i + 1 < |s.served|
    ensures s.served[i + 1].at - s.served[i].at >= c.period - s.served[i + 1].lag
  {
    RunKeeps(c, actions, s);
    hide IsRun;
    assert ServedTimely(c, s.served, i + 1);
  }

  /** The timer that serves a trigger is due after no less than the delay and no more than the
      period, counted from where the event loop's clock is at the trigger.  Counted from the
      trigger itself, Run() may come sooner than the delay, by the lag of that clock. */
  lemma TriggersAreServedInTime(c: Config, actions: seq<Action>, s: State, i: nat)
    requires c.Valid() && IsRun(c, actions, s) && i < |s.served|
    ensures var r := s.served[i];
            && c.delay <= r.due - (r.asked - r.lag) <= c.period && r.due <= r.at
            && c.delay - r.lag <= r.at - r.asked
  {
    RunKeeps(c, actions, s);
    hide IsRun;
    assert ServedTimely(c, s.served, i);
  }

  /** The trace has this trigger. */
  predicate WasAsked(actions: seq<Action>, asked: int, lag: int) {
    exists j :: 0 <= j < |actions| && actions[j] == Trigger(asked, asked - lag)
  }

  /** Run() is only called for a trigger, and what is recorded of the trigger is what happened. */
  lemma {:induction false} ServicesAnswerTriggers(c: Config, actions: seq<Action>, s: State)
    requires IsRun(c, actions, s)
    ensures forall i :: 0 <= i < |s.served| ==> WasAsked(actions, s.served[i].asked, s.served[i].lag)
    ensures s.timer.Some? ==> WasAsked(actions, s.timer.value.asked, s.timer.value.lag)
  {
    if actions != [] {
      var k := |actions| - 1;
      var t :| IsRun(c, actions[..k], t) && Possible(t, actions[k]) && s == Step(c, t, actions[k]);
      ServicesAnswerTriggers(c, actions[..k], t);
      forall asked, lag | WasAsked(actions[..k], asked, lag)
        ensures WasAsked(actions, asked, lag)
      {
        var j :| 0 <= j < k && actions[..k][j] == Trigger(asked, asked - lag);
        assert actions[j] == Trigger(asked, asked - lag);
      }
    }
  }

  // How long a trigger waits

  /** A timer that is due fires within `late`, before anything else happens, and the event loop's
      clock is not ahead. */
  predicate Punctual(s: State, a: Action, late: nat) {
    (s.timer.Some? ==> a.now <= s.timer.value.due + late) && (a.Trigger? ==> a.base <= a.now)
  }

  ghost predicate IsPunctualRun(c: Config, actions: seq<Action>, s: State, late: nat) {
    if actions == [] then s == INITIAL
    else
      var k := |actions| - 1;
      exists t :: IsPunctualRun(c, actions[..k], t, late) && Possible(t, actions[k]) && Punctual(t, actions[k], late)
                  && s == Step(c, t, actions[k])
  }

  /** Run() was called in the time from `asked` to `asked` and `span`. */
  predicate Served(s: State, asked: int, span: int) {
    exists i :: 0 <= i < |s.served| && asked <= s.served[i].at <= asked + span
  }

  /** A timer is pending that is due in time, and that time is not over. */
  predicate Waiting(c: Config, s: State, asked: int, late: nat) {
    s.timer.Some? && s.timer.value.due <= asked + c.period && s.now <= asked + c.period + late
  }

  /** A Cancel() came after the trigger, while it could still be waiting. */
  predicate Cancelled(actions: seq<Action>, j: nat, span: int)
    requires j < |actions|
  {
    exists k :: j < k < |actions| && actions[k].Cancel? && actions[k].now <= actions[j].now + span
  }

  lemma {:induction false} PunctualIsRun(c: Config, actions: seq<Action>, s: State, late: nat)
    requires IsPunctualRun(c, actions, s, late)
    ensures IsRun(c, actions, s) && (s.timer.Some? ==> s.timer.value.lag >= 0)
  {
    if actions != [] {
      var k := |actions| - 1;
      var t :| IsPunctualRun(c, actions[..k], t, late) && Possible(t, actions[k]) && Punctual(t, actions[k], late)
               && s == Step(c, t, actions[k]);
      PunctualIsRun(c, actions[..k], t, late);
    }
  }

  /** Directly after a trigger a timer is pending that is due within a period. */
  lemma TriggerIsPending(c: Config, actions: seq<Action>, s: State, now: int, base: int)
    requires c.Valid() && IsRun(c, actions, s) && Possible(s, Trigger(now, base)) && base <= now
    requires s.timer.Some? ==> s.timer.value.lag >= 0
    ensures var t := Step(c, s, Trigger(now, base)); t.timer.Some? && t.timer.value.due <= now + c.period
  {
    RunKeeps(c, actions, s);
    hide IsRun;
  }

  lemma WaitingGoesOn(c: Config, s: State, a: Action, asked: int, late: nat)
    requires Waiting(c, s, asked, late) && Possible(s, a) && Punctual(s, a, late) && asked <= s.now
    ensures a.now <= asked + c.period + late
    ensures !a.Cancel? ==> Served(Step(c, s, a), asked, c.period + late) || Waiting(c, Step(c, s, a), asked, late)
  {
    if a.Timer? {
      assert Step(c, s, a).served[|s.served|].at == a.now;
    }
  }

  lemma ServedStays(c: Config, s: State, a: Action, asked: int, span: int)
    requires Served(s, asked, span) && Possible(s, a)
    ensures Served(Step(c, s, a), asked, span)
  {
    var i :| 0 <= i < |s.served| && asked <= s.served[i].at <= asked + span;
    assert Step(c, s, a).served[i] == s.served[i];
  }

  /** In every trace with punctual timers, a trigger is served within the period and the lateness
      of the timers, unless it is cancelled before: until then a timer is pending that is due
      within the period. */
  lemma {:induction false} TriggerIsServed(c: Config, actions: seq<Action>, s: State, late: nat, j: nat)
    requires c.Valid() && IsPunctualRun(c, actions, s, late) && j < |actions| && actions[j].Trigger?
    ensures var asked, span := actions[j].now, c.period + late;
            && asked <= s.now
            && (Served(s, asked, span) || Waiting(c, s, asked, late) || Cancelled(actions, j, span))
    decreases |actions|
  {
    var k := |actions| - 1;
    var init, a, asked, span := actions[..k], actions[k], actions[j].now, c.period + late;
    var t :| IsPunctualRun(c, init, t, late) && Possible(t, a) && Punctual(t, a, late) && s == Step(c, t, a);
    PunctualIsRun(c, init, t, late);
    hide IsPunctualRun, IsRun;
    if j == k {
      TriggerIsPending(c, init, t, a.now, a.base);
    } else {
      TriggerIsServed(c, init, t, late, j);
      assert init[j] == actions[j];
      if Served(t, asked, span) {
        ServedStays(c, t, a, asked, span);
      } else if Waiting(c, t, asked, late) {
        WaitingGoesOn(c, t, a, asked, late);
        assert a.Cancel? ==> Cancelled(actions, j, span);
      } else {
        var m :| j < m < |init| && init[m].Cancel? && init[m].now <= asked + span;
        assert actions[m] == init[m];
      }
    }
  }

  /** So once that time is over, a trigger that was not cancelled has been served in it. */
  lemma TriggerWasServed(c: Config, actions: seq<Action>, s: State, late: nat, j: nat)
    requires c.Valid() && IsPunctualRun(c, actions, s, late) && j < |actions| && actions[j].Trigger?
    requires forall k :: j < k < |actions| ==> !actions[k].Cancel?
    ensures s.now > actions[j].now + c.period + late ==> Served(s, actions[j].now, c.period + late)
  {
    TriggerIsServed(c, actions, s, late, j);
  }

  /** When a timer is due: after the delay, or a period after the last Run() if that is later, both
      counted as the timer's clock counts. */
  lemma ScheduleMeaning(c: Config, s: State, now: int, base: int)
    requires c.Valid() && Possible(s, Trigger(now, base)) && s.last <= now
    ensures var t := Step(c, s, Trigger(now, base));
            && t.served == s.served && t.last == s.last && t.now == now
            && (s.timer.Some? ==> t.timer == s.timer)
            && (s.timer.None? ==>
                  var soon, later := base + c.delay, s.last + c.period - (now - base);
                  t.timer.Some? && t.timer.value.asked == now && t.timer.value.lag == now - base
                  && t.timer.value.due == if s.last > 0 && later > soon then later else soon)
  {
  }

  lemma {:induction false} RunIsUnique(c: Config, actions: seq<Action>, s: State, t: State)
    requires IsRun(c, actions, s) && IsRun(c, actions, t)
    ensures s == t
  {
    if actions != [] {
      var k := |actions| - 1;
      var u :| IsRun(c, actions[..k], u) && Possible(u, actions[k]) && s == Step(c, u, actions[k]);
      var v :| IsRun(c, actions[..k], v) && Possible(v, actions[k]) && t == Step(c, v, actions[k]);
      RunIsUnique(c, actions[..k], u, v);
    }
  }

  /** After a Cancel() nothing runs until the next trigger. */
  lemma {:induction false} NoRunAfterCancel(c: Config, actions: seq<Action>, s: State, j: nat, t: State)
    requires IsRun(c, actions, s) && j < |actions| && actions[j].Cancel?
    requires forall k :: j < k < |actions| ==> !actions[k].Trigger?
    requires IsRun(c, actions[..j], t)
    ensures s.served == t.served && s.timer.None? && forall k :: j < k < |actions| ==> !actions[k].Timer?
    decreases |actions|
  {
    var k := |actions| - 1;
    var u :| IsRun(c, actions[..k], u) && Possible(u, actions[k]) && s == Step(c, u, actions[k]);
    if j == k {
      RunIsUnique(c, actions[..j], t, u);
    } else {
      assert actions[..k][..j] == actions[..j];
      NoRunAfterCancel(c, actions[..k], u, j, t);
    }
  }

  /** When exactly a trigger respects the period: if the timer counts from the present, or the last
      Run() is long enough ago to make up for it. */
  lemma PeriodIsRespectedIff(c: Config, s: State, now: int, base: int)
    requires c.Valid() && Possible(s, Trigger(now, base)) && s.timer.None? && 0 < s.last <= now
    ensures Step(c, s, Trigger(now, base)).timer.value.due >= s.last + c.period
            <==> base >= now || base - s.last >= c.period - c.delay
  {
  }

  /** With a period of 10 and a cached clock that is 2 behind, two runs are 8 apart. */
  lemma CachedClockShortensPeriod()
    ensures var actions := [Trigger(1, 1), Timer(1), Trigger(5, 3), Timer(9)];
            exists s :: IsRun(Config(10, 0), actions, s) && |s.served| == 2 && s.served[1].at - s.served[0].at == 8
  {
    var c, actions := Config(10, 0), [Trigger(1, 1), Timer(1), Trigger(5, 3), Timer(9)];
    var s1 := Step(c, INITIAL, actions[0]);
    var s2 := Step(c, s1, actions[1]);
    var s3 := Step(c, s2, actions[2]);
    var s4 := Step(c, s3, actions[3]);
    assert actions[..4] == actions && actions[..4][..3] == actions[..3];
    assert actions[..3][..2] == actions[..2] && actions[..2][..1] == actions[..1] && actions[..1][..0] == [];
    assert IsRun(c, [], INITIAL);
    assert IsRun(c, actions[..1], s1);
    assert IsRun(c, actions[..2], s2);
    assert IsRun(c, actions[..3], s3);
    assert IsRun(c, actions, s4);
  }

  // The program

  class Limiter {
    const config: Config
    var last: int
    var timer: Option<Pending>
    ghost var served: seq<Service>
    ghost var now: int

    ghost function View(): State
      reads this
    {
      State(now, last, timer, served)
    }

    constructor (period: int, delay: int)
      requires 0 <= delay <= period
      ensures View() == INITIAL && config == Config(period, delay) && config.Valid()
    {
      config, last, timer := Config(period, delay), 0, None;
      served, now := [], 0;
    }

    method OnTrigger(now: int, base: int)
      requires Possible(View(), Trigger(now, base))
      modifies this
      ensures View() == Step(config, old(View()), Trigger(now, base))
    {
      this.now := now;
      if timer.Some? {
        return;
      }
      var schedule, period := config.delay, config.period - config.delay;
      var elapsed := Elapsed(last, now);
      if elapsed >= 0 && elapsed < period {
        schedule := schedule + (period - elapsed);
      }
      timer := Some(Pending(now, now - base, base + schedule));
    }

    method OnCancel(now: int)
      requires Possible(View(), Cancel(now))
      modifies this
      ensures View() == Step(config, old(View()), Cancel(now))
    {
      timer := None;
      this.now := now;
    }

    method OnTimer(now: int)
      requires Possible(View(), Timer(now))
      modifies this
      ensures View() == Step(config, old(View()), Timer(now))
    {
      served := served + [Service(timer.value.asked, timer.value.lag, timer.value.due, now)];
      timer, last := None, now;
      this.now := now;
    }
  }
}

/** The watcher that follows whether the third-party provider is enabled: one timer or one transition at a
    time, with retries. Each handler of the event loop is one step; steps interleave freely. */
module Exclusion {
  import opened Wrappers

  /** A transition waits a microtask, then runs `onChange`, then settles. */
  datatype Transition = Idle | Pending(target: bool) | Running(target: bool) | Settling(succeeded: bool)

  /** `timer` is the delay of the armed apply timer, and `stopWaits` tells whether the first `stop` call still
      awaits the transition it found. */
  datatype Watcher = Watcher(
    observed: bool, applied: bool, stopped: bool,
    timer: Option<int>, transition: Transition,
    retryMs: int, retryBaseMs: int,
    stopWaits: bool)

  function Max1(ms: int): int {
    if ms < 1 then 1 else ms
  }

  function Min(a: int, b: int): int {
    if a < b then a else b
  }

  // ----- steps -----

  /** `scheduleApply`. */
  function Schedule(w: Watcher, delayMs: int): Watcher {
    if w.stopped || w.transition != Idle || w.observed == w.applied || w.timer.Some? then w
    else w.(timer := Some(delayMs))
  }

  /** The watcher as created: it adopts the caller's applied state and schedules at once when it differs. */
  function Start(enabled: bool, applied: Option<bool>, retryBase: Option<int>): Watcher {
    var base := Max1(if retryBase.Some? then retryBase.value else 100);
    var known := if applied.Some? then applied.value else enabled;
    Schedule(Watcher(enabled, known, false, None, Idle, base, base, false), 0)
  }

  datatype Step =
    | FileRead(current: Option<bool>)  // a watch event or a poll; None when the read throws
    | TimerFires
    | ChangeStarts
    | ChangeEnds(ok: bool)
    | TransitionSettles
    | Stop

  function Check(w: Watcher, current: Option<bool>): Watcher {
    if w.stopped || current.None? || current.value == w.observed then w
    else Schedule(w.(observed := current.value), 0)
  }

  function Fire(w: Watcher): Watcher {
    if w.timer.None? then w
    else
      var fired := w.(timer := None);
      if w.stopped || w.transition != Idle || w.observed == w.applied then fired
      else fired.(transition := Pending(w.observed))
  }

  function End(w: Watcher, ok: bool): Watcher {
    match w.transition
    case Running(target) =>
      var ended := w.(transition := Settling(ok));
      if !ok then ended
      else ended.(applied := if w.stopped then w.applied else target, retryMs := w.retryBaseMs)
    case _ => w
  }

  function Settle(w: Watcher): Watcher {
    match w.transition
    case Settling(succeeded) =>
      var idle := w.(transition := Idle, stopWaits := false);
      if w.stopped || w.observed == w.applied then idle
      else if succeeded then Schedule(idle, 0)
      else Schedule(idle, w.retryMs).(retryMs := Min(w.retryMs * 2, 5000))
    case _ => w
  }

  /** The first `stop` clears the timer and awaits a transition it finds; a later one returns at once. */
  function StopNow(w: Watcher): Watcher {
    if w.stopped then w else w.(stopped := true, timer := None, stopWaits := w.transition != Idle)
  }

  function Next(w: Watcher, s: Step): Watcher {
    match s
    case FileRead(current) => Check(w, current)
    case TimerFires => Fire(w)
    case ChangeStarts => if w.transition.Pending? then w.(transition := Running(w.transition.target)) else w
    case ChangeEnds(ok) => End(w, ok)
    case TransitionSettles => Settle(w)
    case Stop => StopNow(w)
  }

  function Run(w: Watcher, steps: seq<Step>): Watcher {
    if steps == [] then w else Next(Run(w, steps[..|steps| - 1]), steps[|steps| - 1])
  }

  /** A new watcher is live and idle, takes the caller's applied state or, without one, what it saw, and applies
      at once when they differ; its base delay is the caller's, a tenth of a second by default, and never under a
      millisecond. */
  lemma StartIs(enabled: bool, applied: Option<bool>, retryBase: Option<int>)
    ensures var w := Start(enabled, applied, retryBase);
            && w.observed == enabled && w.applied == (if applied.Some? then applied.value else enabled)
            && !w.stopped && w.transition == Idle && !w.stopWaits
            && w.timer == (if applied == Some(!enabled) then Some(0) else None)
            && w.retryMs == w.retryBaseMs
            && w.retryBaseMs == match retryBase case None => 100 case Some(ms) => if ms >= 1 then ms else 1
  {
  }

  // ----- the invariant -----

  predicate Busy(w: Watcher) {
    w.transition != Idle
  }

  predicate Inv(w: Watcher) {
    && !(w.timer.Some? && Busy(w))
    && (!w.stopped && w.observed != w.applied ==> w.timer.Some? || Busy(w))
    && (w.stopped ==> w.timer.None? && (w.stopWaits <==> Busy(w)))
    && 1 <= w.retryBaseMs && 1 <= w.retryMs <= (if w.retryBaseMs < 5000 then 5000 else w.retryBaseMs)
    && (w.timer.Some? ==>
          w.timer.value == 0 || 1 <= w.timer.value <= (if w.retryBaseMs < 5000 then 5000 else w.retryBaseMs))
  }

  /** The state a run starts from. */
  ghost predicate Started(w: Watcher) {
    exists enabled, applied, retryBase :: w == Start(enabled, applied, retryBase)
  }

  lemma NextKeepsInv(w: Watcher, s: Step)
    requires Inv(w)
    ensures Inv(Next(w, s)) && Next(w, s).retryBaseMs == w.retryBaseMs
  {
  }

  /** In every interleaving: at most one of an armed timer and a running transition; a live watcher whose
      observed and applied states differ always has one of them, so quiescence means they agree; and every
      retry delay lies between a millisecond and the larger of five seconds and the base. */
  lemma {:induction false} EveryRunKeepsInv(w: Watcher, steps: seq<Step>)
    requires Started(w)
    ensures Inv(Run(w, steps))
    ensures var v := Run(w, steps);
            !v.stopped && v.timer.None? && !Busy(v) ==> v.applied == v.observed
  {
    hide Next;
    if steps == [] {
    } else {
      EveryRunKeepsInv(w, steps[..|steps| - 1]);
      NextKeepsInv(Run(w, steps[..|steps| - 1]), steps[|steps| - 1]);
    }
  }

  // ----- stopping -----

  /** How far a transition still is from its end; no step of a stopped watcher raises it. */
  function Distance(t: Transition): nat {
    match t
    case Idle => 0
    case Settling(_) => 1
    case Running(_) => 2
    case Pending(_) => 3
  }

  /** `onChange` is running, or will run without another timer. */
  predicate Committed(w: Watcher) {
    w.transition.Pending? || w.transition.Running?
  }

  /** Once the first `stop` has resolved, no `onChange` runs, and none ever starts. */
  lemma {:induction false} StopIsFinal(w: Watcher, before: seq<Step>, after: seq<Step>)
    requires Started(w) && Run(w, before).stopped && !Run(w, before).stopWaits
    ensures Run(w, before + after).transition == Idle && Run(w, before + after).timer.None?
    ensures Run(w, before + after).stopped && !Run(w, before + after).stopWaits
  {
    if after == [] {
      assert before + after == before;
      EveryRunKeepsInv(w, before);
    } else {
      var front := after[..|after| - 1];
      StopIsFinal(w, before, front);
      assert (before + after)[..|before + after| - 1] == before + front;
    }
  }

  /** A stopped watcher starts no new transition: each step leaves the one in flight where it is or moves it
      on, so the first `stop` resolves after at most three steps of that transition. */
  lemma StoppedOnlyWindsDown(w: Watcher, s: Step)
    requires Inv(w) && w.stopped
    ensures Next(w, s).stopped && Next(w, s).applied == w.applied
    ensures Distance(Next(w, s).transition) <= Distance(w.transition)
    ensures Busy(w) ==> exists t :: Distance(Next(w, t).transition) < Distance(w.transition)
  {
    var onward := match w.transition
      case Pending(_) => ChangeStarts
      case Running(_) => ChangeEnds(true)
      case _ => TransitionSettles;
    assert Busy(w) ==> Distance(Next(w, onward).transition) < Distance(w.transition);
  }

  /** The promise does not extend to a second `stop` call: it resolves at once, and `onChange` is still to
      run or running then exactly when the first one is still waiting on it. */
  lemma SecondStopResolvesEarly(w: Watcher, steps: seq<Step>)
    requires Started(w) && Run(w, steps).stopped
    ensures Next(Run(w, steps), Stop) == Run(w, steps)
    ensures Committed(Run(w, steps)) <==> Run(w, steps).stopWaits && !Run(w, steps).transition.Settling?
  {
    EveryRunKeepsInv(w, steps);
  }

  lemma SecondStopCanSeeAChangeRunning(w: Watcher)
    requires w == Start(true, Some(false), None)
    ensures var v := Next(Next(Next(Next(w, TimerFires), ChangeStarts), Stop), Stop);
            v.stopped && v.transition.Running?
  {
  }

  // ----- what is applied -----

  /** The outcome of the latest change that succeeded before any stop. */
  function LastApplied(w: Watcher, steps: seq<Step>): bool {
    if steps == [] then w.applied
    else
      var front := steps[..|steps| - 1];
      var v := Run(w, front);
      if steps[|steps| - 1] == ChangeEnds(true) && v.transition.Running? && !v.stopped
      then v.transition.target else LastApplied(w, front)
  }

  /** `applied` never claims more than the caller's `onChange` confirmed, and a change is always called with
      a state that differs from it. */
  lemma {:induction false} AppliedIsConfirmed(w: Watcher, steps: seq<Step>)
    requires Started(w)
    ensures Run(w, steps).applied == LastApplied(w, steps)
    ensures Run(w, steps).transition.Pending? ==> Run(w, steps).transition.target != Run(w, steps).applied
    ensures Run(w, steps).transition.Running? ==> Run(w, steps).transition.target != Run(w, steps).applied
  {
    if steps == [] {
    } else {
      AppliedIsConfirmed(w, steps[..|steps| - 1]);
    }
  }

  // ----- what is observed, and how soon it is tried again -----

  /** The latest state the provider's file gave before any stop, or the one at the start. */
  function LastRead(w: Watcher, steps: seq<Step>): bool {
    if steps == [] then w.observed
    else
      var front, s := steps[..|steps| - 1], steps[|steps| - 1];
      if s.FileRead? && s.current.Some? && !Run(w, front).stopped then s.current.value else LastRead(w, front)
  }

  lemma {:induction false} ObservedIsTheLastRead(w: Watcher, steps: seq<Step>)
    ensures Run(w, steps).observed == LastRead(w, steps)
  {
    if steps == [] {
    } else {
      ObservedIsTheLastRead(w, steps[..|steps| - 1]);
    }
  }

  /** The provider is followed: from every live state the timer, and changes that succeed, lead in at most seven
      steps to rest with what was observed applied. */
  lemma LiveWatcherCatchesUp(w: Watcher) returns (steps: seq<Step>)
    requires Inv(w) && !w.stopped
    ensures |steps| <= 7
    ensures forall s :: s in steps ==> s in {TimerFires, ChangeStarts, ChangeEnds(true), TransitionSettles}
    ensures var v := Run(w, steps);
            v.applied == v.observed == w.observed && v.transition == Idle && v.timer.None?
  {
    var ending := match w.transition
      case Idle => []
      case Pending(_) => [ChangeStarts, ChangeEnds(true), TransitionSettles]
      case Running(_) => [ChangeEnds(true), TransitionSettles]
      case Settling(_) => [TransitionSettles];
    var idle := Run(w, ending);
    EndingLeadsToIdle(w, ending);
    if idle.timer.None? {
      steps := ending;
    } else {
      steps := ending + [TimerFires, ChangeStarts, ChangeEnds(true), TransitionSettles];
      CycleApplies(idle);
      RunSplits(w, ending, [TimerFires, ChangeStarts, ChangeEnds(true), TransitionSettles]);
    }
  }

  lemma {:induction false} RunSplits(w: Watcher, front: seq<Step>, rest: seq<Step>)
    ensures Run(w, front + rest) == Run(Run(w, front), rest)
  {
    if rest == [] {
      assert front + rest == front;
    } else {
      hide Next;
      RunSplits(w, front, rest[..|rest| - 1]);
      assert (front + rest)[..|front + rest| - 1] == front + rest[..|rest| - 1];
    }
  }

  lemma EndingLeadsToIdle(w: Watcher, ending: seq<Step>)
    requires Inv(w) && !w.stopped
    requires ending == match w.transition
               case Idle => []
               case Pending(_) => [ChangeStarts, ChangeEnds(true), TransitionSettles]
               case Running(_) => [ChangeEnds(true), TransitionSettles]
               case Settling(_) => [TransitionSettles]
    ensures var v := Run(w, ending);
            && Inv(v) && !v.stopped && v.transition == Idle && v.observed == w.observed
            && (v.timer.None? ==> v.applied == v.observed)
    decreases |ending|
  {
    if ending == [] {
    } else {
      var next := Next(w, ending[0]);
      NextKeepsInv(w, ending[0]);
      EndingLeadsToIdle(next, ending[1..]);
      assert ending[..1][..0] == [] && Run(w, ending[..1]) == next;
      assert ending == ending[..1] + ending[1..];
      RunSplits(w, ending[..1], ending[1..]);
    }
  }

  lemma CycleApplies(w: Watcher)
    requires Inv(w) && !w.stopped && w.transition == Idle && w.timer.Some?
    ensures var v := Run(w, [TimerFires, ChangeStarts, ChangeEnds(true), TransitionSettles]);
            v.applied == v.observed == w.observed && v.transition == Idle && v.timer.None?
  {
    var steps := [TimerFires, ChangeStarts, ChangeEnds(true), TransitionSettles];
    assert steps[..3][..2] == steps[..2] && steps[..2][..1] == steps[..1] && steps[..1][..0] == [];
    assert Run(w, steps[..1]) == Next(w, TimerFires);
    assert Run(w, steps[..2]) == Next(Next(w, TimerFires), ChangeStarts);
    assert Run(w, steps[..3]) == Next(Next(Next(w, TimerFires), ChangeStarts), ChangeEnds(true));
  }

  /** A failed change of a live watcher that is still to follow the provider. */
  predicate Retries(w: Watcher, s: Step) {
    s == TransitionSettles && w.transition == Settling(false) && !w.stopped && w.observed != w.applied
  }

  /** Retries in a row, since the last change that succeeded. */
  function RetriesInARow(w: Watcher, steps: seq<Step>): nat {
    if steps == [] then 0
    else
      var front, s := steps[..|steps| - 1], steps[|steps| - 1];
      if s == ChangeEnds(true) && Run(w, front).transition.Running? then 0
      else RetriesInARow(w, front) + if Retries(Run(w, front), s) then 1 else 0
  }

  function Doubled(base: int, n: nat): int {
    if n == 0 then base else 2 * Doubled(base, n - 1)
  }

  /** The delay before retry `n + 1` of a row: the base at first, then doubled each time up to five seconds. */
  function RetryDelay(base: int, n: nat): int {
    if n == 0 then base else Min(Doubled(base, n), 5000)
  }

  lemma {:induction false} DoubledGrows(base: int, n: nat)
    requires base >= 1
    ensures Doubled(base, n) >= base
  {
    if n == 0 {
    } else {
      DoubledGrows(base, n - 1);
    }
  }

  lemma NextRetryMs(w: Watcher, s: Step)
    ensures Next(w, s).retryBaseMs == w.retryBaseMs
    ensures Next(w, s).retryMs == if s == ChangeEnds(true) && w.transition.Running? then w.retryBaseMs
                                  else if Retries(w, s) then Min(w.retryMs * 2, 5000) else w.retryMs
  {
  }

  lemma NextDelay(base: int, n: nat)
    requires base >= 1
    ensures Min(RetryDelay(base, n) * 2, 5000) == RetryDelay(base, n + 1)
  {
    DoubledGrows(base, n);
  }

  lemma {:induction false} RetryMsIs(w: Watcher, steps: seq<Step>)
    requires Started(w)
    ensures Run(w, steps).retryBaseMs == w.retryBaseMs >= 1
    ensures Run(w, steps).retryMs == RetryDelay(w.retryBaseMs, RetriesInARow(w, steps))
  {
    if steps == [] {
    } else {
      hide Next, RetryDelay, Retries;
      var front := steps[..|steps| - 1];
      RetryMsIs(w, front);
      NextRetryMs(Run(w, front), steps[|steps| - 1]);
      NextDelay(w.retryBaseMs, RetriesInARow(w, front));
      DelayStartsAtTheBase(w.retryBaseMs);
    }
  }

  lemma DelayStartsAtTheBase(base: int)
    ensures RetryDelay(base, 0) == base
  {
  }

  /** A failed change is tried again after exactly that delay; a change that succeeded, or one the file asked for,
      at once. */
  lemma RetriesBackOff(w: Watcher, steps: seq<Step>, s: Step)
    requires Started(w) && Run(w, steps).timer.None? && Next(Run(w, steps), s).timer.Some?
    ensures Next(Run(w, steps), s).timer
         == Some(if Retries(Run(w, steps), s) then RetryDelay(w.retryBaseMs, RetriesInARow(w, steps)) else 0)
    ensures Retries(Run(w, steps), s) || s == TransitionSettles || s.FileRead?
  {
    RetryMsIs(w, steps);
  }

  /** And tried again it is. */
  lemma FailedChangesAreRetried(w: Watcher, s: Step)
    requires Inv(w) && Retries(w, s)
    ensures Next(w, s).timer == Some(w.retryMs) && Next(w, s).transition == Idle
  {
  }

  // ----- the watcher as the code updates it -----

  class ExclusionWatcher {
    var observed: bool
    var applied: bool
    var stopped: bool
    var applyTimer: Option<int>
    var transition: Transition
    var retryMs: int
    const retryBaseMs: int
    var stopWaits: bool

    function State(): Watcher
      reads this
    {
      Watcher(observed, applied, stopped, applyTimer, transition, retryMs, retryBaseMs, stopWaits)
    }

    constructor (enabled: bool, applied: Option<bool>, retryBase: Option<int>)
      ensures State() == Start(enabled, applied, retryBase)
    {
      observed := enabled;
      this.applied := if applied.Some? then applied.value else enabled;
      stopped, applyTimer, transition, stopWaits := false, None, Idle, false;
      retryMs := Max1(if retryBase.Some? then retryBase.value else 100);
      retryBaseMs := Max1(if retryBase.Some? then retryBase.value else 100);
      new;
      ScheduleApply(0);
    }

    method ScheduleApply(delayMs: int)
      modifies this`applyTimer
      ensures State() == Schedule(old(State()), delayMs)
    {
      if stopped || transition != Idle || observed == applied || applyTimer.Some? {
        return;
      }
      applyTimer := Some(delayMs);
    }

    method OnFileRead(current: Option<bool>)
      modifies this`observed, this`applyTimer
      ensures State() == Next(old(State()), FileRead(current))
    {
      if stopped || current.None? {
        return;
      }
      if current.value != observed {
        observed := current.value;
        ScheduleApply(0);
      }
    }

    method OnTimer()
      modifies this`applyTimer, this`transition
      ensures State() == Next(old(State()), TimerFires)
    {
      if applyTimer.None? {
        return;
      }
      applyTimer := None;
      if stopped || transition != Idle || observed == applied {
        return;
      }
      transition := Pending(observed);
    }

    method OnChangeStarts()
      modifies this`transition
      ensures State() == Next(old(State()), ChangeStarts)
    {
      if transition.Pending? {
        transition := Running(transition.target);
      }
    }

    method OnChangeEnds(ok: bool)
      modifies this`applied, this`retryMs, this`transition
      ensures State() == Next(old(State()), ChangeEnds(ok))
    {
      if !transition.Running? {
        return;
      }
      if ok {
        if !stopped {
          applied := transition.target;
        }
        retryMs := retryBaseMs;
      }
      transition := Settling(ok);
    }

    method OnSettled()
      modifies this`transition, this`stopWaits, this`applyTimer, this`retryMs
      ensures State() == Next(old(State()), TransitionSettles)
    {
      if !transition.Settling? {
        return;
      }
      var succeeded := transition.succeeded;
      transition, stopWaits := Idle, false;
      if stopped || observed == applied {
        return;
      }
      if succeeded {
        ScheduleApply(0);
      } else {
        ScheduleApply(retryMs);
        retryMs := Min(retryMs * 2, 5000);
      }
    }

    /** `stop`; the result tells whether this call awaits the transition. */
    method StopWatching() returns (waits: bool)
      modifies this`stopped, this`applyTimer, this`stopWaits
      ensures State() == Next(old(State()), Stop)
      ensures waits == (!old(stopped) && transition != Idle)
    {
      if stopped {
        return false;
      }
      stopped := true;
      applyTimer := None;
      waits := transition != Idle;
      stopWaits := waits;
    }
  }
}

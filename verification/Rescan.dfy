/** The coalescing rescan queue of one chart registry. The queue exists only while a scan runs; requests that
    arrive meanwhile ask for one follow-up. */
module Rescan {
  import opened Wrappers

  /** What happened, in order. A request names its caller and the settings it wants scanned. */
  datatype Event = Requested(caller: nat, deps: nat) | ScanBegan(deps: nat) | ScanEnded(ok: bool)
                 | Resolved(caller: nat) | Rejected(caller: nat)

  /** The queue entry: `running` for a live scan, the latest settings, whether anyone asked since the scan
      began, and the callers that share the completion promise. */
  datatype Queue = Queue(dirty: bool, deps: nat, waiting: seq<nat>)

  /** A registry's queue, if any, with the log of what happened. */
  datatype Registry = Registry(queue: Option<Queue>, log: seq<Event>)

  // ----- steps -----

  /** `rescanCharts`: join the queue, and begin a scan when there was none. The body of the runner executes up
      to its first await before the call returns. */
  function Request(r: Registry, caller: nat, deps: nat): Registry {
    match r.queue
    case Some(q) =>
      Registry(Some(Queue(true, deps, q.waiting + [caller])), r.log + [Requested(caller, deps)])
    case None =>
      Registry(Some(Queue(false, deps, [caller])), r.log + [Requested(caller, deps), ScanBegan(deps)])
  }

  function Answers(waiting: seq<nat>, ok: bool): seq<Event> {
    if waiting == [] then [] else
      var last := waiting[|waiting| - 1];
      Answers(waiting[..|waiting| - 1], ok) + [if ok then Resolved(last) else Rejected(last)]
  }

  /** The scan ends: a follow-up begins when one was asked for, otherwise every caller is answered. A failed
      scan answers them all at once and drops the follow-up. */
  function EndScan(r: Registry, ok: bool): Registry {
    match r.queue
    case None => r
    case Some(q) =>
      if ok && q.dirty then
        Registry(Some(q.(dirty := false)), r.log + [ScanEnded(true), ScanBegan(q.deps)])
      else
        Registry(None, r.log + [ScanEnded(ok)] + Answers(q.waiting, ok))
  }

  datatype Step = Ask(caller: nat, deps: nat) | End(ok: bool)

  function Next(r: Registry, s: Step): Registry {
    match s
    case Ask(caller, deps) => Request(r, caller, deps)
    case End(ok) => EndScan(r, ok)
  }

  function Run(steps: seq<Step>): Registry {
    if steps == [] then Registry(None, []) else Next(Run(steps[..|steps| - 1]), steps[|steps| - 1])
  }

  // ----- what a log says -----

  /** Scans begun and not ended. */
  function Running(log: seq<Event>): int {
    if log == [] then 0 else
      var n := Running(log[..|log| - 1]);
      match log[|log| - 1]
      case ScanBegan(_) => n + 1
      case ScanEnded(_) => n - 1
      case _ => n
  }

  /** Somebody asked since the latest scan began. */
  predicate AskedSince(log: seq<Event>) {
    log != [] && (log[|log| - 1].Requested? || (!log[|log| - 1].ScanBegan? && AskedSince(log[..|log| - 1])))
  }

  /** The settings of the latest request. */
  function LatestDeps(log: seq<Event>): nat {
    if log == [] then 0
    else if log[|log| - 1].Requested? then log[|log| - 1].deps else LatestDeps(log[..|log| - 1])
  }

  /** `caller` asked, a scan began after that, and no later request of the same caller is still unanswered by
      a scan. */
  predicate Served(log: seq<Event>, caller: nat) {
    log != [] && match log[|log| - 1]
      case Requested(c, _) => c != caller && Served(log[..|log| - 1], caller)
      case ScanBegan(_) => Asked(log[..|log| - 1], caller)
      case _ => Served(log[..|log| - 1], caller)
  }

  predicate Asked(log: seq<Event>, caller: nat) {
    exists i :: 0 <= i < |log| && log[i].Requested? && log[i].caller == caller
  }

  /** What the queue promises about the next event after `log`: one scan at a time; a scan begins only if
      somebody asked since the one before began, and with the latest settings; and a caller is resolved only
      after a scan that began at or after its latest call, with no scan running. */
  predicate Allowed(log: seq<Event>, e: Event) {
    match e
    case ScanBegan(deps) => Running(log) == 0 && AskedSince(log) && deps == LatestDeps(log)
    case ScanEnded(_) => Running(log) == 1
    case Resolved(caller) => Served(log, caller) && Running(log) == 0
    case Rejected(_) => Running(log) == 0
    case Requested(_, _) => true
  }

  predicate Kept(log: seq<Event>) {
    log == [] || (Kept(log[..|log| - 1]) && Allowed(log[..|log| - 1], log[|log| - 1]))
  }

  lemma LogEffects(log: seq<Event>, e: Event)
    ensures Running(log + [e]) == Running(log) + if e.ScanBegan? then 1 else if e.ScanEnded? then -1 else 0
    ensures AskedSince(log + [e]) <==> e.Requested? || (!e.ScanBegan? && AskedSince(log))
    ensures LatestDeps(log + [e]) == if e.Requested? then e.deps else LatestDeps(log)
    ensures forall c :: Asked(log + [e], c) <==> Asked(log, c) || (e.Requested? && e.caller == c)
    ensures forall c :: Served(log + [e], c) <==>
              if e.ScanBegan? then Asked(log, c)
              else !(e.Requested? && e.caller == c) && Served(log, c)
    ensures Kept(log + [e]) <==> Kept(log) && Allowed(log, e)
  {
    assert (log + [e])[..|log|] == log;
    forall c ensures Asked(log + [e], c) <==> Asked(log, c) || (e.Requested? && e.caller == c) {
      if e.Requested? && e.caller == c {
        assert (log + [e])[|log|] == e;
      }
      if i :| 0 <= i < |log| && log[i].Requested? && log[i].caller == c {
        assert (log + [e])[i] == log[i];
      }
    }
  }

  // ----- the invariant -----

  predicate Inv(r: Registry) {
    && Kept(r.log)
    && match r.queue
       case None => Running(r.log) == 0
       case Some(q) =>
         && Running(r.log) == 1
         && (q.dirty <==> AskedSince(r.log))
         && q.deps == LatestDeps(r.log)
         && (forall c :: c in q.waiting ==> Asked(r.log, c))
         && (!q.dirty ==> forall c :: c in q.waiting ==> Served(r.log, c))
  }

  lemma {:induction false} AnswersAreAllowed(log: seq<Event>, waiting: seq<nat>, ok: bool)
    requires Kept(log) && Running(log) == 0
    requires ok ==> forall c :: c in waiting ==> Served(log, c)
    ensures Kept(log + Answers(waiting, ok)) && Running(log + Answers(waiting, ok)) == 0
    ensures forall c :: Served(log + Answers(waiting, ok), c) <==> Served(log, c)
  {
    if waiting == [] {
      assert log + [] == log;
    } else {
      var front, caller := waiting[..|waiting| - 1], waiting[|waiting| - 1];
      var e := if ok then Resolved(caller) else Rejected(caller);
      AnswersAreAllowed(log, front, ok);
      assert caller in waiting;
      LogEffects(log + Answers(front, ok), e);
      assert log + Answers(waiting, ok) == log + Answers(front, ok) + [e];
    }
  }

  lemma RequestKeepsInv(r: Registry, caller: nat, deps: nat)
    requires Inv(r)
    ensures Inv(Request(r, caller, deps))
  {
    hide Running, AskedSince, LatestDeps, Served, Asked, Kept;
    var asked := r.log + [Requested(caller, deps)];
    LogEffects(r.log, Requested(caller, deps));
    LogEffects(asked, ScanBegan(deps));
    assert asked + [ScanBegan(deps)] == r.log + [Requested(caller, deps), ScanBegan(deps)];
  }

  lemma EndKeepsInv(r: Registry, ok: bool)
    requires Inv(r)
    ensures Inv(EndScan(r, ok))
  {
    hide Running, AskedSince, LatestDeps, Served, Asked, Kept;
    if r.queue.Some? {
      var q := r.queue.value;
      var ended := r.log + [ScanEnded(ok)];
      LogEffects(r.log, ScanEnded(ok));
      if ok && q.dirty {
        LogEffects(ended, ScanBegan(q.deps));
        assert ended + [ScanBegan(q.deps)] == r.log + [ScanEnded(true), ScanBegan(q.deps)];
      } else {
        AnswersAreAllowed(ended, q.waiting, ok);
      }
    }
  }

  /** For any storm of requests: at most one scan of the registry runs at a time, a scan begins only when
      somebody asked since the one before began, with the latest settings, and every caller that is resolved
      was served by a scan that began at or after its call. */
  lemma {:induction false} EveryRunKeepsItsPromises(steps: seq<Step>)
    ensures Inv(Run(steps)) && 0 <= Running(Run(steps).log) <= 1
  {
    if steps == [] {
    } else {
      hide Next;
      var front := steps[..|steps| - 1];
      EveryRunKeepsItsPromises(front);
      NextKeepsInv(Run(front), steps[|steps| - 1]);
    }
  }

  lemma NextKeepsInv(r: Registry, s: Step)
    requires Inv(r)
    ensures Inv(Next(r, s)) && 0 <= Running(Next(r, s).log) <= 1
  {
    match s
    case Ask(caller, deps) => RequestKeepsInv(r, caller, deps);
    case End(ok) => EndKeepsInv(r, ok);
  }

  // ----- what the promises mean for one log -----

  lemma {:induction false} KeptAt(log: seq<Event>, i: nat)
    requires Kept(log) && i < |log|
    ensures Allowed(log[..i], log[i])
  {
    if i == |log| - 1 {
    } else {
      KeptAt(log[..|log| - 1], i);
      assert log[..|log| - 1][..i] == log[..i];
    }
  }

  /** Between two scans that begin there is a request: any number of requests during one scan buy one
      follow-up, and it buys no other. */
  lemma FollowUpsNeedRequests(log: seq<Event>, i: nat, j: nat) returns (k: nat)
    requires Kept(log) && i < j < |log| && log[i].ScanBegan? && log[j].ScanBegan?
    ensures i < k < j && log[k].Requested?
  {
    KeptAt(log, j);
    k := RequestAfter(log, i, j);
  }

  lemma {:induction false} RequestAfter(log: seq<Event>, i: nat, j: nat) returns (k: nat)
    requires i < j <= |log| && log[i].ScanBegan? && AskedSince(log[..j])
    ensures i < k < j && log[k].Requested?
    decreases j
  {
    assert log[..j][..j - 1] == log[..j - 1];
    if log[j - 1].Requested? {
      k := j - 1;
    } else {
      k := RequestAfter(log, i, j - 1);
    }
  }

  /** A resolved caller's latest call comes before the beginning of some scan that ended before the answer. */
  lemma ResolvedMeansScanned(log: seq<Event>, i: nat, j: nat) returns (k: nat)
    requires Kept(log) && i < j < |log| && log[j].Resolved?
    requires log[i].Requested? && log[i].caller == log[j].caller
    requires forall m :: i < m < j && log[m].Requested? ==> log[m].caller != log[j].caller
    ensures i < k < j && log[k].ScanBegan?
  {
    KeptAt(log, j);
    k := ScanAfter(log, i, j, log[j].caller);
  }

  lemma {:induction false} ScanAfter(log: seq<Event>, i: nat, j: nat, caller: nat) returns (k: nat)
    requires i < j <= |log| && log[i].Requested? && log[i].caller == caller && Served(log[..j], caller)
    ensures i < k < j && log[k].ScanBegan?
    decreases j
  {
    assert log[..j][..j - 1] == log[..j - 1];
    if log[j - 1].ScanBegan? {
      k := j - 1;
    } else {
      k := ScanAfter(log, i, j - 1, caller);
    }
  }

  // ----- storms and answers -----

  function Asks(r: Registry, asks: seq<Step>): Registry {
    if asks == [] then r else Next(Asks(r, asks[..|asks| - 1]), asks[|asks| - 1])
  }

  function Callers(asks: seq<Step>): seq<nat>
    requires forall a :: a in asks ==> a.Ask?
  {
    if asks == [] then [] else Callers(asks[..|asks| - 1]) + [asks[|asks| - 1].caller]
  }

  /** However many requests arrive during a scan, they begin no scan themselves, the one follow-up uses the
      last one's settings, and when it succeeds undisturbed it answers everybody who waited. */
  lemma {:induction false} StormsCollapse(r: Registry, asks: seq<Step>)
    requires r.queue.Some? && asks != [] && forall a :: a in asks ==> a.Ask?
    ensures var stormy := Asks(r, asks);
            var follow := EndScan(stormy, true);
            && stormy.queue == Some(Queue(true, asks[|asks| - 1].deps, r.queue.value.waiting + Callers(asks)))
            && follow.log == stormy.log + [ScanEnded(true), ScanBegan(asks[|asks| - 1].deps)]
            && EndScan(follow, true).queue.None?
            && EndScan(follow, true).log
               == follow.log + [ScanEnded(true)] + Answers(r.queue.value.waiting + Callers(asks), true)
  {
    var front := asks[..|asks| - 1];
    if front == [] {
      assert Asks(r, front) == r;
      assert Callers(asks) == [asks[0].caller];
    } else {
      StormsCollapse(r, front);
      assert r.queue.value.waiting + Callers(asks)
          == r.queue.value.waiting + Callers(front) + [asks[|asks| - 1].caller];
    }
  }

  // ----- failures -----

  /** What the end of a scan adds to the log. */
  function Ending(r: Registry, ok: bool): seq<Event>
    ensures EndScan(r, ok).log == r.log + Ending(r, ok)
  {
    match r.queue
    case None => []
    case Some(q) =>
      if ok && q.dirty then [ScanEnded(true), ScanBegan(q.deps)] else [ScanEnded(ok)] + Answers(q.waiting, ok)
  }

  /** Everyone who waits gets an answer of their own, one for each call, and all of one kind. */
  lemma {:induction false} AnswersAre(waiting: seq<nat>, ok: bool, caller: nat)
    ensures multiset(Answers(waiting, ok))[if ok then Resolved(caller) else Rejected(caller)]
         == multiset(waiting)[caller]
    ensures forall e :: e in Answers(waiting, ok) ==> if ok then e.Resolved? else e.Rejected?
  {
    if waiting == [] {
    } else {
      var front, last := waiting[..|waiting| - 1], waiting[|waiting| - 1];
      AnswersAre(front, ok, caller);
      assert waiting == front + [last];
    }
  }

  predicate Follows(ending: seq<Event>) {
    exists e :: e in ending && e.ScanBegan?
  }

  lemma EndingIs(r: Registry, ok: bool)
    requires r.queue.Some?
    ensures Follows(Ending(r, ok)) <==> ok && r.queue.value.dirty
  {
    hide Answers;
    if ok && r.queue.value.dirty {
      assert Ending(r, ok)[1].ScanBegan?;
    } else {
      AnswersAre(r.queue.value.waiting, ok, 0);
    }
  }

  lemma FailureRejects(r: Registry, caller: nat)
    requires r.queue.Some?
    ensures multiset(Ending(r, false))[Rejected(caller)] == multiset(r.queue.value.waiting)[caller]
  {
    hide Answers;
    AnswersAre(r.queue.value.waiting, false, caller);
  }

  /** In every reachable state with a scan running, its end begins a follow-up if and only if the scan
      succeeded and somebody asked since it began. */
  lemma FollowUpIff(steps: seq<Step>, ok: bool)
    requires Run(steps).queue.Some?
    ensures Follows(Ending(Run(steps), ok)) <==> ok && AskedSince(Run(steps).log)
  {
    hide Ending;
    EveryRunKeepsItsPromises(steps);
    EndingIs(Run(steps), ok);
  }

  lemma {:induction false} AsksAreARun(steps: seq<Step>, asks: seq<Step>)
    ensures Asks(Run(steps), asks) == Run(steps + asks)
  {
    if asks == [] {
      assert steps + asks == steps;
    } else {
      var front, last := asks[..|asks| - 1], asks[|asks| - 1];
      AsksAreARun(steps, front);
      assert steps + asks == steps + front + [last];
      assert (steps + asks)[..|steps + asks| - 1] == steps + front;
    }
  }

  /** Requests made during a scan get their follow-up if and only if that scan succeeds. When it fails, no
      scan begins, and each of those callers and of those who waited before them is rejected, once for each
      call. */
  lemma FailureDropsTheFollowUp(steps: seq<Step>, asks: seq<Step>, ok: bool)
    requires Run(steps).queue.Some? && asks != [] && forall a :: a in asks ==> a.Ask?
    ensures var ending := Ending(Run(steps + asks), ok);
            && (Follows(ending) <==> ok)
            && (!ok ==> EndScan(Run(steps + asks), ok).queue.None?)
            && (!ok ==> forall caller :: multiset(ending)[Rejected(caller)]
                                      == multiset(Run(steps).queue.value.waiting + Callers(asks))[caller])
  {
    hide Run, Ending, Follows, Asks;
    AsksAreARun(steps, asks);
    StormsCollapse(Run(steps), asks);
    var r := Run(steps + asks);
    EndingIs(r, ok);
    if !ok {
      forall caller ensures multiset(Ending(r, ok))[Rejected(caller)] == multiset(r.queue.value.waiting)[caller] {
        FailureRejects(r, caller);
      }
    }
  }

  /** One such run: a second caller asks during a scan that then fails, and gets a rejection in place of the
      scan it asked for. */
  lemma FollowUpCanBeDropped()
    ensures var r := Run([Ask(1, 5), Ask(2, 6), End(false)]);
            && r.queue.None?
            && r.log == [Requested(1, 5), ScanBegan(5), Requested(2, 6), ScanEnded(false), Rejected(1), Rejected(2)]
  {
    var one, two, all := [Ask(1, 5)], [Ask(1, 5), Ask(2, 6)], [Ask(1, 5), Ask(2, 6), End(false)];
    assert one[..0] == [] && two[..1] == one && all[..2] == two;
    assert Run(one) == Request(Registry(None, []), 1, 5);
    assert Run(two) == Request(Run(one), 2, 6);
    assert Run(all) == EndScan(Run(two), false);
    assert Run(two).queue.value.waiting == [1, 2];
    assert [1][..0] == [] && [1, 2][..1] == [1];
    assert Answers([1, 2], false) == Answers([1], false) + [Rejected(2)];
  }

  // ----- every caller is answered -----

  /** Calls of `caller` that are not yet answered. */
  function OwedTo(log: seq<Event>, caller: nat): int {
    if log == [] then 0 else
      var owed := OwedTo(log[..|log| - 1], caller);
      match log[|log| - 1]
      case Requested(c, _) => owed + if c == caller then 1 else 0
      case Resolved(c) => owed - if c == caller then 1 else 0
      case Rejected(c) => owed - if c == caller then 1 else 0
      case _ => owed
  }

  lemma OwedToPush(log: seq<Event>, e: Event, caller: nat)
    ensures OwedTo(log + [e], caller)
         == OwedTo(log, caller) + match e
                                  case Requested(c, _) => if c == caller then 1 else 0
                                  case Resolved(c) => if c == caller then -1 else 0
                                  case Rejected(c) => if c == caller then -1 else 0
                                  case _ => 0
  {
    assert (log + [e])[..|log|] == log;
  }

  lemma {:induction false} AnswersSettle(log: seq<Event>, waiting: seq<nat>, ok: bool, caller: nat)
    ensures OwedTo(log + Answers(waiting, ok), caller) == OwedTo(log, caller) - multiset(waiting)[caller]
  {
    hide OwedTo;
    if waiting == [] {
      assert log + [] == log;
    } else {
      var front, last := waiting[..|waiting| - 1], waiting[|waiting| - 1];
      var e := if ok then Resolved(last) else Rejected(last);
      AnswersSettle(log, front, ok, caller);
      OwedToPush(log + Answers(front, ok), e, caller);
      assert log + Answers(waiting, ok) == log + Answers(front, ok) + [e];
      assert waiting == front + [last];
    }
  }

  /** The callers owed an answer are those waiting, each as often as it called. */
  predicate Balanced(r: Registry, caller: nat) {
    OwedTo(r.log, caller) == match r.queue case None => 0 case Some(q) => multiset(q.waiting)[caller]
  }

  lemma NextKeepsBalance(r: Registry, s: Step, caller: nat)
    requires Balanced(r, caller)
    ensures Balanced(Next(r, s), caller)
  {
    hide OwedTo;
    match s
    case Ask(c, deps) =>
      var one := r.log + [Requested(c, deps)];
      OwedToPush(r.log, Requested(c, deps), caller);
      OwedToPush(one, ScanBegan(deps), caller);
      assert one + [ScanBegan(deps)] == r.log + [Requested(c, deps), ScanBegan(deps)];
    case End(ok) =>
      if r.queue.Some? {
        var q := r.queue.value;
        var one := r.log + [ScanEnded(ok)];
        OwedToPush(r.log, ScanEnded(ok), caller);
        OwedToPush(one, ScanBegan(q.deps), caller);
        assert one + [ScanBegan(q.deps)] == r.log + [ScanEnded(ok), ScanBegan(q.deps)];
        AnswersSettle(one, q.waiting, ok, caller);
      }
  }

  /** Every call is answered once, to the caller that made it: in every state each caller is owed exactly as
      many answers as it has places in the queue, and none when no scan is running. */
  lemma {:induction false} EveryRequestIsAnsweredOnce(steps: seq<Step>, caller: nat)
    ensures var r := Run(steps);
            OwedTo(r.log, caller) == match r.queue case None => 0 case Some(q) => multiset(q.waiting)[caller]
  {
    if steps == [] {
    } else {
      hide Next;
      EveryRequestIsAnsweredOnce(steps[..|steps| - 1], caller);
      NextKeepsBalance(Run(steps[..|steps| - 1]), steps[|steps| - 1], caller);
    }
  }

  // ----- the queue as the code updates it -----

  class ScanQueue {
    var running: bool
    var dirty: bool
    var deps: nat
    var waiting: seq<nat>
    var log: seq<Event>

    function State(): Registry
      reads this
    {
      Registry(if running then Some(Queue(dirty, deps, waiting)) else None, log)
    }

    constructor ()
      ensures State() == Registry(None, [])
    {
      running, dirty, deps, waiting, log := false, false, 0, [], [];
    }

    method RescanCharts(caller: nat, deps: nat)
      modifies this
      ensures State() == Request(old(State()), caller, deps)
    {
      waiting := if running then waiting + [caller] else [caller];
      this.deps := deps;
      dirty := true;
      log := log + [Requested(caller, deps)];
      if !running {
        running := true;
        dirty := false;
        log := log + [ScanBegan(this.deps)];
        assert log == old(log) + [Requested(caller, deps), ScanBegan(deps)];
      }
    }

    /** The runner goes on from its await: the loop's next turn, or the end of the promise. */
    method ScanFinished(ok: bool)
      modifies this
      ensures State() == EndScan(old(State()), ok)
    {
      if !running {
        return;
      }
      log := log + [ScanEnded(ok)];
      if ok && dirty {
        dirty := false;
        log := log + [ScanBegan(deps)];
        assert log == old(log) + [ScanEnded(true), ScanBegan(deps)];
        return;
      }
      dirty := false;
      log := log + Answers(waiting, ok);
      running, waiting := false, [];
    }
  }
}

/** The host-side health monitor: failure counting, the restart of a wedged container, the restore of its
    configuration, and the cooldown between recovery attempts. */
module HostHealth {
  import opened Wrappers

  type Address = string

  /** What the monitor reports through `onState`. */
  datatype Health = Healthy | HostUnreachable(failureCount: nat) | Restarting | Restoring
                  | ContainerUnhealthy | Recovered | RecoveryFailed

  datatype Config = Config(failureThreshold: nat, cooldown: int)

  /** The parameters the constructor accepts. */
  predicate Accepted(c: Config) {
    c.failureThreshold > 0 && c.cooldown >= 0
  }

  /** What happened, in order. `Started` is the clock reading a recovery attempt's cooldown runs from. */
  datatype Event = HostProbed(ok: bool) | ContainerProbed(ok: bool) | Started(at: int) | Restored(ok: bool)
                 | AddressChanged(address: Option<Address>) | Reported(health: Health) | Stopped

  /** The awaited calls of a check, where a `stop` can land. */
  datatype Call = HostProbe | Restore | ContainerProbe | Restart | Reprobe | FinalRestore

  /** One check's surroundings: the replies of the calls it makes (`None` for one that throws), the two clock
      readings of an attempt, and the call during which `stop` lands, if any. */
  datatype Surroundings = Surroundings(
    address: Option<Address>,
    host: Option<bool>, unconfigured: bool,
    checkedAt: int, startedAt: int,
    restored: bool,
    container: Option<bool>,
    restart: Option<Option<Address>>,
    reprobe: Option<bool>,
    finalRestored: bool,
    stopDuring: Option<Call>)

  datatype Monitor = Monitor(
    disposed: bool, failures: nat, nextRecoveryAt: int,
    restorePending: Option<Address>, recoveryPending: bool, log: seq<Event>)

  // ----- one check -----

  function Log(m: Monitor, e: Event): Monitor {
    m.(log := m.log + [e])
  }

  /** The end of an awaited call. */
  function Resume(m: Monitor, call: Call, s: Surroundings): Monitor {
    if s.stopDuring == Some(call) then Log(m.(disposed := true), Stopped) else m
  }

  function Settle(m: Monitor, health: Health): Monitor {
    Log(m.(failures := 0, nextRecoveryAt := 0), Reported(health))
  }

  /** A restore went through. */
  function Recover(m: Monitor): Monitor {
    Settle(m.(restorePending := None, recoveryPending := false), Recovered)
  }

  function Fail(m: Monitor): Monitor {
    if m.disposed then m else Log(m, Reported(RecoveryFailed))
  }

  function Begin(c: Config, m: Monitor, s: Surroundings): Monitor {
    Log(m.(nextRecoveryAt := s.startedAt + c.cooldown), Started(s.startedAt))
  }

  function OnHealthy(c: Config, m: Monitor, s: Surroundings): Monitor
    requires s.address.Some?
  {
    var owed := if s.unconfigured || (m.recoveryPending && m.restorePending.None?) then s.address else m.restorePending;
    var noted := m.(restorePending := owed);
    if owed.None? then Settle(noted, Healthy)
    else if s.checkedAt < m.nextRecoveryAt then noted
    else
      var asked := Log(Log(Begin(c, noted, s), Reported(Restoring)), Restored(s.restored));
      var back := Resume(asked, Restore, s);
      if back.disposed then back else if s.restored then Recover(back) else Fail(back)
  }

  function OnUnhealthy(c: Config, m: Monitor, s: Surroundings): Monitor {
    var counted := m.(failures := if m.failures + 1 < c.failureThreshold then m.failures + 1 else c.failureThreshold);
    if counted.failures < c.failureThreshold then Log(counted, Reported(HostUnreachable(counted.failures)))
    else if s.checkedAt < m.nextRecoveryAt then counted
    else
      OnBegun(Begin(c, Log(counted, Reported(HostUnreachable(counted.failures))), s), s)
  }

  /** The container is probed once per outage: a pending recovery goes straight to the restart. */
  function OnBegun(m: Monitor, s: Surroundings): Monitor {
    if m.recoveryPending then OnRestart(m, s)
    else
      var back := Resume(Log(m, ContainerProbed(s.container == Some(true))), ContainerProbe, s);
      if back.disposed then back
      else if s.container != Some(true) then Log(back, Reported(ContainerUnhealthy))
      else OnRestart(back.(recoveryPending := true), s)
  }

  function OnRestart(m: Monitor, s: Surroundings): Monitor {
    var back := Resume(Log(m, Reported(Restarting)), Restart, s);
    if back.disposed then back else OnRestarted(back, s)
  }

  function OnRestarted(m: Monitor, s: Surroundings): Monitor {
    match s.restart
    case None => Fail(m)
    case Some(address) =>
      var told := Log(m, AddressChanged(address));
      if address.None? then Fail(told) else OnReprobe(told.(restorePending := address), s)
  }

  function OnReprobe(m: Monitor, s: Surroundings): Monitor {
    var back := Resume(m, Reprobe, s);
    if s.reprobe != Some(true) then Fail(back)
    else
      var asked := Log(Log(back, Reported(Restoring)), Restored(s.finalRestored));
      var done := Resume(asked, FinalRestore, s);
      if done.disposed then done else if s.finalRestored then Recover(done) else Fail(done)
  }

  /** `runCheck`. */
  function Check(c: Config, m: Monitor, s: Surroundings): Monitor {
    if m.disposed || s.address.None? then m
    else
      var back := Resume(Log(m, HostProbed(s.host == Some(true))), HostProbe, s);
      if back.disposed then back
      else if s.host == Some(true) then OnHealthy(c, back, s)
      else OnUnhealthy(c, back, s)
  }

  function Start(restoreFirst: Option<Address>): Monitor {
    Monitor(false, 0, 0, restoreFirst, false, [])
  }

  /** Checks never overlap: each waits for the one before. */
  function Run(c: Config, restoreFirst: Option<Address>, checks: seq<Surroundings>): Monitor {
    if checks == [] then Start(restoreFirst)
    else Check(c, Run(c, restoreFirst, checks[..|checks| - 1]), checks[|checks| - 1])
  }

  // ----- what one undisturbed check reports -----

  function Outcome(restored: bool): Event {
    Reported(if restored then Recovered else RecoveryFailed)
  }

  /** A healthy probe with something owed, an unconfigured host, a recovery under way or an address to restore,
      leads to a restore once the cooldown is over, and to nothing before; with nothing owed it is reported. */
  lemma HealthyCheckReports(c: Config, m: Monitor, s: Surroundings)
    requires !m.disposed && s.address.Some? && s.host == Some(true) && s.stopDuring.None?
    ensures var after := Check(c, m, s);
            var owed := s.unconfigured || m.recoveryPending || m.restorePending.Some?;
            var due := s.checkedAt >= m.nextRecoveryAt;
            && after.log == m.log + [HostProbed(true)]
                 + (if !owed then [Reported(Healthy)]
                    else if !due then []
                    else [Started(s.startedAt), Reported(Restoring), Restored(s.restored), Outcome(s.restored)])
            && (if !owed || (due && s.restored)
                then && after.failures == 0 && after.nextRecoveryAt == 0
                     && after.restorePending.None? && !after.recoveryPending
                else && after.failures == m.failures && after.recoveryPending == m.recoveryPending
                     && after.restorePending
                        == (if !s.unconfigured && m.restorePending.Some? then m.restorePending else s.address)
                     && after.nextRecoveryAt == if due then s.startedAt + c.cooldown else m.nextRecoveryAt)
            && !after.disposed
  {
  }

  /** What a restart and what follows it report. */
  function RestartEvents(s: Surroundings): seq<Event> {
    [Reported(Restarting)]
    + match s.restart
      case None => [Reported(RecoveryFailed)]
      case Some(None) => [AddressChanged(None), Reported(RecoveryFailed)]
      case Some(address) =>
        [AddressChanged(address)]
        + if s.reprobe == Some(true)
          then [Reported(Restoring), Restored(s.finalRestored), Outcome(s.finalRestored)]
          else [Reported(RecoveryFailed)]
  }

  lemma RestartReports(m: Monitor, s: Surroundings)
    requires !m.disposed && s.stopDuring.None?
    ensures OnRestart(m, s).log == m.log + RestartEvents(s)
  {
  }

  lemma BegunReports(m: Monitor, s: Surroundings)
    requires !m.disposed && s.stopDuring.None?
    ensures OnBegun(m, s).log
         == m.log + (if m.recoveryPending then [] else [ContainerProbed(s.container == Some(true))])
            + if m.recoveryPending || s.container == Some(true)
              then RestartEvents(s) else [Reported(ContainerUnhealthy)]
  {
    hide OnRestart, RestartEvents;
    if m.recoveryPending {
      RestartReports(m, s);
    } else {
      RestartReports(Log(m, ContainerProbed(true)).(recoveryPending := true), s);
    }
  }

  /** A failed probe below the threshold is reported with its count. At the threshold, once the cooldown is over,
      it starts a recovery: the container is probed unless one is under way already, and restarted if healthy. */
  lemma UnhealthyCheckReports(c: Config, m: Monitor, s: Surroundings)
    requires m.failures <= c.failureThreshold
    requires !m.disposed && s.address.Some? && s.host != Some(true) && s.stopDuring.None?
    ensures var after := Check(c, m, s);
            var count := if m.failures < c.failureThreshold then m.failures + 1 else c.failureThreshold;
            var restarts := m.recoveryPending || s.container == Some(true);
            after.log == m.log + [HostProbed(false)]
              + (if count < c.failureThreshold then [Reported(HostUnreachable(count))]
                 else if s.checkedAt < m.nextRecoveryAt then []
                 else [Reported(HostUnreachable(count)), Started(s.startedAt)]
                      + (if m.recoveryPending then [] else [ContainerProbed(s.container == Some(true))])
                      + if restarts then RestartEvents(s) else [Reported(ContainerUnhealthy)])
  {
    hide OnBegun, RestartEvents;
    if m.failures + 1 >= c.failureThreshold && s.checkedAt >= m.nextRecoveryAt {
      var counted := Log(m, HostProbed(false)).(failures := c.failureThreshold);
      BegunReports(Begin(c, Log(counted, Reported(HostUnreachable(c.failureThreshold))), s), s);
    }
  }

  /** How such a check leaves the monitor: cleared by a restore that succeeds, and otherwise with the failure
      counted, the cooldown running from an attempt that began, and a recovery under way, to the address the
      restart gave if it gave one, once the container was restarted. */
  lemma UnhealthyCheckLeaves(c: Config, m: Monitor, s: Surroundings)
    requires m.failures <= c.failureThreshold
    requires !m.disposed && s.address.Some? && s.host != Some(true) && s.stopDuring.None?
    ensures var after := Check(c, m, s);
            var count := if m.failures < c.failureThreshold then m.failures + 1 else c.failureThreshold;
            var begins := count == c.failureThreshold && s.checkedAt >= m.nextRecoveryAt;
            var restarts := begins && (m.recoveryPending || s.container == Some(true));
            var moved := restarts && s.restart.Some? && s.restart.value.Some?;
            if moved && s.reprobe == Some(true) && s.finalRestored
            then after == Monitor(false, 0, 0, None, false, after.log)
            else after == Monitor(false, count, if begins then s.startedAt + c.cooldown else m.nextRecoveryAt,
                                  if moved then s.restart.value else m.restorePending,
                                  m.recoveryPending || restarts, after.log)
  {
  }

  // ----- what a log says -----

  predicate Clears(e: Event) {
    e == Reported(Healthy) || e == Reported(Recovered)
  }

  /** Failed host probes since `healthy` or `recovered` was last reported. */
  function FailedProbes(log: seq<Event>): nat {
    if log == [] then 0 else
      var e := log[|log| - 1];
      if Clears(e) then 0 else FailedProbes(log[..|log| - 1]) + if e == HostProbed(false) then 1 else 0
  }

  predicate ContainerWasHealthy(log: seq<Event>) {
    log != [] && var e := log[|log| - 1];
    !Clears(e) && (e == ContainerProbed(true) || ContainerWasHealthy(log[..|log| - 1]))
  }

  /** The latest attempt since that report, if one started. */
  function LastAttempt(log: seq<Event>): Option<int> {
    if log == [] then None else
      var e := log[|log| - 1];
      if Clears(e) then None else if e.Started? then Some(e.at) else LastAttempt(log[..|log| - 1])
  }

  /** A restart began and no restore has succeeded since. */
  predicate RestartOpen(log: seq<Event>) {
    log != [] && var e := log[|log| - 1];
    e != Restored(true) && (e == Reported(Restarting) || RestartOpen(log[..|log| - 1]))
  }

  /** What the monitor promises about the next event after `log`. */
  predicate Allowed(c: Config, log: seq<Event>, e: Event) {
    && (e.Started? && LastAttempt(log).Some? ==> e.at >= LastAttempt(log).value + c.cooldown)
    && (e == Reported(Restarting) ==> FailedProbes(log) >= c.failureThreshold && ContainerWasHealthy(log))
    && (Clears(e) ==> !RestartOpen(log))
  }

  predicate Kept(c: Config, log: seq<Event>) {
    log == [] || (Kept(c, log[..|log| - 1]) && Allowed(c, log[..|log| - 1], log[|log| - 1]))
  }

  // ----- the invariant -----

  ghost predicate Inv(c: Config, m: Monitor) {
    && Kept(c, m.log)
    && (!m.disposed ==>
          && m.failures
             == (if FailedProbes(m.log) < c.failureThreshold then FailedProbes(m.log) else c.failureThreshold)
          && (m.recoveryPending ==> ContainerWasHealthy(m.log))
          && (RestartOpen(m.log) ==> m.recoveryPending)
          && (LastAttempt(m.log).Some? ==> m.nextRecoveryAt == LastAttempt(m.log).value + c.cooldown))
  }

  /** The monitor's clock never runs backwards within a check. */
  predicate Ticks(s: Surroundings) {
    s.checkedAt <= s.startedAt
  }

  /** What one more event does to each reading of the log. */
  lemma LogEffects(c: Config, log: seq<Event>, e: Event)
    ensures FailedProbes(log + [e])
         == if Clears(e) then 0 else FailedProbes(log) + if e == HostProbed(false) then 1 else 0
    ensures ContainerWasHealthy(log + [e]) <==> !Clears(e) && (e == ContainerProbed(true) || ContainerWasHealthy(log))
    ensures LastAttempt(log + [e]) == if Clears(e) then None else if e.Started? then Some(e.at) else LastAttempt(log)
    ensures RestartOpen(log + [e]) <==> e != Restored(true) && (e == Reported(Restarting) || RestartOpen(log))
    ensures Kept(c, log) && Allowed(c, log, e) ==> Kept(c, log + [e])
  {
    assert (log + [e])[..|log|] == log;
  }

  /** Events that promise nothing and start no count. */
  predicate Neutral(e: Event) {
    !e.Started? && !Clears(e) && e != Reported(Restarting) && e != HostProbed(false)
  }

  lemma NeutralKeepsInv(c: Config, m: Monitor, e: Event)
    requires Inv(c, m) && Neutral(e)
    ensures Inv(c, Log(m, e))
  {
    LogEffects(c, m.log, e);
  }

  lemma ResumeKeepsInv(c: Config, m: Monitor, call: Call, s: Surroundings)
    requires Inv(c, m)
    ensures Inv(c, Resume(m, call, s))
  {
    LogEffects(c, m.log, Stopped);
  }

  lemma FailKeepsInv(c: Config, m: Monitor)
    requires Inv(c, m)
    ensures Inv(c, Fail(m))
  {
    NeutralKeepsInv(c, m, Reported(RecoveryFailed));
  }

  lemma SettleKeepsInv(c: Config, m: Monitor, health: Health)
    requires Kept(c, m.log) && !RestartOpen(m.log) && !m.recoveryPending && Clears(Reported(health))
    ensures Inv(c, Settle(m, health))
  {
    LogEffects(c, m.log, Reported(health));
  }

  lemma BeginKeepsInv(c: Config, m: Monitor, s: Surroundings)
    requires Accepted(c) && Inv(c, m) && !m.disposed && m.nextRecoveryAt <= s.checkedAt && Ticks(s)
    ensures Inv(c, Begin(c, m, s))
  {
    LogEffects(c, m.log, Started(s.startedAt));
  }

  /** A restore that went through closes the restart before `recovered` is reported. */
  lemma RestoreKeepsInv(c: Config, m: Monitor, restored: bool, call: Call, s: Surroundings)
    requires Inv(c, m)
    ensures var back := Resume(Log(Log(m, Reported(Restoring)), Restored(restored)), call, s);
            Inv(c, if back.disposed then back else if restored then Recover(back) else Fail(back))
  {
    var asked := Log(m, Reported(Restoring));
    NeutralKeepsInv(c, m, Reported(Restoring));
    NeutralKeepsInv(c, asked, Restored(restored));
    LogEffects(c, asked.log, Restored(restored));
    var back := Resume(Log(asked, Restored(restored)), call, s);
    ResumeKeepsInv(c, Log(asked, Restored(restored)), call, s);
    if back.disposed {
    } else if restored {
      SettleKeepsInv(c, back.(restorePending := None, recoveryPending := false), Recovered);
    } else {
      FailKeepsInv(c, back);
    }
  }

  lemma OnReprobeKeepsInv(c: Config, m: Monitor, s: Surroundings)
    requires Inv(c, m)
    ensures Inv(c, OnReprobe(m, s))
  {
    ResumeKeepsInv(c, m, Reprobe, s);
    var back := Resume(m, Reprobe, s);
    if s.reprobe != Some(true) {
      FailKeepsInv(c, back);
    } else {
      RestoreKeepsInv(c, back, s.finalRestored, FinalRestore, s);
    }
  }

  /** A restart is reported only at the threshold and after a healthy container probe. */
  lemma OnRestartKeepsInv(c: Config, m: Monitor, s: Surroundings)
    requires Inv(c, m) && !m.disposed && m.recoveryPending && m.failures == c.failureThreshold
    ensures Inv(c, OnRestart(m, s))
  {
    hide OnRestarted;
    LogEffects(c, m.log, Reported(Restarting));
    var asked := Log(m, Reported(Restarting));
    ResumeKeepsInv(c, asked, Restart, s);
    OnRestartedKeepsInv(c, Resume(asked, Restart, s), s);
  }

  lemma OnRestartedKeepsInv(c: Config, m: Monitor, s: Surroundings)
    requires Inv(c, m)
    ensures Inv(c, OnRestarted(m, s))
  {
    hide OnReprobe;
    match s.restart
    case None => FailKeepsInv(c, m);
    case Some(address) =>
      var told := Log(m, AddressChanged(address));
      NeutralKeepsInv(c, m, AddressChanged(address));
      FailKeepsInv(c, told);
      OnReprobeKeepsInv(c, told.(restorePending := address), s);
  }

  lemma OnHealthyKeepsInv(c: Config, m: Monitor, s: Surroundings)
    requires Accepted(c) && Inv(c, m) && !m.disposed && Ticks(s) && s.address.Some?
    ensures Inv(c, OnHealthy(c, m, s))
  {
    var owed := if s.unconfigured || (m.recoveryPending && m.restorePending.None?) then s.address else m.restorePending;
    var noted := m.(restorePending := owed);
    if owed.None? {
      SettleKeepsInv(c, noted, Healthy);
    } else if s.checkedAt >= m.nextRecoveryAt {
      BeginKeepsInv(c, noted, s);
      RestoreKeepsInv(c, Begin(c, noted, s), s.restored, Restore, s);
    }
  }

  /** `m` is the state just after a failed probe was logged, before it is counted. */
  lemma OnUnhealthyKeepsInv(c: Config, before: Monitor, s: Surroundings)
    requires Accepted(c) && Inv(c, before) && !before.disposed && Ticks(s)
    ensures Inv(c, OnUnhealthy(c, Log(before, HostProbed(false)), s))
  {
    hide OnBegun, FailedProbes, ContainerWasHealthy, LastAttempt, RestartOpen, Kept;
    LogEffects(c, before.log, HostProbed(false));
    var m := Log(before, HostProbed(false));
    var counted := m.(failures := if m.failures + 1 < c.failureThreshold then m.failures + 1 else c.failureThreshold);
    assert Inv(c, counted);
    NeutralKeepsInv(c, counted, Reported(HostUnreachable(counted.failures)));
    if counted.failures == c.failureThreshold && s.checkedAt >= m.nextRecoveryAt {
      var told := Log(counted, Reported(HostUnreachable(counted.failures)));
      BeginKeepsInv(c, told, s);
      OnBegunKeepsInv(c, Begin(c, told, s), s);
    }
  }

  lemma OnBegunKeepsInv(c: Config, begun: Monitor, s: Surroundings)
    requires Inv(c, begun) && !begun.disposed && begun.failures == c.failureThreshold
    ensures Inv(c, OnBegun(begun, s))
  {
    hide OnRestart;
    if begun.recoveryPending {
      OnRestartKeepsInv(c, begun, s);
    } else {
      var probed := Log(begun, ContainerProbed(s.container == Some(true)));
      NeutralKeepsInv(c, begun, ContainerProbed(s.container == Some(true)));
      LogEffects(c, begun.log, ContainerProbed(s.container == Some(true)));
      ResumeKeepsInv(c, probed, ContainerProbe, s);
      var back := Resume(probed, ContainerProbe, s);
      if !back.disposed {
        if s.container == Some(true) {
          OnRestartKeepsInv(c, back.(recoveryPending := true), s);
        } else {
          NeutralKeepsInv(c, back, Reported(ContainerUnhealthy));
        }
      }
    }
  }

  lemma CheckKeepsInv(c: Config, m: Monitor, s: Surroundings)
    requires Accepted(c) && Inv(c, m) && Ticks(s)
    ensures Inv(c, Check(c, m, s))
  {
    hide OnHealthy;
    hide OnUnhealthy;
    if !m.disposed && s.address.Some? {
      var probed := Log(m, HostProbed(s.host == Some(true)));
      LogEffects(c, m.log, HostProbed(s.host == Some(true)));
      LogEffects(c, probed.log, Stopped);
      if s.stopDuring != Some(HostProbe) {
        if s.host == Some(true) {
          NeutralKeepsInv(c, m, HostProbed(true));
          OnHealthyKeepsInv(c, probed, s);
        } else {
          OnUnhealthyKeepsInv(c, m, s);
        }
      }
    }
  }

  // ----- what every run keeps -----

  /** Over every run: no attempt starts within the cooldown of the one before unless `healthy` or
      `recovered` was reported in between; a restart follows at least the threshold of failed probes and a
      healthy container probe since the last such report; and after a restart neither is reported until a
      restore has succeeded. */
  lemma {:induction false} EveryRunKeepsItsPromises(c: Config, restoreFirst: Option<Address>, checks: seq<Surroundings>)
    requires Accepted(c) && forall i :: 0 <= i < |checks| ==> Ticks(checks[i])
    ensures Inv(c, Run(c, restoreFirst, checks))
  {
    if checks == [] {
    } else {
      EveryRunKeepsItsPromises(c, restoreFirst, checks[..|checks| - 1]);
      CheckKeepsInv(c, Run(c, restoreFirst, checks[..|checks| - 1]), checks[|checks| - 1]);
    }
  }

  lemma {:induction false} KeptAt(c: Config, log: seq<Event>, i: nat)
    requires Kept(c, log) && i < |log|
    ensures Allowed(c, log[..i], log[i])
  {
    if i == |log| - 1 {
    } else {
      KeptAt(c, log[..|log| - 1], i);
      assert log[..|log| - 1][..i] == log[..i];
    }
  }

  /** The cooldown, stated on two attempts of one log. */
  lemma AttemptsAreSpaced(c: Config, log: seq<Event>, i: nat, j: nat)
    requires Kept(c, log) && c.cooldown >= 0 && i < j < |log| && log[i].Started? && log[j].Started?
    requires forall k :: i < k < j ==> !Clears(log[k])
    ensures log[j].at >= log[i].at + c.cooldown
    decreases j
  {
    var k := LatestStart(log, i, j);
    KeptAt(c, log, j);
    if k > i {
      AttemptsAreSpaced(c, log, i, k);
    }
  }

  lemma {:induction false} LatestStart(log: seq<Event>, i: nat, j: nat) returns (k: nat)
    requires i < j <= |log| && log[i].Started? && forall k :: i < k < j ==> !Clears(log[k])
    ensures i <= k < j && log[k].Started? && LastAttempt(log[..j]) == Some(log[k].at)
    decreases j
  {
    assert log[..j][..j - 1] == log[..j - 1];
    if log[j - 1].Started? {
      k := j - 1;
    } else {
      k := LatestStart(log, i, j - 1);
    }
  }

  // ----- after stop -----

  /** Has the monitor been stopped, and has it reported anything since? */
  datatype Voice = Speaking | Silenced | Spoke

  function Hear(v: Voice, e: Event): Voice {
    match v
    case Speaking => if e == Stopped then Silenced else Speaking
    case Silenced => if e.Reported? then Spoke else Silenced
    case Spoke => Spoke
  }

  function VoiceOf(log: seq<Event>): Voice {
    if log == [] then Speaking else Hear(VoiceOf(log[..|log| - 1]), log[|log| - 1])
  }

  predicate SpeaksAfterStop(log: seq<Event>) {
    VoiceOf(log) == Spoke
  }

  /** The check reaches the probe that follows a restart. */
  predicate ReachesReprobe(c: Config, m: Monitor, s: Surroundings) {
    && s.address.Some? && s.host != Some(true)
    && m.failures + 1 >= c.failureThreshold && s.checkedAt >= m.nextRecoveryAt
    && (m.recoveryPending || s.container == Some(true))
    && s.restart.Some? && s.restart.value.Some?
  }

  /** Nothing was reported after a stop, and the log says whether there was one. */
  predicate Mute(m: Monitor) {
    VoiceOf(m.log) == if m.disposed then Silenced else Speaking
  }

  /** Nothing was reported after a stop, or something was and the monitor is stopped for good. */
  predicate Settled(m: Monitor) {
    Mute(m) || (m.disposed && SpeaksAfterStop(m.log))
  }

  lemma LogSpeaks(m: Monitor, e: Event)
    ensures VoiceOf(Log(m, e).log) == Hear(VoiceOf(m.log), e)
  {
    assert (m.log + [e])[..|m.log|] == m.log;
  }

  lemma LogKeepsMute(m: Monitor, e: Event)
    requires Mute(m) && !m.disposed && e != Stopped
    ensures Mute(Log(m, e))
  {
    hide VoiceOf;
    LogSpeaks(m, e);
  }

  lemma ResumeKeepsMute(m: Monitor, call: Call, s: Surroundings)
    requires Mute(m)
    ensures Mute(Resume(m, call, s))
  {
    hide VoiceOf;
    LogSpeaks(m, Stopped);
  }

  lemma FailKeepsMute(m: Monitor)
    requires Mute(m)
    ensures Mute(Fail(m))
  {
    hide VoiceOf;
    LogSpeaks(m, Reported(RecoveryFailed));
  }

  lemma SettleKeepsMute(m: Monitor, health: Health)
    requires Mute(m) && !m.disposed
    ensures Mute(Settle(m, health))
  {
    hide VoiceOf;
    LogSpeaks(m, Reported(health));
  }

  /** The one place that reports without looking whether the monitor was stopped. */
  lemma ReprobeSpeaks(m: Monitor, s: Surroundings)
    requires Mute(m) && !m.disposed
    ensures SpeaksAfterStop(OnReprobe(m, s).log) <==> s.stopDuring == Some(Reprobe) && s.reprobe == Some(true)
    ensures Settled(OnReprobe(m, s))
  {
    hide VoiceOf;
    var back := Resume(m, Reprobe, s);
    ResumeKeepsMute(m, Reprobe, s);
    FailKeepsMute(back);
    if s.reprobe == Some(true) {
      var asked := Log(back, Reported(Restoring));
      LogSpeaks(m, Stopped);
      LogSpeaks(back, Reported(Restoring));
      var answered := Log(asked, Restored(s.finalRestored));
      LogSpeaks(asked, Restored(s.finalRestored));
      var done := Resume(answered, FinalRestore, s);
      LogSpeaks(answered, Stopped);
      if Mute(done) {
        FailKeepsMute(done);
        if !done.disposed {
          SettleKeepsMute(done.(restorePending := None, recoveryPending := false), Recovered);
        }
      }
    }
  }

  lemma RestartSpeaks(m: Monitor, s: Surroundings)
    requires Mute(m) && !m.disposed
    ensures SpeaksAfterStop(OnRestart(m, s).log)
       <==> s.stopDuring == Some(Reprobe) && s.reprobe == Some(true) && s.restart.Some? && s.restart.value.Some?
    ensures Settled(OnRestart(m, s))
  {
    hide VoiceOf;
    hide OnReprobe;
    var asked := Log(m, Reported(Restarting));
    LogKeepsMute(m, Reported(Restarting));
    ResumeKeepsMute(asked, Restart, s);
    var back := Resume(asked, Restart, s);
    if !back.disposed {
      FailKeepsMute(back);
      if s.restart.Some? {
        var told := Log(back, AddressChanged(s.restart.value));
        LogKeepsMute(back, AddressChanged(s.restart.value));
        FailKeepsMute(told);
        ReprobeSpeaks(told.(restorePending := s.restart.value), s);
      }
    }
  }

  lemma BegunSpeaks(m: Monitor, s: Surroundings)
    requires Mute(m) && !m.disposed
    ensures SpeaksAfterStop(OnBegun(m, s).log)
       <==> && s.stopDuring == Some(Reprobe) && s.reprobe == Some(true) && s.restart.Some? && s.restart.value.Some?
            && (m.recoveryPending || s.container == Some(true))
    ensures Settled(OnBegun(m, s))
  {
    hide VoiceOf;
    hide OnRestart;
    if m.recoveryPending {
      RestartSpeaks(m, s);
    } else {
      var probed := Log(m, ContainerProbed(s.container == Some(true)));
      LogKeepsMute(m, ContainerProbed(s.container == Some(true)));
      ResumeKeepsMute(probed, ContainerProbe, s);
      var back := Resume(probed, ContainerProbe, s);
      if !back.disposed {
        if s.container == Some(true) {
          RestartSpeaks(back.(recoveryPending := true), s);
        } else {
          LogKeepsMute(back, Reported(ContainerUnhealthy));
        }
      }
    }
  }

  lemma HealthyKeepsMute(c: Config, m: Monitor, s: Surroundings)
    requires Mute(m) && !m.disposed && s.address.Some?
    ensures Mute(OnHealthy(c, m, s))
  {
    hide VoiceOf;
    SettleKeepsMute(m, Healthy);
    LogKeepsMute(m, Started(s.startedAt));
    var begun := Log(m, Started(s.startedAt));
    LogKeepsMute(begun, Reported(Restoring));
    LogKeepsMute(Log(begun, Reported(Restoring)), Restored(s.restored));
    var asked := Log(Log(begun, Reported(Restoring)), Restored(s.restored));
    ResumeKeepsMute(asked, Restore, s);
    var back := Resume(asked, Restore, s);
    FailKeepsMute(back);
    if !back.disposed {
      SettleKeepsMute(back, Recovered);
    }
  }

  lemma UnhealthySpeaks(c: Config, m: Monitor, s: Surroundings)
    requires Accepted(c) && Mute(m) && !m.disposed
    ensures SpeaksAfterStop(OnUnhealthy(c, m, s).log)
       <==> && s.stopDuring == Some(Reprobe) && s.reprobe == Some(true) && s.restart.Some? && s.restart.value.Some?
            && (m.recoveryPending || s.container == Some(true))
            && m.failures + 1 >= c.failureThreshold && s.checkedAt >= m.nextRecoveryAt
    ensures Settled(OnUnhealthy(c, m, s))
  {
    hide VoiceOf;
    hide OnBegun;
    var counted := m.(failures := if m.failures + 1 < c.failureThreshold then m.failures + 1 else c.failureThreshold);
    LogKeepsMute(counted, Reported(HostUnreachable(counted.failures)));
    var told := Log(counted, Reported(HostUnreachable(counted.failures)));
    LogKeepsMute(told, Started(s.startedAt));
    BegunSpeaks(Begin(c, told, s), s);
  }

  /** A check that `stop` interrupts reports nothing more, with one exception: a stop that lands on the probe
      after a restart does not keep a probe that still answers healthy from being followed by a `restoring`
      report. */
  lemma StopSilencesUnlessReprobed(c: Config, m: Monitor, s: Surroundings)
    requires Accepted(c) && Mute(m) && !m.disposed
    ensures SpeaksAfterStop(Check(c, m, s).log)
       <==> s.stopDuring == Some(Reprobe) && s.reprobe == Some(true) && ReachesReprobe(c, m, s)
    ensures Settled(Check(c, m, s))
  {
    hide VoiceOf;
    hide OnUnhealthy;
    hide OnHealthy;
    if s.address.Some? {
      var healthy := s.host == Some(true);
      LogKeepsMute(m, HostProbed(healthy));
      ResumeKeepsMute(Log(m, HostProbed(healthy)), HostProbe, s);
      var back := Resume(Log(m, HostProbed(healthy)), HostProbe, s);
      if back.disposed {
      } else if healthy {
        HealthyKeepsMute(c, back, s);
      } else {
        UnhealthySpeaks(c, back, s);
      }
    }
  }

  /** The stop lands on the reprobe of this check of a live monitor, and the reprobe answers healthy. */
  predicate StoppedOnReprobe(c: Config, m: Monitor, s: Surroundings) {
    !m.disposed && s.stopDuring == Some(Reprobe) && s.reprobe == Some(true) && ReachesReprobe(c, m, s)
  }

  lemma {:induction false} RunSettles(c: Config, restoreFirst: Option<Address>, checks: seq<Surroundings>)
    requires Accepted(c)
    ensures Settled(Run(c, restoreFirst, checks))
  {
    if checks == [] {
    } else {
      hide Check;
      var front, s := checks[..|checks| - 1], checks[|checks| - 1];
      RunSettles(c, restoreFirst, front);
      NextCheckSpeaks(c, Run(c, restoreFirst, front), s);
    }
  }

  lemma NextCheckSpeaks(c: Config, m: Monitor, s: Surroundings)
    requires Accepted(c) && Settled(m)
    ensures Settled(Check(c, m, s))
    ensures SpeaksAfterStop(Check(c, m, s).log) <==> SpeaksAfterStop(m.log) || StoppedOnReprobe(c, m, s)
  {
    hide VoiceOf;
    if !m.disposed {
      hide Check;
      StopSilencesUnlessReprobed(c, m, s);
    }
  }

  predicate SomeReprobeStop(c: Config, restoreFirst: Option<Address>, checks: seq<Surroundings>) {
    exists i :: 0 <= i < |checks| && StoppedOnReprobe(c, Run(c, restoreFirst, checks[..i]), checks[i])
  }

  lemma OneMoreCheck(c: Config, restoreFirst: Option<Address>, front: seq<Surroundings>, s: Surroundings)
    ensures SomeReprobeStop(c, restoreFirst, front + [s])
       <==> SomeReprobeStop(c, restoreFirst, front) || StoppedOnReprobe(c, Run(c, restoreFirst, front), s)
  {
    hide Run, StoppedOnReprobe;
    var checks := front + [s];
    assert checks[..|front|] == front;
    if i :| 0 <= i < |front| && StoppedOnReprobe(c, Run(c, restoreFirst, front[..i]), front[i]) {
      assert front[..i] == checks[..i] && front[i] == checks[i];
    }
    if i :| 0 <= i < |checks| && StoppedOnReprobe(c, Run(c, restoreFirst, checks[..i]), checks[i]) {
      if i < |front| {
        assert front[..i] == checks[..i] && front[i] == checks[i];
      }
    }
  }

  /** Over every run: the monitor reports something after its stop if and only if the stop landed on the
      reprobe of some check and that reprobe still answered healthy. */
  lemma {:induction false} StoppedRunsSpeakIffReprobed(
      c: Config, restoreFirst: Option<Address>, checks: seq<Surroundings>)
    requires Accepted(c)
    ensures SpeaksAfterStop(Run(c, restoreFirst, checks).log) <==> SomeReprobeStop(c, restoreFirst, checks)
  {
    if checks == [] {
    } else {
      hide Check, StoppedOnReprobe, SpeaksAfterStop, SomeReprobeStop;
      var front, s := checks[..|checks| - 1], checks[|checks| - 1];
      assert checks == front + [s];
      StoppedRunsSpeakIffReprobed(c, restoreFirst, front);
      RunSettles(c, restoreFirst, front);
      NextCheckSpeaks(c, Run(c, restoreFirst, front), s);
      OneMoreCheck(c, restoreFirst, front, s);
    }
  }

  /** One run that does: with a threshold of one, a first check whose probe fails restarts the container, and
      the stop lands on the reprobe. */
  lemma StoppedRunCanSpeak(c: Config, restoreFirst: Option<Address>, address: Address)
    returns (checks: seq<Surroundings>)
    requires c.failureThreshold == 1 && c.cooldown >= 0
    ensures SpeaksAfterStop(Run(c, restoreFirst, checks).log)
  {
    var s := Surroundings(Some(address), None, false, 0, 0, false, Some(true), Some(Some(address)), Some(true), true,
                          Some(Reprobe));
    checks := [s];
    assert checks[..0] == [];
    assert StoppedOnReprobe(c, Run(c, restoreFirst, checks[..0]), checks[0]);
    StoppedRunsSpeakIffReprobed(c, restoreFirst, checks);
  }

  // ----- the monitor as the code runs it -----

  class HealthMonitor {
    const config: Config
    var disposed: bool
    var consecutiveFailures: nat
    var nextRecoveryAt: int
    var restorePendingAddress: Option<Address>
    var recoveryPending: bool
    var log: seq<Event>

    function State(): Monitor
      reads this
    {
      Monitor(disposed, consecutiveFailures, nextRecoveryAt, restorePendingAddress, recoveryPending, log)
    }

    constructor (config: Config, restoreFirst: Option<Address>)
      requires Accepted(config)
      ensures this.config == config && State() == Start(restoreFirst)
    {
      this.config := config;
      disposed, consecutiveFailures, nextRecoveryAt := false, 0, 0;
      restorePendingAddress, recoveryPending, log := restoreFirst, false, [];
    }

    method Note(e: Event)
      modifies this`log
      ensures log == old(log) + [e]
    {
      log := log + [e];
    }

    /** An awaited call ends; `stop` may have landed meanwhile. */
    method Await(call: Call, s: Surroundings)
      modifies this`log, this`disposed
      ensures State() == Resume(old(State()), call, s)
    {
      if s.stopDuring == Some(call) {
        disposed := true;
        Note(Stopped);
      }
    }

    method ReportFailure()
      modifies this`log
      ensures State() == Fail(old(State()))
    {
      if !disposed {
        Note(Reported(RecoveryFailed));
      }
    }

    method ReportRecovered()
      modifies this
      ensures State() == Recover(old(State()))
    {
      restorePendingAddress := None;
      recoveryPending := false;
      consecutiveFailures := 0;
      nextRecoveryAt := 0;
      Note(Reported(Recovered));
    }

    /** `runCheck`. */
    method RunCheck(s: Surroundings)
      requires Accepted(config)
      modifies this
      ensures State() == Check(config, old(State()), s)
    {
      hide OnHealthy, OnUnhealthy;
      if disposed || s.address.None? {
        return;
      }
      Note(HostProbed(s.host == Some(true)));
      Await(HostProbe, s);
      if disposed {
        return;
      }
      if s.host == Some(true) {
        RunHealthy(s);
      } else {
        RunUnhealthy(s);
      }
    }

    method RunHealthy(s: Surroundings)
      requires s.address.Some?
      modifies this
      ensures State() == OnHealthy(config, old(State()), s)
    {
      if s.unconfigured {
        restorePendingAddress := s.address;
      }
      if recoveryPending && restorePendingAddress.None? {
        restorePendingAddress := s.address;
      }
      if restorePendingAddress.None? {
        consecutiveFailures := 0;
        nextRecoveryAt := 0;
        Note(Reported(Healthy));
        return;
      }
      if s.checkedAt < nextRecoveryAt {
        return;
      }
      nextRecoveryAt := s.startedAt + config.cooldown;
      Note(Started(s.startedAt));
      Note(Reported(Restoring));
      Note(Restored(s.restored));
      Await(Restore, s);
      if disposed {
        return;
      }
      if s.restored {
        ReportRecovered();
      } else {
        ReportFailure();
      }
    }

    method RunUnhealthy(s: Surroundings)
      modifies this
      ensures State() == OnUnhealthy(config, old(State()), s)
    {
      hide OnRestart;
      consecutiveFailures := if consecutiveFailures + 1 < config.failureThreshold
                             then consecutiveFailures + 1 else config.failureThreshold;
      if consecutiveFailures < config.failureThreshold {
        Note(Reported(HostUnreachable(consecutiveFailures)));
        return;
      }
      if s.checkedAt < nextRecoveryAt {
        return;
      }
      Note(Reported(HostUnreachable(consecutiveFailures)));
      nextRecoveryAt := s.startedAt + config.cooldown;
      Note(Started(s.startedAt));
      if !recoveryPending {
        Note(ContainerProbed(s.container == Some(true)));
        Await(ContainerProbe, s);
        if disposed {
          return;
        }
        if s.container != Some(true) {
          Note(Reported(ContainerUnhealthy));
          return;
        }
        recoveryPending := true;
      }
      RunRestart(s);
    }

    method RunRestart(s: Surroundings)
      modifies this
      ensures State() == OnRestart(old(State()), s)
    {
      hide OnReprobe;
      Note(Reported(Restarting));
      Await(Restart, s);
      if disposed {
        return;
      }
      if s.restart.None? {
        ReportFailure();
        return;
      }
      var address := s.restart.value;
      Note(AddressChanged(address));
      if address.None? {
        ReportFailure();
        return;
      }
      restorePendingAddress := address;
      RunReprobe(s);
    }

    /** The probe and the restore that follow a restart: `stop` is looked at only after both. */
    method RunReprobe(s: Surroundings)
      modifies this
      ensures State() == OnReprobe(old(State()), s)
    {
      Await(Reprobe, s);
      var recovered := s.reprobe == Some(true);
      if recovered {
        Note(Reported(Restoring));
        Note(Restored(s.finalRestored));
        Await(FinalRestore, s);
        recovered := s.finalRestored;
      }
      if disposed {
        return;
      }
      if recovered {
        ReportRecovered();
      } else {
        ReportFailure();
      }
    }
  }
}

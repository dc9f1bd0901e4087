/** The per-key single-flight map: weak entries, strong leases, and the guard each flight takes. Every step is
    atomic under the map's own mutex; a handler can be cancelled, and so drop its guard and its lease, at any
    point. */
module SingleFlight {
  import opened Sets
  import opened Wrappers

  const MAX_INFLIGHT_KEYS: nat := 256

  /** A flight queues for its key's lock, holds it until `inflight_finish`, keeps the guard a little longer,
      and at last holds only its lease. */
  datatype Phase = Waiting | Holding | Finished | Released

  /** One caller's strong lease on a lock. */
  datatype Flight = Flight(key: string, lock: nat, phase: Phase)

  /** The map of weak entries, the live leases by caller, and the ids the next lock and caller get. */
  datatype Table = Table(inflight: map<string, nat>, flights: map<nat, Flight>, nextLock: nat, nextFlight: nat)

  function Holders(t: Table, lock: nat): set<nat> {
    set f | f in t.flights && t.flights[f].lock == lock
  }

  function StrongCount(t: Table, lock: nat): nat {
    |Holders(t, lock)|
  }

  /** The entry's lock can still be upgraded. */
  predicate Live(t: Table, key: string) {
    key in t.inflight && StrongCount(t, t.inflight[key]) > 0
  }

  function LiveKeys(t: Table): set<string> {
    set key | key in t.inflight && Live(t, key)
  }

  predicate HasGuard(f: Flight) {
    f.phase == Holding || f.phase == Finished
  }

  predicate Unfinished(f: Flight) {
    f.phase == Waiting || f.phase == Holding
  }

  // ----- the steps -----

  function Lease(t: Table, key: string, lock: nat): Table {
    t.(flights := t.flights[t.nextFlight := Flight(key, lock, Waiting)], nextFlight := t.nextFlight + 1)
  }

  function Pruned(t: Table): Table {
    t.(inflight := map key | key in t.inflight && Live(t, key) :: t.inflight[key])
  }

  predicate Refuses(t: Table, key: string) {
    !Live(t, key) && |Pruned(t).inflight| >= MAX_INFLIGHT_KEYS
  }

  /** `inflight_lock`. */
  function LockStep(t: Table, key: string): Table {
    if Live(t, key) then Lease(t, key, t.inflight[key])
    else
      var pruned := Pruned(t);
      if |pruned.inflight| >= MAX_INFLIGHT_KEYS then pruned
      else Lease(pruned.(inflight := pruned.inflight[key := t.nextLock], nextLock := t.nextLock + 1), key, t.nextLock)
  }

  function SetPhase(t: Table, f: nat, phase: Phase): Table
    requires f in t.flights
  {
    t.(flights := t.flights[f := t.flights[f].(phase := phase)])
  }

  predicate Grantable(t: Table, f: nat) {
    f in t.flights && t.flights[f].phase == Waiting
    && forall o :: o in Holders(t, t.flights[f].lock) ==> !HasGuard(t.flights[o])
  }

  function AcquireStep(t: Table, f: nat): Table {
    if Grantable(t, f) then SetPhase(t, f, Holding) else t
  }

  /** `inflight_finish`: drop the entry when it is this lock's and no one else holds a lease. */
  function FinishStep(t: Table, f: nat): Table {
    if f in t.flights && t.flights[f].phase == Holding then
      var flight := t.flights[f];
      var isCurrent := flight.key in t.inflight && t.inflight[flight.key] == flight.lock;
      var kept := if isCurrent && StrongCount(t, flight.lock) == 1
                  then t.(inflight := t.inflight - {flight.key}) else t;
      SetPhase(kept, f, Finished)
    else t
  }

  /** The guard is dropped: after the finish, or before it when the handler is cancelled. */
  function ReleaseStep(t: Table, f: nat): Table {
    if f in t.flights && HasGuard(t.flights[f]) then SetPhase(t, f, Released) else t
  }

  /** The lease is dropped, by a caller that holds no guard. */
  function DropStep(t: Table, f: nat): Table {
    if f in t.flights && !HasGuard(t.flights[f]) then t.(flights := t.flights - {f}) else t
  }

  /** `inflight_contains`, which forgets a dead entry. */
  function ContainsStep(t: Table, key: string): Table {
    if Live(t, key) then t else t.(inflight := t.inflight - {key})
  }

  datatype Step = Lock(key: string) | Acquire(f: nat) | Finish(f: nat) | Release(f: nat) | Drop(f: nat)
                | Contains(key: string)

  function Next(t: Table, s: Step): Table {
    match s
    case Lock(key) => LockStep(t, key)
    case Acquire(f) => AcquireStep(t, f)
    case Finish(f) => FinishStep(t, f)
    case Release(f) => ReleaseStep(t, f)
    case Drop(f) => DropStep(t, f)
    case Contains(key) => ContainsStep(t, key)
  }

  const EMPTY := Table(map[], map[], 0, 0)

  function Run(steps: seq<Step>): Table {
    if steps == [] then EMPTY else Next(Run(steps[..|steps| - 1]), steps[|steps| - 1])
  }

  // ----- the invariant -----

  ghost predicate FreshIds(t: Table) {
    && (forall key :: key in t.inflight ==> t.inflight[key] < t.nextLock)
    && (forall f :: f in t.flights ==> f < t.nextFlight && t.flights[f].lock < t.nextLock)
  }

  /** An unfinished flight's lock is the one in the map. */
  ghost predicate Anchored(t: Table) {
    forall f :: f in t.flights && Unfinished(t.flights[f])
      ==> t.flights[f].key in t.inflight && t.inflight[t.flights[f].key] == t.flights[f].lock
  }

  /** A lock has at most one guard out. */
  ghost predicate OneGuard(t: Table) {
    forall f, g :: f in t.flights && g in t.flights && HasGuard(t.flights[f]) && HasGuard(t.flights[g])
      ==> t.flights[f].lock == t.flights[g].lock ==> f == g
  }

  ghost predicate Inv(t: Table) {
    FreshIds(t) && Anchored(t) && OneGuard(t) && |t.inflight| <= MAX_INFLIGHT_KEYS
  }

  /** A flight keeps its lock's entry alive. */
  lemma HeldIsLive(t: Table, f: nat)
    requires Anchored(t) && f in t.flights && Unfinished(t.flights[f])
    ensures Live(t, t.flights[f].key)
  {
    assert f in Holders(t, t.flights[f].lock);
  }

  lemma PrunedKeepsInv(t: Table)
    requires Inv(t)
    ensures Inv(Pruned(t)) && Pruned(t).inflight.Keys == LiveKeys(t)
  {
    forall f | f in t.flights && Unfinished(t.flights[f])
      ensures t.flights[f].key in Pruned(t).inflight
    {
      HeldIsLive(t, f);
    }
    KeysSubset(Pruned(t).inflight, t.inflight);
  }

  lemma KeysSubset(a: map<string, nat>, b: map<string, nat>)
    requires a.Keys <= b.Keys
    ensures |a| <= |b|
  {
    SubsetSize(a.Keys, b.Keys);
    assert |a| == |a.Keys| && |b| == |b.Keys|;
  }

  lemma LockKeepsInv(t: Table, key: string)
    requires Inv(t)
    ensures Inv(LockStep(t, key))
  {
    if !Live(t, key) {
      PrunedKeepsInv(t);
      var pruned := Pruned(t);
      forall f | f in pruned.flights && Unfinished(pruned.flights[f])
        ensures pruned.flights[f].key != key
      {
        HeldIsLive(t, f);
      }
    }
  }

  /** Finishing drops an entry only when its one lease is the finisher's own. */
  lemma FinishKeepsInv(t: Table, f: nat)
    requires Inv(t)
    ensures Inv(FinishStep(t, f))
  {
    if f in t.flights && t.flights[f].phase == Holding {
      var flight := t.flights[f];
      if StrongCount(t, flight.lock) == 1 {
        assert f in Holders(t, flight.lock);
        forall g | g in t.flights && t.flights[g].lock == flight.lock ensures g == f {
          assert g in Holders(t, flight.lock);
          SubsetSize({f, g}, Holders(t, flight.lock));
        }
        KeysSubset(t.inflight - {flight.key}, t.inflight);
      }
    }
  }

  lemma ContainsKeepsInv(t: Table, key: string)
    requires Inv(t)
    ensures Inv(ContainsStep(t, key))
  {
    if !Live(t, key) {
      forall f | f in t.flights && Unfinished(t.flights[f]) ensures t.flights[f].key != key {
        HeldIsLive(t, f);
      }
      KeysSubset(t.inflight - {key}, t.inflight);
    }
  }

  lemma StepKeepsInv(t: Table, s: Step)
    requires Inv(t)
    ensures Inv(Next(t, s))
  {
    match s
    case Lock(key) => LockKeepsInv(t, key);
    case Finish(f) => FinishKeepsInv(t, f);
    case Contains(key) => ContainsKeepsInv(t, key);
    case _ =>
  }

  lemma {:induction false} RunKeepsInv(steps: seq<Step>)
    ensures Inv(Run(steps))
  {
    if steps == [] {
    } else {
      hide Inv, Next;
      RunKeepsInv(steps[..|steps| - 1]);
      StepKeepsInv(Run(steps[..|steps| - 1]), steps[|steps| - 1]);
    }
  }

  // ----- what holds in every interleaving -----

  /** At most one flight per key is between acquiring its lock and its finish. */
  lemma FlightsAreExclusive(steps: seq<Step>, f: nat, g: nat)
    requires var t := Run(steps);
             && f in t.flights && g in t.flights && t.flights[f].key == t.flights[g].key
             && t.flights[f].phase == Holding && t.flights[g].phase == Holding
    ensures f == g
  {
    RunKeepsInv(steps);
  }

  /** An unfinished flight's lock is the one every newcomer for its key will wait on. */
  lemma NewcomersShareTheLock(steps: seq<Step>, f: nat)
    requires var t := Run(steps); f in t.flights && Unfinished(t.flights[f])
    ensures var t := Run(steps);
            var after := LockStep(t, t.flights[f].key);
            && t.nextFlight in after.flights
            && after.flights[t.nextFlight] == Flight(t.flights[f].key, t.flights[f].lock, Waiting)
  {
    RunKeepsInv(steps);
    HeldIsLive(Run(steps), f);
  }

  /** Admission refuses a key exactly when it is not live and 256 other keys are: dead entries of cancelled
      handlers never count. The map never grows past that. */
  lemma RefusalMeansFull(steps: seq<Step>, key: string)
    ensures var t := Run(steps);
            && |t.inflight| <= 256
            && (Refuses(t, key) <==> key !in LiveKeys(t) && |LiveKeys(t) - {key}| == 256)
            && (Refuses(t, key) <==> t.nextFlight !in LockStep(t, key).flights)
  {
    hide Run, Inv;
    RunKeepsInv(steps);
    RefusalIs(Run(steps), key);
  }

  lemma RefusalIs(t: Table, key: string)
    requires Inv(t)
    ensures |t.inflight| <= MAX_INFLIGHT_KEYS
    ensures Refuses(t, key) <==> key !in LiveKeys(t) && |LiveKeys(t) - {key}| == MAX_INFLIGHT_KEYS
    ensures Refuses(t, key) <==> t.nextFlight !in LockStep(t, key).flights
  {
    PrunedKeepsInv(t);
    hide StrongCount, Pruned;
    assert key in LiveKeys(t) <==> Live(t, key);
    assert key !in LiveKeys(t) ==> LiveKeys(t) - {key} == LiveKeys(t);
    assert |Pruned(t).inflight| == |Pruned(t).inflight.Keys|;
    assert t.nextFlight !in t.flights;
    PrunedFlights(t);
  }

  lemma PrunedFlights(t: Table)
    ensures Pruned(t).flights == t.flights && Pruned(t).nextFlight == t.nextFlight
  {
  }

  /** `inflight_contains` answers false only when no flight for the key is unfinished. */
  lemma AbsentMeansNoFlight(steps: seq<Step>, key: string, f: nat)
    requires var t := Run(steps); !Live(t, key) && f in t.flights && Unfinished(t.flights[f])
    ensures Run(steps).flights[f].key != key
  {
    RunKeepsInv(steps);
    if Run(steps).flights[f].key == key {
      HeldIsLive(Run(steps), f);
    }
  }

  /** The exclusive section ends at the finish, not when the guard goes: once a lone flight has finished, the
      next one for its key gets a new lock and may hold it at once, with the first guard still out. */
  lemma GuardOutlivesTheSection(t: Table, f: nat)
    requires Inv(t) && f in t.flights && t.flights[f].phase == Holding && StrongCount(t, t.flights[f].lock) == 1
    ensures var finished := FinishStep(t, f);
            var after := LockStep(finished, t.flights[f].key);
            var g := t.nextFlight;
            && f in after.flights && HasGuard(after.flights[f]) && after.flights[f].lock == t.flights[f].lock
            && g in after.flights && after.flights[g].key == t.flights[f].key
            && after.flights[g].lock != t.flights[f].lock && Grantable(after, g)
  {
    var key := t.flights[f].key;
    var finished := FinishStep(t, f);
    FinishKeepsInv(t, f);
    assert key !in finished.inflight;
    assert finished.inflight.Keys == t.inflight.Keys - {key};
    assert |finished.inflight.Keys| < |t.inflight.Keys|;
    KeysSubset(Pruned(finished).inflight, finished.inflight);
  }

  /** A guard that is dropped frees its lock: whoever waits on it can take it next. */
  lemma ReleaseGrants(t: Table, f: nat, g: nat)
    requires Inv(t) && f in t.flights && HasGuard(t.flights[f])
    requires g in t.flights && t.flights[g].phase == Waiting && t.flights[g].lock == t.flights[f].lock
    ensures Next(t, Acquire(g)) == t
    ensures Next(Next(t, Release(f)), Acquire(g)).flights[g].phase == Holding
  {
    assert f in Holders(t, t.flights[g].lock);
  }

  /** A key is live for as long as someone holds a lease on its lock, and no longer: with the last lease it dies,
      and the next look forgets it. */
  lemma LastLeaseEndsTheKey(t: Table, f: nat)
    requires f in t.flights && !HasGuard(t.flights[f]) && StrongCount(t, t.flights[f].lock) == 1
    requires var flight := t.flights[f]; flight.key in t.inflight && t.inflight[flight.key] == flight.lock
    ensures var key, after := t.flights[f].key, Next(t, Drop(f));
            && Live(t, key) && !Live(after, key)
            && key !in Next(after, Contains(key)).inflight && key !in Pruned(after).inflight
  {
    var lock := t.flights[f].lock;
    assert f in Holders(t, lock);
    assert Holders(Next(t, Drop(f)), lock) == Holders(t, lock) - {f};
  }

  /** Any other lease keeps it live. */
  lemma OtherLeasesKeepTheKey(t: Table, f: nat, g: nat)
    requires f in t.flights && g in t.flights && f != g && t.flights[f].lock == t.flights[g].lock
    requires var flight := t.flights[g]; flight.key in t.inflight && t.inflight[flight.key] == flight.lock
    ensures Live(Next(t, Drop(f)), t.flights[g].key)
    ensures Next(t, Contains(t.flights[g].key)) == t
  {
    assert g in Holders(Next(t, Drop(f)), t.flights[g].lock);
    assert g in Holders(t, t.flights[g].lock);
  }

  // ----- the map as the code updates it -----

  class FlightMap {
    var inflight: map<string, nat>
    var flights: map<nat, Flight>
    var nextLock: nat
    var nextFlight: nat

    function State(): Table
      reads this
    {
      Table(inflight, flights, nextLock, nextFlight)
    }

    constructor ()
      ensures State() == EMPTY
    {
      inflight, flights, nextLock, nextFlight := map[], map[], 0, 0;
    }

    /** Forget the dead entry of this key, then every other one. */
    method RetainLive(key: string)
      requires !Live(State(), key)
      modifies this`inflight
      ensures State() == Pruned(old(State()))
    {
      inflight := inflight - {key};
      inflight := map k | k in inflight && StrongCount(State(), inflight[k]) > 0 :: inflight[k];
    }

    /** Get or create the key's lock, and a lease on it. */
    method InflightLock(key: string) returns (flight: Option<nat>)
      modifies this
      ensures State() == LockStep(old(State()), key)
      ensures flight == if Refuses(old(State()), key) then None else Some(old(nextFlight))
    {
      var lock: nat;
      if key in inflight && StrongCount(State(), inflight[key]) > 0 {
        lock := inflight[key];
      } else {
        RetainLive(key);
        if |inflight| >= MAX_INFLIGHT_KEYS {
          return None;
        }
        lock := nextLock;
        nextLock := nextLock + 1;
        inflight := inflight[key := lock];
      }
      flight := Some(nextFlight);
      flights := flights[nextFlight := Flight(key, lock, Waiting)];
      nextFlight := nextFlight + 1;
    }

    /** The lock's mutex grants the guard when no other lease has it. */
    method TryAcquire(f: nat) returns (granted: bool)
      modifies this`flights
      ensures State() == AcquireStep(old(State()), f) && granted == Grantable(old(State()), f)
    {
      granted := Grantable(State(), f);
      if granted {
        flights := flights[f := flights[f].(phase := Holding)];
      }
    }

    method InflightFinish(f: nat)
      requires f in flights && flights[f].phase == Holding
      modifies this`inflight, this`flights
      ensures State() == FinishStep(old(State()), f)
    {
      var Flight(key, lock, _) := flights[f];
      var isCurrent := key in inflight && StrongCount(State(), inflight[key]) > 0 && inflight[key] == lock;
      assert f in Holders(State(), lock);
      if isCurrent && StrongCount(State(), lock) == 1 {
        inflight := inflight - {key};
      }
      flights := flights[f := flights[f].(phase := Finished)];
    }

    method DropGuard(f: nat)
      requires f in flights && HasGuard(flights[f])
      modifies this`flights
      ensures State() == ReleaseStep(old(State()), f)
    {
      flights := flights[f := flights[f].(phase := Released)];
    }

    method DropLease(f: nat)
      requires f in flights && !HasGuard(flights[f])
      modifies this`flights
      ensures State() == DropStep(old(State()), f)
    {
      flights := flights - {f};
    }

    method InflightContains(key: string) returns (found: bool)
      modifies this`inflight
      ensures State() == ContainsStep(old(State()), key) && found == Live(old(State()), key)
    {
      found := key in inflight && StrongCount(State(), inflight[key]) > 0;
      if !found {
        inflight := inflight - {key};
      }
    }
  }
}

/** What a fill does with its flight: re-check the cache under the lock, fetch from upstream when the row is not
    fresh, store what came back, and finish. The cache's other writers run in between. */
module Fills {
  import opened SingleFlight
  import opened Wrappers

  /** A stored row as the re-check reads it: a 200 it may serve, a negative row, or a 200 of a type it will not
      serve. `body` names the bytes, and says nothing in a negative row. */
  datatype Kind = Servable | Negative | Unservable

  datatype Stored = Stored(kind: Kind, fetchedAt: int, body: nat)

  /** The freshness windows in force at a re-check. */
  datatype Windows = Windows(freshSecs: int, negativeTtlSecs: int)

  predicate IsFresh(row: Stored, now: int, windows: Windows) {
    match row.kind
    case Servable => now - row.fetchedAt < windows.freshSecs
    case Negative => now - row.fetchedAt < windows.negativeTtlSecs
    case Unservable => false
  }

  /** How far a flight's fill has come. A fetch that revalidates keeps the servable row the re-check read. */
  datatype Progress = Queued | Clocked(now: int) | Fetching(copy: Option<Stored>) | Settled

  datatype World = World(table: Table, progress: map<nat, Progress>, rows: map<string, Stored>, clock: int)

  /** What upstream answers, and whether the write that follows commits. */
  datatype Reply = NotModified(committed: bool) | Found(committed: bool, body: nat) | Missing(committed: bool)
                 | Unavailable

  function ProgressOf(w: World, f: nat): Progress {
    if f in w.progress then w.progress[f] else Queued
  }

  predicate Holds(w: World, f: nat) {
    f in w.table.flights && w.table.flights[f].phase == Holding
  }

  predicate Fetches(w: World, f: nat) {
    Holds(w, f) && ProgressOf(w, f).Fetching?
  }

  // ----- steps -----

  function Advance(w: World, f: nat, p: Progress): World {
    w.(progress := w.progress[f := p])
  }

  function ReadClockStep(w: World, f: nat): World {
    if Holds(w, f) && ProgressOf(w, f).Queued? then Advance(w, f, Clocked(w.clock)) else w
  }

  /** A read that fails counts as no row. */
  function Existing(w: World, f: nat, readOk: bool): Option<Stored>
    requires Holds(w, f)
  {
    var key := w.table.flights[f].key;
    if readOk && key in w.rows then Some(w.rows[key]) else None
  }

  /** Losers coalesce onto a fresh row here; the others go upstream, to revalidate a servable row or to fetch
      anew. */
  function RecheckStep(w: World, f: nat, readOk: bool, windows: Windows): World {
    if Holds(w, f) && ProgressOf(w, f).Clocked? then
      var row := Existing(w, f, readOk);
      if row.Some? && IsFresh(row.value, ProgressOf(w, f).now, windows) then Advance(w, f, Settled)
      else Advance(w, f, Fetching(if row.Some? && row.value.kind.Servable? then row else None))
    else w
  }

  /** A 304 puts the copy back with a new date, a 200 stores a body, and a 404 or 204 is remembered only for a
      miss. */
  function StoredBy(reply: Reply, copy: Option<Stored>, now: int): Option<Stored> {
    match reply
    case NotModified(committed) => if copy.Some? && committed then Some(copy.value.(fetchedAt := now)) else None
    case Found(committed, body) => if committed then Some(Stored(Servable, now, body)) else None
    case Missing(committed) => if copy.None? && committed then Some(Stored(Negative, now, 0)) else None
    case Unavailable => None
  }

  function AnswerStep(w: World, f: nat, reply: Reply): World {
    if Fetches(w, f) then
      var row := StoredBy(reply, ProgressOf(w, f).copy, w.clock);
      var key := w.table.flights[f].key;
      Advance(if row.Some? then w.(rows := w.rows[key := row.value]) else w, f, Settled)
    else w
  }

  /** The map's steps; a fill finishes only once it has settled. */
  function FlightStep(w: World, s: SingleFlight.Step): World {
    if s.Finish? && ProgressOf(w, s.f) != Settled then w else w.(table := SingleFlight.Next(w.table, s))
  }

  /** A warm, an eviction, a sweep or any other writer sets or deletes a row. */
  function OutsideStep(w: World, key: string, row: Option<Stored>): World {
    w.(rows := if row.Some? then w.rows[key := row.value] else w.rows - {key})
  }

  datatype Step = OnMap(step: SingleFlight.Step) | ReadClock(f: nat) | Recheck(f: nat, readOk: bool, windows: Windows)
                | Answer(f: nat, reply: Reply) | Outside(key: string, row: Option<Stored>) | Tick(seconds: nat)

  function Next(w: World, s: Step): World {
    match s
    case OnMap(step) => FlightStep(w, step)
    case ReadClock(f) => ReadClockStep(w, f)
    case Recheck(f, readOk, windows) => RecheckStep(w, f, readOk, windows)
    case Answer(f, reply) => AnswerStep(w, f, reply)
    case Outside(key, row) => OutsideStep(w, key, row)
    case Tick(seconds) => w.(clock := w.clock + seconds)
  }

  const START := World(EMPTY, map[], map[], 0)

  function RunFrom(w: World, steps: seq<Step>): World {
    if steps == [] then w else Next(RunFrom(w, steps[..|steps| - 1]), steps[|steps| - 1])
  }

  // ----- the invariant -----

  /** A flight starts queued, leaves the queue only with its lock, and its clock reading is in the past. */
  ghost predicate Inv(w: World) {
    && SingleFlight.Inv(w.table)
    && (forall f :: f in w.progress ==> f < w.table.nextFlight)
    && (forall f :: f in w.table.flights && w.table.flights[f].phase == Waiting ==> ProgressOf(w, f) == Queued)
    && (forall f :: f in w.progress && w.progress[f].Clocked? ==> w.progress[f].now <= w.clock)
    && (forall f :: f in w.progress && w.progress[f].Fetching? && w.progress[f].copy.Some?
          ==> w.progress[f].copy.value.kind == Servable)
  }

  /** What a step of the map can do to a flight: it keeps its key and never goes back, and a new one waits. */
  ghost predicate Moves(t: Table, after: Table) {
    && t.nextFlight <= after.nextFlight
    && forall f :: f in after.flights ==>
         if f in t.flights then MovesOn(t.flights[f], after.flights[f])
         else f == t.nextFlight < after.nextFlight && after.flights[f].phase == Waiting
  }

  predicate MovesOn(before: Flight, after: Flight) {
    && after.key == before.key && after.lock == before.lock
    && (after.phase == Waiting ==> before.phase == Waiting)
    && (after.phase == Holding ==> before.phase == Waiting || before.phase == Holding)
  }

  lemma LockMoves(t: Table, key: string)
    requires SingleFlight.Inv(t)
    ensures Moves(t, LockStep(t, key))
  {
    hide Live, StrongCount;
    assert t.nextFlight !in t.flights;
  }

  lemma OtherMoves(t: Table, s: SingleFlight.Step)
    requires !s.Lock?
    ensures Moves(t, SingleFlight.Next(t, s))
  {
    hide StrongCount, Holders;
  }

  lemma FlightStepIs(t: Table, s: SingleFlight.Step)
    requires SingleFlight.Inv(t)
    ensures SingleFlight.Inv(SingleFlight.Next(t, s)) && Moves(t, SingleFlight.Next(t, s))
  {
    hide SingleFlight.Inv, Moves, LockStep, AcquireStep, FinishStep, ReleaseStep, DropStep, ContainsStep;
    StepKeepsInv(t, s);
    if s.Lock? {
      LockMoves(t, s.key);
    } else {
      OtherMoves(t, s);
    }
  }

  lemma KnownIds(t: Table)
    requires SingleFlight.Inv(t)
    ensures forall f :: f in t.flights ==> f < t.nextFlight
  {
  }

  lemma NextKeepsInv(w: World, s: Step)
    requires Inv(w)
    ensures Inv(Next(w, s))
  {
    hide SingleFlight.Next, SingleFlight.Inv, IsFresh;
    KnownIds(w.table);
    if s.OnMap? {
      FlightStepIs(w.table, s.step);
    }
  }

  lemma {:induction false} RunKeepsInv(steps: seq<Step>)
    ensures Inv(RunFrom(START, steps))
  {
    if steps == [] {
    } else {
      RunKeepsInv(steps[..|steps| - 1]);
      NextKeepsInv(RunFrom(START, steps[..|steps| - 1]), steps[|steps| - 1]);
    }
  }

  // ----- one fetch at a time, and none while the row is fresh -----

  lemma HoldersAreOne(w: World, f: nat, g: nat)
    requires Inv(w) && Holds(w, f) && Holds(w, g) && w.table.flights[f].key == w.table.flights[g].key
    ensures f == g
  {
    assert HasGuard(w.table.flights[f]) && HasGuard(w.table.flights[g]);
  }

  /** In every interleaving at most one flight of a key is fetching. */
  lemma OneFetchPerKey(steps: seq<Step>, f: nat, g: nat)
    requires var w := RunFrom(START, steps);
             Fetches(w, f) && Fetches(w, g) && w.table.flights[f].key == w.table.flights[g].key
    ensures f == g
  {
    RunKeepsInv(steps);
    HoldersAreOne(RunFrom(START, steps), f, g);
  }

  /** A re-check goes upstream exactly when the read failed or found no row inside its window at the flight's own
      clock reading: the freshness window for a tile it may serve, the negative one for a negative row. */
  lemma RecheckFetchesIff(w: World, f: nat, readOk: bool, windows: Windows)
    requires Holds(w, f) && ProgressOf(w, f).Clocked?
    ensures var key, now := w.table.flights[f].key, ProgressOf(w, f).now;
            Fetches(RecheckStep(w, f, readOk, windows), f) <==>
              !(readOk && key in w.rows &&
                match w.rows[key].kind
                case Servable => now < w.rows[key].fetchedAt + windows.freshSecs
                case Negative => now < w.rows[key].fetchedAt + windows.negativeTtlSecs
                case Unservable => false)
  {
  }

  /** What each answer leaves under the key, dated by the clock: a 200 its body, a 304 the revalidated one, a 404
      or 204 a negative row for a miss, and anything else, or a write that does not commit, the row as it was. */
  lemma AnswerLeaves(w: World, f: nat, reply: Reply)
    requires Inv(w) && Fetches(w, f)
    ensures var key, after, copy := w.table.flights[f].key, AnswerStep(w, f, reply), ProgressOf(w, f).copy;
            && (forall k :: k != key ==>
                  (k in after.rows <==> k in w.rows) && (k in w.rows ==> after.rows[k] == w.rows[k]))
            && match reply
               case Found(true, body) => key in after.rows && after.rows[key] == Stored(Servable, w.clock, body)
               case NotModified(true) =>
                 if copy.Some? then key in after.rows && after.rows[key] == Stored(Servable, w.clock, copy.value.body)
                 else after.rows == w.rows
               case Missing(true) =>
                 if copy.None?
                 then key in after.rows && after.rows[key].kind == Negative && after.rows[key].fetchedAt == w.clock
                 else after.rows == w.rows
               case _ => after.rows == w.rows
  {
  }

  ghost predicate NobodyFetches(w: World, key: string) {
    forall f :: f in w.table.flights && w.table.flights[f].key == key ==> !Fetches(w, f)
  }

  /** If the step is a re-check of `key`, it can read the row and the row is fresh. */
  predicate FindsFresh(w: World, s: Step, key: string) {
    s.Recheck? && Holds(w, s.f) && w.table.flights[s.f].key == key
    ==> s.readOk && key in w.rows && IsFresh(w.rows[key], w.clock, s.windows)
  }

  /** Before it answers, the fetching flight is alone; afterwards nobody fetches. */
  lemma AnswerEndsTheFetch(w: World, f: nat, reply: Reply)
    requires Inv(w) && Fetches(w, f)
    ensures NobodyFetches(AnswerStep(w, f, reply), w.table.flights[f].key)
  {
    forall g | g in w.table.flights && w.table.flights[g].key == w.table.flights[f].key && Holds(w, g) ensures g == f {
      HoldersAreOne(w, f, g);
    }
  }

  lemma NextStartsNoFetch(w: World, s: Step, key: string)
    requires Inv(w) && NobodyFetches(w, key) && FindsFresh(w, s, key)
    ensures NobodyFetches(Next(w, s), key)
  {
    if s.OnMap? {
      hide SingleFlight.Next, SingleFlight.Inv;
      FlightStepIs(w.table, s.step);
    } else if s.Recheck? && Holds(w, s.f) && ProgressOf(w, s.f).Clocked? {
      RecheckFetchesIff(w, s.f, s.readOk, s.windows);
    }
  }

  lemma {:induction false} NobodyFetchesUntilStale(w: World, steps: seq<Step>, key: string)
    requires Inv(w) && NobodyFetches(w, key)
    requires forall i :: 0 <= i < |steps| ==> FindsFresh(RunFrom(w, steps[..i]), steps[i], key)
    ensures Inv(RunFrom(w, steps)) && NobodyFetches(RunFrom(w, steps), key)
  {
    if steps == [] {
    } else {
      hide Inv, NobodyFetches, FindsFresh, Next;
      var n := |steps| - 1;
      forall i | 0 <= i < n ensures FindsFresh(RunFrom(w, steps[..n][..i]), steps[..n][i], key) {
        assert steps[..n][..i] == steps[..i];
      }
      NobodyFetchesUntilStale(w, steps[..n], key);
      NextStartsNoFetch(RunFrom(w, steps[..n]), steps[n], key);
      NextKeepsInv(RunFrom(w, steps[..n]), steps[n]);
    }
  }

  /** The point of the lock. In every interleaving, once a fetch for a key is answered, no flight of that key
      fetches for as long as every re-check can read a row that is fresh: neither one that was queued
      meanwhile, nor one that came later on another lock while the first guard was still out. */
  lemma NoFetchWhileFresh(before: seq<Step>, f: nat, reply: Reply, after: seq<Step>)
    requires Fetches(RunFrom(START, before), f)
    requires var w := RunFrom(START, before);
             forall i :: 0 <= i < |after|
               ==> FindsFresh(RunFrom(AnswerStep(w, f, reply), after[..i]), after[i], w.table.flights[f].key)
    ensures var w := RunFrom(START, before);
            NobodyFetches(RunFrom(AnswerStep(w, f, reply), after), w.table.flights[f].key)
  {
    var w := RunFrom(START, before);
    RunKeepsInv(before);
    AnswerEndsTheFetch(w, f, reply);
    NextKeepsInv(w, Answer(f, reply));
    NobodyFetchesUntilStale(AnswerStep(w, f, reply), after, w.table.flights[f].key);
  }

  /** What a committed answer stores is fresh until the shorter window has passed. */
  lemma CommittedAnswerIsFresh(w: World, f: nat, reply: Reply, now: int, windows: Windows)
    requires Inv(w) && Fetches(w, f) && StoredBy(reply, ProgressOf(w, f).copy, w.clock).Some?
    requires now - w.clock < windows.freshSecs && now - w.clock < windows.negativeTtlSecs
    ensures var key, after := w.table.flights[f].key, AnswerStep(w, f, reply);
            key in after.rows && IsFresh(after.rows[key], now, windows)
  {
  }

  /** Nobody but its fill writes the key, and a re-check can read the row within its window. */
  predicate LeavesFresh(w: World, s: Step, key: string, row: Stored) {
    && (s.Outside? ==> s.key != key)
    && (s.Recheck? && Holds(w, s.f) && w.table.flights[s.f].key == key
        ==> s.readOk && IsFresh(row, w.clock, s.windows))
  }

  lemma NextLeavesFresh(w: World, s: Step, key: string, row: Stored)
    requires Inv(w) && NobodyFetches(w, key) && key in w.rows && w.rows[key] == row && LeavesFresh(w, s, key, row)
    ensures NobodyFetches(Next(w, s), key) && key in Next(w, s).rows && Next(w, s).rows[key] == row
  {
    NextStartsNoFetch(w, s, key);
    hide SingleFlight.Next, SingleFlight.Inv, IsFresh;
  }

  lemma {:induction false} StoredRowLasts(w: World, steps: seq<Step>, key: string, row: Stored)
    requires Inv(w) && NobodyFetches(w, key) && key in w.rows && w.rows[key] == row
    requires forall i :: 0 <= i < |steps| ==> LeavesFresh(RunFrom(w, steps[..i]), steps[i], key, row)
    ensures var after := RunFrom(w, steps);
            Inv(after) && NobodyFetches(after, key) && key in after.rows && after.rows[key] == row
  {
    if steps == [] {
    } else {
      hide Inv, NobodyFetches, LeavesFresh, Next;
      var n := |steps| - 1;
      forall i | 0 <= i < n ensures LeavesFresh(RunFrom(w, steps[..n][..i]), steps[..n][i], key, row) {
        assert steps[..n][..i] == steps[..i];
      }
      StoredRowLasts(w, steps[..n], key, row);
      NextKeepsInv(RunFrom(w, steps[..n]), steps[n]);
      NextLeavesFresh(RunFrom(w, steps[..n]), steps[n], key, row);
    }
  }

  /** A re-check of `key` can read the row, less than `window` seconds after `start` and under windows that long. */
  predicate InTime(w: World, s: Step, key: string, start: int, window: nat) {
    && (s.Outside? ==> s.key != key)
    && (s.Recheck? && Holds(w, s.f) && w.table.flights[s.f].key == key
        ==> s.readOk && w.clock < start + window <= start + s.windows.freshSecs && window <= s.windows.negativeTtlSecs)
  }

  /** One fetch serves a whole window: after an answer that commits, no flight of the key fetches and the row is
      the one it stored, in every interleaving in which no other writer touches the key and re-checks can read
      it, until the window is over. */
  lemma OneFetchServesTheWindow(before: seq<Step>, f: nat, reply: Reply, after: seq<Step>, window: nat)
    requires var w := RunFrom(START, before);
             Fetches(w, f) && StoredBy(reply, ProgressOf(w, f).copy, w.clock).Some?
    requires var w := RunFrom(START, before);
             forall i :: 0 <= i < |after| ==>
               InTime(RunFrom(AnswerStep(w, f, reply), after[..i]), after[i], w.table.flights[f].key, w.clock, window)
    ensures var w := RunFrom(START, before);
            var key, end := w.table.flights[f].key, RunFrom(AnswerStep(w, f, reply), after);
            && NobodyFetches(end, key) && key in end.rows
            && Some(end.rows[key]) == StoredBy(reply, ProgressOf(w, f).copy, w.clock)
  {
    hide NobodyFetches, SingleFlight.Inv, IsFresh;
    var w := RunFrom(START, before);
    var key, answered := w.table.flights[f].key, AnswerStep(w, f, reply);
    RunKeepsInv(before);
    AnswerEndsTheFetch(w, f, reply);
    NextKeepsInv(w, Answer(f, reply));
    forall i | 0 <= i < |after|
      ensures LeavesFresh(RunFrom(answered, after[..i]), after[i], key, answered.rows[key])
    {
      var s, now := after[i], RunFrom(answered, after[..i]).clock;
      if s.Recheck? && now < w.clock + window <= w.clock + s.windows.freshSecs && window <= s.windows.negativeTtlSecs {
        CommittedAnswerIsFresh(w, f, reply, now, s.windows);
      }
    }
    StoredRowLasts(answered, after, key, answered.rows[key]);
  }

  lemma FreshRowSettles(w: World, g: nat, windows: Windows)
    requires Holds(w, g) && ProgressOf(w, g) == Queued
    requires var key := w.table.flights[g].key; key in w.rows && IsFresh(w.rows[key], w.clock, windows)
    ensures var after := Next(Next(w, ReadClock(g)), Recheck(g, true, windows));
            after.table == w.table && ProgressOf(after, g) == Settled
  {
  }

  /** The case of two locks: a lone flight stores, finishes and still has its guard out; the next flight of the
      key gets a lock of its own, holds it at once, and coalesces onto the stored row. */
  lemma NextLockCoalesces(w: World, f: nat, body: nat, windows: Windows)
    requires Inv(w) && Fetches(w, f) && StrongCount(w.table, w.table.flights[f].lock) == 1 && windows.freshSecs > 0
    ensures var g := w.table.nextFlight;
            var finished := Next(Next(w, Answer(f, Found(true, body))), OnMap(Finish(f)));
            var held := Next(Next(finished, OnMap(Lock(w.table.flights[f].key))), OnMap(Acquire(g)));
            var after := Next(Next(held, ReadClock(g)), Recheck(g, true, windows));
            && Holds(after, g) && ProgressOf(after, g) == Settled
            && f in after.table.flights && HasGuard(after.table.flights[f])
            && after.table.flights[g].lock != after.table.flights[f].lock
  {
    hide SingleFlight.Inv, LockStep, FinishStep, RecheckStep, ReadClockStep, Grantable, StrongCount;
    var key, g := w.table.flights[f].key, w.table.nextFlight;
    GuardOutlivesTheSection(w.table, f);
    var answered := Next(w, Answer(f, Found(true, body)));
    assert answered.table == w.table && ProgressOf(answered, f) == Settled;
    var locked := LockStep(FinishStep(w.table, f), key);
    var held := answered.(table := SetPhase(locked, g, Holding));
    assert Next(Next(Next(answered, OnMap(Finish(f))), OnMap(Lock(key))), OnMap(Acquire(g))) == held;
    FreshRowSettles(held, g, windows);
  }

  // ----- what an answer does to the row it finds -----

  predicate HasBody(w: World, key: string) {
    key in w.rows && w.rows[key].kind == Servable
  }

  /** A 304 leaves the body it finds if and only if the row still has the body it revalidated: a newer one goes.
      A row deleted meanwhile comes back. */
  lemma RenewalKeepsBodyIff(w: World, f: nat)
    requires Inv(w) && Fetches(w, f) && ProgressOf(w, f).copy.Some?
    ensures var key, after := w.table.flights[f].key, AnswerStep(w, f, NotModified(true));
            && HasBody(after, key)
            && (HasBody(w, key) ==>
                  (after.rows[key].body == w.rows[key].body <==> ProgressOf(w, f).copy.value.body == w.rows[key].body))
  {
  }

  /** An answer takes a servable body away if and only if it commits a 404 or 204 and the re-check had seen no
      servable row. */
  lemma AnswerLosesBodyIff(w: World, f: nat, reply: Reply)
    requires Inv(w) && Fetches(w, f) && HasBody(w, w.table.flights[f].key)
    ensures !HasBody(AnswerStep(w, f, reply), w.table.flights[f].key)
       <==> reply == Missing(true) && ProgressOf(w, f).copy.None?
  {
  }

  /** The key's row since a re-check: its fill has not moved and the row is the one it read. */
  ghost predicate Undisturbed(w: World, f: nat, key: string, row: Option<Stored>) {
    && Fetches(w, f) && w.table.flights[f].key == key
    && ProgressOf(w, f).copy == (if row.Some? && row.value.kind.Servable? then row else None)
    && (if key in w.rows then Some(w.rows[key]) else None) == row
  }

  /** Steps that leave `key`'s row to its fill: no other writer touches it, and the fill neither answers nor gives
      up its lock. */
  predicate Spares(s: Step, f: nat, key: string) {
    match s
    case Outside(k, _) => k != key
    case Answer(g, _) => g != f
    case OnMap(Finish(g)) => g != f
    case OnMap(Release(g)) => g != f
    case _ => true
  }

  lemma HoldingStays(t: Table, s: SingleFlight.Step, f: nat)
    requires SingleFlight.Inv(t) && f in t.flights && t.flights[f].phase == Holding
    requires !(s.Finish? && s.f == f) && !(s.Release? && s.f == f)
    ensures f in SingleFlight.Next(t, s).flights && SingleFlight.Next(t, s).flights[f] == t.flights[f]
  {
    hide StrongCount, Holders;
  }

  lemma NextStaysUndisturbed(w: World, s: Step, f: nat, key: string, row: Option<Stored>)
    requires Inv(w) && Undisturbed(w, f, key, row) && Spares(s, f, key)
    ensures Undisturbed(Next(w, s), f, key, row)
  {
    match s
    case OnMap(step) =>
      hide SingleFlight.Next, SingleFlight.Inv;
      HoldingStays(w.table, step, f);
    case Answer(g, _) =>
      if Fetches(w, g) && w.table.flights[g].key == key {
        HoldersAreOne(w, f, g);
      }
    case _ =>
  }

  lemma {:induction false} RunStaysUndisturbed(w: World, steps: seq<Step>, f: nat, key: string, row: Option<Stored>)
    requires Inv(w) && Undisturbed(w, f, key, row) && forall s :: s in steps ==> Spares(s, f, key)
    ensures Inv(RunFrom(w, steps)) && Undisturbed(RunFrom(w, steps), f, key, row)
  {
    if steps == [] {
    } else {
      hide Inv, Undisturbed, Spares, Next;
      var n := |steps| - 1;
      RunStaysUndisturbed(w, steps[..n], f, key, row);
      NextKeepsInv(RunFrom(w, steps[..n]), steps[n]);
      NextStaysUndisturbed(RunFrom(w, steps[..n]), steps[n], f, key, row);
    }
  }

  /** From a re-check that could read the row to its answer, whatever other flights do: as long as no other
      writer touches the key, a 304 leaves the very body it finds and no answer turns a body into a negative row.
      So a body is replaced by an older one or lost only when another writer stored in between or the read
      failed. */
  lemma AnswersAreSafeAlone(before: seq<Step>, f: nat, windows: Windows, between: seq<Step>, reply: Reply)
    requires var w := RunFrom(START, before); Holds(w, f) && ProgressOf(w, f).Clocked?
    requires var w := RunFrom(START, before);
             && Fetches(RecheckStep(w, f, true, windows), f)
             && forall s :: s in between ==> Spares(s, f, w.table.flights[f].key)
    ensures var w := RunFrom(START, before);
            var key := w.table.flights[f].key;
            var found := RunFrom(RecheckStep(w, f, true, windows), between);
            var after := AnswerStep(found, f, reply);
            && (HasBody(found, key) ==> HasBody(after, key))
            && (HasBody(found, key) && reply.NotModified? ==> after.rows[key].body == found.rows[key].body)
  {
    hide SingleFlight.Inv, IsFresh;
    var w := RunFrom(START, before);
    var key := w.table.flights[f].key;
    RunKeepsInv(before);
    var rechecked := RecheckStep(w, f, true, windows);
    NextKeepsInv(w, Recheck(f, true, windows));
    RunStaysUndisturbed(rechecked, between, f, key, if key in w.rows then Some(w.rows[key]) else None);
  }

  /** The other writer's case: a warm stores a newer body while a 304 is awaited, and the renewal puts the old one
      back; or it stores one while a 404 is awaited for a miss, and a negative row takes its place. */
  lemma FlushDuringFetchIsUndone(w: World, f: nat, newer: Stored)
    requires Inv(w) && Fetches(w, f) && newer.kind == Servable
    ensures var key := w.table.flights[f].key;
            var flushed := Next(w, Outside(key, Some(newer)));
            && HasBody(flushed, key) && flushed.rows[key] == newer
            && match ProgressOf(w, f).copy
               case Some(copy) => AnswerStep(flushed, f, NotModified(true)).rows[key].body == copy.body
               case None => AnswerStep(flushed, f, Missing(true)).rows[key].kind == Negative
  {
  }

  /** And a deletion undoes an answer: the next re-check goes upstream again. */
  lemma DeletedRowIsFetchedAgain(w: World, f: nat, windows: Windows)
    requires Holds(w, f) && ProgressOf(w, f).Queued?
    ensures var deleted := Next(w, Outside(w.table.flights[f].key, None));
            Fetches(Next(Next(deleted, ReadClock(f)), Recheck(f, true, windows)), f)
  {
  }

  // ----- the fill as the code runs it, from one await to the next -----

  class Filler {
    const flights: FlightMap
    var progress: map<nat, Progress>
    var rows: map<string, Stored>
    var clock: int

    function State(): World
      reads this, flights
    {
      World(flights.State(), progress, rows, clock)
    }

    constructor (flights: FlightMap)
      ensures this.flights == flights && State() == World(flights.State(), map[], map[], 0)
    {
      this.flights := flights;
      progress, rows, clock := map[], map[], 0;
    }

    /** The lock is held: read the clock. */
    method ReadNow(f: nat)
      requires Holds(State(), f) && ProgressOf(State(), f).Queued?
      modifies this`progress
      ensures State() == ReadClockStep(old(State()), f)
    {
      progress := progress[f := Clocked(clock)];
    }

    /** The re-check: coalesce onto a fresh row, or go upstream. */
    method RecheckCache(f: nat, readOk: bool, windows: Windows) returns (coalesced: bool)
      requires Holds(State(), f) && ProgressOf(State(), f).Clocked?
      modifies this`progress
      ensures State() == RecheckStep(old(State()), f, readOk, windows)
      ensures coalesced <==> ProgressOf(State(), f) == Settled
    {
      var now := progress[f].now;
      var key := flights.flights[f].key;
      var existing: Option<Stored> := None;
      if readOk && key in rows {
        existing := Some(rows[key]);
      }
      if existing.Some? {
        var row := existing.value;
        if row.kind.Servable? && now - row.fetchedAt < windows.freshSecs {
          progress := progress[f := Settled];
          return true;
        }
        if row.kind.Negative? && now - row.fetchedAt < windows.negativeTtlSecs {
          progress := progress[f := Settled];
          return true;
        }
      }
      progress := progress[f := Fetching(if existing.Some? && existing.value.kind.Servable? then existing else None)];
      return false;
    }

    /** Upstream answered: store what it gave, if it gave anything to store. */
    method StoreAnswer(f: nat, reply: Reply)
      requires Fetches(State(), f)
      modifies this`progress, this`rows
      ensures State() == AnswerStep(old(State()), f, reply)
    {
      var key := flights.flights[f].key;
      var copy := progress[f].copy;
      progress := progress[f := Settled];
      match reply
      case NotModified(committed) =>
        if copy.Some? && committed {
          var refreshed := copy.value.(fetchedAt := clock);
          rows := rows[key := refreshed];
        }
      case Found(committed, body) =>
        if committed {
          rows := rows[key := Stored(Servable, clock, body)];
        }
      case Missing(committed) =>
        if copy.None? && committed {
          rows := rows[key := Stored(Negative, clock, 0)];
        }
      case Unavailable =>
    }

    method FinishFill(f: nat)
      requires Holds(State(), f) && ProgressOf(State(), f) == Settled
      modifies flights`inflight, flights`flights
      ensures State() == FlightStep(old(State()), Finish(f))
    {
      flights.InflightFinish(f);
    }
  }
}

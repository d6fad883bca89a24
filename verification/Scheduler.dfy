/**
 app/services/scheduler.py: `run_tick` and `refresh_city` running at the same time on one event loop,
 writing one ledger.

 Any number of calls are in progress. An event is what one of them does between two awaits, or a
 change another part of the application makes to the sources table. Any event sequence is a run; an
 event that does not fit the state changes nothing.
 */
module Scheduler {
  import opened Common
  import opened Ingest

  datatype Job = Tick | Refresh(city: int)

  /** Where the persist loop stands with the attempt at the head of its queue. */
  datatype Stage =
    | Idle
    | Loaded(source: Source)
    | Recovering(source: Source, error: string)

  datatype Phase =
    | Refused
    | Loading
    | Fetching
    | Persisting(pending: seq<Attempt>, stage: Stage)
    | Returned
    | Escaped

  datatype Call = Call(job: Job, phase: Phase, batch: Batch)

  datatype World = World(db: Db, calls: seq<Call>, refreshing: set<int>)

  /** What a running call does next. */
  datatype Action =
    | LoadTargets(any: bool)
    | Fetch(attempts: seq<Attempt>)
    | Begin
    | Commit
    | Rollback(reached: nat, message: string)
    | CommitFailure
    | Finish
    | Escape

  datatype Event =
    | Start(job: Job)
    | Step(p: nat, action: Action)
    | EditSources(sources: map<int, Source>)

  predicate Running(c: Call) {
    c.phase.Loading? || c.phase.Fetching? || c.phase.Persisting?
  }

  function Initial(db: Db): World {
    World(db, [], {})
  }

  // --- steps ----------------------------------------------------------------------------------

  function Set(w: World, p: nat, phase: Phase, batch: Batch): World
    requires p < |w.calls|
  {
    w.(calls := w.calls[p := w.calls[p].(phase := phase, batch := batch)])
  }

  /** Leaving a call, normally or not, goes through `finally`. */
  function Exit(w: World, p: nat, phase: Phase): World
    requires p < |w.calls|
  {
    var w' := Set(w, p, phase, w.calls[p].batch);
    match w.calls[p].job
    case Tick => w'
    case Refresh(city) => w'.(refreshing := w.refreshing - {city})
  }

  /** One column of an UPDATE: written only if the session changed it. */
  function Column<T(==)>(current: T, before: T, after: T): T {
    if before == after then current else after
  }

  /** Flushing a loaded row: the columns it changed overwrite whatever is there, the others stay. */
  function Flush(current: Source, before: Source, after: Source): Source {
    Source(
      Column(current.intervalMinutes, before.intervalMinutes, after.intervalMinutes),
      Column(current.cacheMaxAge, before.cacheMaxAge, after.cacheMaxAge),
      Column(current.lastFetchedAt, before.lastFetchedAt, after.lastFetchedAt),
      Column(current.consecutiveFailures, before.consecutiveFailures, after.consecutiveFailures),
      Column(current.lastSuccessAt, before.lastSuccessAt, after.lastSuccessAt),
      Column(current.lastError, before.lastError, after.lastError),
      Column(current.lastErrorAt, before.lastErrorAt, after.lastErrorAt),
      Column(current.etag, before.etag, after.etag),
      Column(current.lastModified, before.lastModified, after.lastModified))
  }

  function CommitAttempt(w: World, p: nat): World
    requires p < |w.calls| && w.calls[p].phase.Persisting?
    requires w.calls[p].phase.stage.Loaded? && w.calls[p].phase.pending != []
    requires w.calls[p].phase.pending[0].sourceId in w.db.sources
  {
    var Call(_, Persisting(pending, Loaded(source)), b) := w.calls[p];
    var a := pending[0];
    var (ledger, source', outcome) := Persisted(w.db.ledger, b.seen, source, a);
    var row := Flush(w.db.sources[a.sourceId], source, source');
    Set(w, p, Persisting(pending[1..], Idle), Batch(b.seen + Marks(a, NoFault), b.outcomes + [outcome]))
      .(db := Db(ledger, w.db.sources[a.sourceId := row]))
  }

  function RollbackAttempt(w: World, p: nat, fault: Fault): World
    requires p < |w.calls| && w.calls[p].phase.Persisting? && w.calls[p].phase.pending != [] && fault.Raised?
  {
    var Call(_, Persisting(pending, _), b) := w.calls[p];
    var a := pending[0];
    var b' := b.(seen := b.seen + Marks(a, fault));
    if a.sourceId in w.db.sources
    then Set(w, p, Persisting(pending, Recovering(w.db.sources[a.sourceId], PersistError(fault))), b')
    else Exit(w, p, Escaped)
  }

  function CommitRecordedFailure(w: World, p: nat): World
    requires p < |w.calls| && w.calls[p].phase.Persisting?
    requires w.calls[p].phase.stage.Recovering? && w.calls[p].phase.pending != []
  {
    var Call(_, Persisting(pending, Recovering(source, error)), b) := w.calls[p];
    var a := pending[0];
    if a.sourceId in w.db.sources then
      var row := Flush(w.db.sources[a.sourceId], source, RecordFailure(source, error, a.at));
      Set(w, p, Persisting(pending[1..], Idle), b.(outcomes := b.outcomes + [Failed(a.sourceId, error)]))
        .(db := w.db.(sources := w.db.sources[a.sourceId := row]))
    else Exit(w, p, Escaped)
  }

  function BeginAttempt(w: World, p: nat): World
    requires p < |w.calls| && w.calls[p].phase.Persisting? && w.calls[p].phase.pending != []
  {
    var Call(_, Persisting(pending, _), b) := w.calls[p];
    if pending[0].sourceId in w.db.sources
    then Set(w, p, Persisting(pending, Loaded(w.db.sources[pending[0].sourceId])), b)
    else Set(w, p, Persisting(pending[1..], Idle), b)
  }

  function StartCall(w: World, job: Job): World {
    var call := Call(job, Loading, Batch({}, []));
    match job
    case Tick => w.(calls := w.calls + [call])
    case Refresh(city) =>
      if city in w.refreshing
      then w.(calls := w.calls + [call.(phase := Refused)])
      else w.(calls := w.calls + [call], refreshing := w.refreshing + {city})
  }

  function Act(w: World, p: nat, action: Action): World
    requires p < |w.calls| && Running(w.calls[p])
  {
    var phase, batch := w.calls[p].phase, w.calls[p].batch;
    if action.Escape? then Exit(w, p, Escaped)
    else match phase
      case Loading =>
        if !action.LoadTargets? then w
        else if action.any then Set(w, p, Fetching, batch)
        else Exit(w, p, Returned)
      case Fetching =>
        if action.Fetch? then Set(w, p, Persisting(action.attempts, Idle), batch) else w
      case Persisting(pending, stage) =>
        if pending == [] then
          if action.Finish? && stage.Idle? then Exit(w, p, Returned) else w
        else match stage
          case Idle => if action.Begin? then BeginAttempt(w, p) else w
          case Loaded(_) =>
            if action.Commit? && pending[0].sourceId in w.db.sources then CommitAttempt(w, p)
            else if action.Rollback? then RollbackAttempt(w, p, Raised(action.reached, action.message))
            else w
          case Recovering(_, _) => if action.CommitFailure? then CommitRecordedFailure(w, p) else w
  }

  function Next(w: World, e: Event): World {
    match e
    case Start(job) => StartCall(w, job)
    case EditSources(sources) => w.(db := w.db.(sources := sources))
    case Step(p, action) => if p < |w.calls| && Running(w.calls[p]) then Act(w, p, action) else w
  }

  function Run(w: World, events: seq<Event>): World
    decreases |events|
  {
    if events == [] then w else Next(Run(w, events[..|events| - 1]), events[|events| - 1])
  }

  // --- the ledger -----------------------------------------------------------------------------

  function NewIn(outcomes: seq<Outcome>): nat {
    if outcomes == [] then 0 else NewIn(outcomes[..|outcomes| - 1]) + outcomes[|outcomes| - 1].newArticles
  }

  /** The `new_articles` of every outcome of every call, finished or not. */
  function TotalNew(calls: seq<Call>): nat {
    if calls == [] then 0 else TotalNew(calls[..|calls| - 1]) + NewIn(calls[|calls| - 1].batch.outcomes)
  }

  lemma {:induction false} TotalNewUpdate(calls: seq<Call>, p: nat, c: Call)
    requires p < |calls|
    ensures TotalNew(calls[p := c]) == TotalNew(calls) - NewIn(calls[p].batch.outcomes) + NewIn(c.batch.outcomes)
  {
    var n := |calls| - 1;
    if p < n {
      assert calls[p := c][..n] == calls[..n][p := c];
      TotalNewUpdate(calls[..n], p, c);
    } else {
      assert calls[p := c][..n] == calls[..n];
    }
  }

  lemma NewInMore(outcomes: seq<Outcome>, o: Outcome)
    ensures NewIn(outcomes + [o]) == NewIn(outcomes) + o.newArticles
  {
    assert (outcomes + [o])[..|outcomes|] == outcomes;
  }

  /** One step's effect on the ledger and on what call `p` has reported. */
  ghost predicate Balanced(w: World, w': World, p: nat)
    requires p < |w.calls|
  {
    && |w'.calls| == |w.calls| && w'.calls == w.calls[p := w'.calls[p]]
    && Extends(w'.db.ledger, w.db.ledger)
    && NewIn(w'.calls[p].batch.outcomes) - NewIn(w.calls[p].batch.outcomes) == |w'.db.ledger| - |w.db.ledger|
  }

  lemma CommitBalances(w: World, p: nat)
    requires p < |w.calls| && w.calls[p].phase.Persisting?
    requires w.calls[p].phase.stage.Loaded? && w.calls[p].phase.pending != []
    requires w.calls[p].phase.pending[0].sourceId in w.db.sources
    ensures Balanced(w, CommitAttempt(w, p), p)
  {
    var c := w.calls[p];
    PersistedGrows(w.db.ledger, c.batch.seen, c.phase.stage.source, c.phase.pending[0]);
    NewInMore(c.batch.outcomes, Persisted(w.db.ledger, c.batch.seen, c.phase.stage.source, c.phase.pending[0]).2);
  }

  lemma RecordedFailureBalances(w: World, p: nat)
    requires p < |w.calls| && w.calls[p].phase.Persisting?
    requires w.calls[p].phase.stage.Recovering? && w.calls[p].phase.pending != []
    ensures Balanced(w, CommitRecordedFailure(w, p), p)
  {
    var c := w.calls[p];
    NewInMore(c.batch.outcomes, Failed(c.phase.pending[0].sourceId, c.phase.stage.error));
  }

  lemma ActBalances(w: World, p: nat, action: Action)
    requires p < |w.calls| && Running(w.calls[p])
    ensures Balanced(w, Act(w, p, action), p)
  {
    var phase := w.calls[p].phase;
    if !action.Escape? && phase.Persisting? && phase.pending != [] {
      match phase.stage
      case Idle =>
      case Loaded(_) =>
        if action.Commit? && phase.pending[0].sourceId in w.db.sources {
          CommitBalances(w, p);
        }
      case Recovering(_, _) =>
        RecordedFailureBalances(w, p);
    }
  }

  lemma StepKeepsLedger(w: World, e: Event)
    ensures var w' := Next(w, e);
            && Extends(w'.db.ledger, w.db.ledger)
            && TotalNew(w'.calls) - TotalNew(w.calls) == |w'.db.ledger| - |w.db.ledger|
  {
    var w' := Next(w, e);
    match e
    case Start(_) =>
      assert w'.calls[..|w.calls|] == w.calls;
    case EditSources(_) =>
    case Step(p, action) =>
      if p < |w.calls| && Running(w.calls[p]) {
        ActBalances(w, p, action);
        TotalNewUpdate(w.calls, p, w'.calls[p]);
      }
  }

  /**
   However ticks and refreshes interleave, and whichever of their persists raise: no ledger row is
   lost or changes owner, and the new articles all outcomes report add up to exactly the growth.
   */
  lemma {:induction false} LedgerConservation(w: World, events: seq<Event>)
    ensures var w' := Run(w, events);
            && Extends(w'.db.ledger, w.db.ledger)
            && TotalNew(w'.calls) - TotalNew(w.calls) == |w'.db.ledger| - |w.db.ledger|
    decreases |events|
  {
    if events != [] {
      var n := |events| - 1;
      LedgerConservation(w, events[..n]);
      StepKeepsLedger(Run(w, events[..n]), events[n]);
    }
  }

  // --- the refresh guard ----------------------------------------------------------------------

  ghost predicate Refreshes(w: World, p: nat, city: int) {
    p < |w.calls| && w.calls[p].job == Refresh(city) && Running(w.calls[p])
  }

  ghost predicate GuardInv(w: World) {
    && (forall city :: city in w.refreshing <==> exists p: nat :: Refreshes(w, p, city))
    && (forall p: nat, q: nat, city :: Refreshes(w, p, city) && Refreshes(w, q, city) ==> p == q)
  }

  /** A step of a call either leaves it running with its guard, or ends it and drops its guard. */
  lemma StepOfACall(w: World, p: nat, action: Action)
    requires p < |w.calls| && Running(w.calls[p])
    ensures var w' := Act(w, p, action);
            && |w'.calls| == |w.calls|
            && (forall q :: 0 <= q < |w.calls| && q != p ==> w'.calls[q] == w.calls[q])
            && w'.calls[p].job == w.calls[p].job
            && w'.refreshing == if Running(w'.calls[p]) || w.calls[p].job.Tick? then w.refreshing
                                else w.refreshing - {w.calls[p].job.city}
  {
  }

  lemma StartKeepsGuard(w: World, job: Job)
    requires GuardInv(w)
    ensures GuardInv(StartCall(w, job))
  {
    var w', n := StartCall(w, job), |w.calls|;
    assert forall p: nat, city :: p != n ==> (Refreshes(w', p, city) <==> Refreshes(w, p, city));
    forall city ensures city in w'.refreshing <==> exists p: nat :: Refreshes(w', p, city) {
      if city in w.refreshing {
        var p: nat :| Refreshes(w, p, city);
        assert Refreshes(w', p, city);
      } else if job == Refresh(city) {
        assert Refreshes(w', n, city);
      }
    }
  }

  lemma ActKeepsGuard(w: World, p: nat, action: Action)
    requires p < |w.calls| && Running(w.calls[p]) && GuardInv(w)
    ensures GuardInv(Act(w, p, action))
  {
    var w' := Act(w, p, action);
    StepOfACall(w, p, action);
    assert forall q: nat, city :: q != p ==> (Refreshes(w', q, city) <==> Refreshes(w, q, city));
    assert forall q: nat, city :: Refreshes(w', q, city) ==> Refreshes(w, q, city);
    forall city ensures city in w'.refreshing <==> exists q: nat :: Refreshes(w', q, city) {
      if city in w'.refreshing {
        var q: nat :| Refreshes(w, q, city);
        assert Refreshes(w', q, city);
      }
      if q: nat :| Refreshes(w', q, city) {
        assert Refreshes(w, q, city);
        assert city in w.refreshing;
        if city !in w'.refreshing {
          assert Refreshes(w, p, city);
        }
      }
    }
  }

  lemma StepKeepsGuard(w: World, e: Event)
    requires GuardInv(w)
    ensures GuardInv(Next(w, e))
  {
    match e
    case EditSources(_) =>
      assert forall p: nat, city :: Refreshes(Next(w, e), p, city) <==> Refreshes(w, p, city);
    case Start(job) =>
      StartKeepsGuard(w, job);
    case Step(p, action) =>
      if p < |w.calls| && Running(w.calls[p]) {
        ActKeepsGuard(w, p, action);
      }
  }

  /**
   In every run each city has at most one refresh past the guard, and the guard set names exactly the
   cities that have one: whatever way a refresh ends, its entry is gone with it.
   */
  lemma {:induction false} RefreshGuardHolds(db: Db, events: seq<Event>)
    ensures GuardInv(Run(Initial(db), events))
    decreases |events|
  {
    if events != [] {
      var n := |events| - 1;
      RefreshGuardHolds(db, events[..n]);
      StepKeepsGuard(Run(Initial(db), events[..n]), events[n]);
    }
  }

  /** A city is released only by the call that holds it, which is never a refused one, and only as that call ends. */
  lemma OnlyTheHolderReleases(w: World, e: Event, city: int)
    requires GuardInv(w) && city in w.refreshing && city !in Next(w, e).refreshing
    ensures e.Step? && Refreshes(w, e.p, city) && !Running(Next(w, e).calls[e.p])
  {
    if e.Step? && e.p < |w.calls| && Running(w.calls[e.p]) {
      StepOfACall(w, e.p, e.action);
    }
  }

  // --- one call on its own --------------------------------------------------------------------

  function SoloAttempt(p: nat, db: Db, a: Attempt, fault: Fault): seq<Event> {
    if a.sourceId !in db.sources then [Step(p, Begin)]
    else match fault
      case NoFault => [Step(p, Begin), Step(p, Commit)]
      case Raised(reached, message) => [Step(p, Begin), Step(p, Rollback(reached, message)), Step(p, CommitFailure)]
  }

  /** The events of call `p` persisting `attempts` with nobody in between. */
  function SoloRun(p: nat, db: Db, attempts: seq<Attempt>, faults: seq<Fault>): seq<Event>
    requires |faults| == |attempts|
    decreases |attempts|
  {
    if attempts == [] then []
    else
      var n := |attempts| - 1;
      SoloRun(p, db, attempts[..n], faults[..n]) + SoloAttempt(p, db, attempts[n], faults[n])
  }

  lemma {:induction false} RunAppend(w: World, a: seq<Event>, b: seq<Event>)
    ensures Run(w, a + b) == Run(Run(w, a), b)
    decreases |b|
  {
    if b == [] {
      assert a + b == a;
    } else {
      assert (a + b)[..|a + b| - 1] == a + b[..|b| - 1];
      RunAppend(w, a, b[..|b| - 1]);
    }
  }

  lemma RunOne(w: World, e: Event)
    ensures Run(w, [e]) == Next(w, e)
  {
    assert [e][..0] == [];
  }

  /** The state of a call that is between two attempts. */
  ghost predicate AtAttempt(w: World, p: nat, db: Db, b: Batch, pending: seq<Attempt>) {
    p < |w.calls| && w.db == db && w.calls[p].phase == Persisting(pending, Idle) && w.calls[p].batch == b
  }

  lemma FlushUntouched(before: Source, after: Source)
    ensures Flush(before, before, after) == after
  {
  }

  lemma SoloCommit(w: World, p: nat, a: Attempt, rest: seq<Attempt>, b: Batch)
    requires AtAttempt(w, p, w.db, b, [a] + rest) && a.sourceId in w.db.sources
    ensures var (db', b') := PersistOne(w.db, b, a, NoFault);
            AtAttempt(Next(Next(w, Step(p, Begin)), Step(p, Commit)), p, db', b', rest)
  {
    assert ([a] + rest)[1..] == rest;
    var source := w.db.sources[a.sourceId];
    FlushUntouched(source, Persisted(w.db.ledger, b.seen, source, a).1);
  }

  lemma SoloRollback(w: World, p: nat, a: Attempt, rest: seq<Attempt>, fault: Fault, b: Batch)
    requires AtAttempt(w, p, w.db, b, [a] + rest) && a.sourceId in w.db.sources && fault.Raised?
    ensures var (db', b') := PersistOne(w.db, b, a, fault);
            AtAttempt(Next(Next(Next(w, Step(p, Begin)), Step(p, Rollback(fault.reached, fault.message))),
                           Step(p, CommitFailure)),
                      p, db', b', rest)
  {
    assert ([a] + rest)[1..] == rest;
    var source := w.db.sources[a.sourceId];
    FlushUntouched(source, RecordFailure(source, PersistError(fault), a.at));
  }

  lemma SoloAttemptIsPersistOne(w: World, p: nat, a: Attempt, rest: seq<Attempt>, fault: Fault, b: Batch)
    requires AtAttempt(w, p, w.db, b, [a] + rest)
    ensures var (db', b') := PersistOne(w.db, b, a, fault);
            AtAttempt(Run(w, SoloAttempt(p, w.db, a, fault)), p, db', b', rest)
  {
    var begin := Step(p, Begin);
    RunOne(w, begin);
    if a.sourceId !in w.db.sources {
      assert ([a] + rest)[1..] == rest;
    } else {
      match fault
      case NoFault =>
        RunAppend(w, [begin], [Step(p, Commit)]);
        RunOne(Next(w, begin), Step(p, Commit));
        SoloCommit(w, p, a, rest, b);
      case Raised(reached, message) =>
        var rollback := Step(p, Rollback(reached, message));
        RunAppend(w, [begin], [rollback]);
        RunOne(Next(w, begin), rollback);
        RunAppend(w, [begin] + [rollback], [Step(p, CommitFailure)]);
        RunOne(Next(Next(w, begin), rollback), Step(p, CommitFailure));
        assert [begin] + [rollback] + [Step(p, CommitFailure)] == SoloAttempt(p, w.db, a, fault);
        SoloRollback(w, p, a, rest, fault, b);
    }
  }

  /** Left alone, a call does to the database what `persist_attempts` does read top to bottom. */
  lemma {:induction false} SoloRunIsPersistAll(
      w: World, p: nat, attempts: seq<Attempt>, faults: seq<Fault>, rest: seq<Attempt>)
    requires |faults| == |attempts|
    requires AtAttempt(w, p, w.db, Batch({}, []), attempts + rest)
    ensures var (db', b') := PersistAll(w.db, Batch({}, []), attempts, faults);
            AtAttempt(Run(w, SoloRun(p, w.db, attempts, faults)), p, db', b', rest)
    decreases |attempts|
  {
    if attempts == [] {
      assert attempts + rest == rest;
    } else {
      var n := |attempts| - 1;
      assert attempts[..n] + ([attempts[n]] + rest) == attempts + rest;
      SoloRunIsPersistAll(w, p, attempts[..n], faults[..n], [attempts[n]] + rest);
      var before := Run(w, SoloRun(p, w.db, attempts[..n], faults[..n]));
      var (db', b') := PersistAll(w.db, Batch({}, []), attempts[..n], faults[..n]);
      SourcesAndSeen(w.db, attempts[..n], faults[..n]);
      SoloAttemptIsPersistOne(before, p, attempts[n], rest, faults[n], b');
      assert SoloAttempt(p, before.db, attempts[n], faults[n]) == SoloAttempt(p, w.db, attempts[n], faults[n]);
      RunAppend(w, SoloRun(p, w.db, attempts[..n], faults[..n]), SoloAttempt(p, w.db, attempts[n], faults[n]));
    }
  }

  /** Steps of one call touch nobody else's, and while it is running the guard set stands. */
  lemma {:induction false} StepsTouchOneCall(w: World, p: nat, events: seq<Event>)
    requires p < |w.calls| && forall e :: e in events ==> e.Step? && e.p == p
    ensures var w' := Run(w, events);
            && |w'.calls| == |w.calls| && w'.calls == w.calls[p := w'.calls[p]]
            && w'.calls[p].job == w.calls[p].job
            && (Running(w'.calls[p]) ==> w'.refreshing == w.refreshing)
    decreases |events|
  {
    if events != [] {
      var n := |events| - 1;
      var e := events[n];
      assert e in events;
      StepsTouchOneCall(w, p, events[..n]);
      var before := Run(w, events[..n]);
      if Running(before.calls[p]) {
        StepOfACall(before, p, e.action);
        var after := Run(w, events);
        assert after.calls == w.calls[p := after.calls[p]];
      }
    }
  }

  lemma {:induction false} SoloRunIsSteps(p: nat, db: Db, attempts: seq<Attempt>, faults: seq<Fault>)
    requires |faults| == |attempts|
    ensures forall e :: e in SoloRun(p, db, attempts, faults) ==> e.Step? && e.p == p
    decreases |attempts|
  {
    if attempts != [] {
      SoloRunIsSteps(p, db, attempts[..|attempts| - 1], faults[..|attempts| - 1]);
    }
  }

  /** A whole call: its targets are loaded, their feeds fetched, every attempt persisted, and it returns. */
  function SoloCall(w: World, job: Job, attempts: seq<Attempt>, faults: seq<Fault>): seq<Event>
    requires |faults| == |attempts|
  {
    var p := |w.calls|;
    [Start(job), Step(p, LoadTargets(true)), Step(p, Fetch(attempts))]
    + SoloRun(p, w.db, attempts, faults)
    + [Step(p, Finish)]
  }

  lemma SoloStart(w: World, job: Job, attempts: seq<Attempt>)
    requires job.Refresh? ==> job.city !in w.refreshing
    ensures var p := |w.calls|;
            var w' := Run(w, [Start(job), Step(p, LoadTargets(true)), Step(p, Fetch(attempts))]);
            && w'.db == w.db
            && w'.calls == w.calls + [Call(job, Persisting(attempts, Idle), Batch({}, []))]
            && w'.refreshing == w.refreshing + if job.Refresh? then {job.city} else {}
  {
    var p := |w.calls|;
    var start, load, fetch := Start(job), Step(p, LoadTargets(true)), Step(p, Fetch(attempts));
    RunThree(w, start, load, fetch);
    var started := Next(w, start);
    assert started.calls == w.calls + [Call(job, Loading, Batch({}, []))];
    var loaded := Next(started, load);
    assert loaded.calls == w.calls + [Call(job, Fetching, Batch({}, []))];
    assert Next(loaded, fetch).calls == w.calls + [Call(job, Persisting(attempts, Idle), Batch({}, []))];
  }

  lemma RunThree(w: World, a: Event, b: Event, c: Event)
    ensures Run(w, [a, b, c]) == Next(Next(Next(w, a), b), c)
  {
    hide Next;
    RunOne(w, a);
    assert [a, b][..1] == [a];
    assert Run(w, [a, b]) == Next(Run(w, [a]), b);
    assert [a, b, c][..2] == [a, b];
  }

  /**
   A call nobody interferes with, from its start to its return: the feeds it fetched, all of them and
   no others, are what it persists; it hands back their outcomes, and its city is free again.
   */
  lemma SoloCallPersistsWhatItFetched(w: World, job: Job, attempts: seq<Attempt>, faults: seq<Fault>)
    requires |faults| == |attempts|
    requires job.Refresh? ==> job.city !in w.refreshing
    ensures var (db', b') := PersistAll(w.db, Batch({}, []), attempts, faults);
            Run(w, SoloCall(w, job, attempts, faults))
            == World(db', w.calls + [Call(job, Returned, b')], w.refreshing)
  {
    var p := |w.calls|;
    var opening := [Start(job), Step(p, LoadTargets(true)), Step(p, Fetch(attempts))];
    var body := SoloRun(p, w.db, attempts, faults);
    SoloStart(w, job, attempts);
    var fetched := Run(w, opening);
    assert attempts + [] == attempts;
    SoloRunIsPersistAll(fetched, p, attempts, faults, []);
    SoloRunIsSteps(p, w.db, attempts, faults);
    StepsTouchOneCall(fetched, p, body);
    RunAppend(w, opening, body);
    RunAppend(w, opening + body, [Step(p, Finish)]);
    RunOne(Run(fetched, body), Step(p, Finish));
    var after := Next(Run(fetched, body), Step(p, Finish));
    assert after.calls == w.calls + [Call(job, Returned, PersistAll(w.db, Batch({}, []), attempts, faults).1)];
  }
}

/**
 What becomes of the feeds a tick or a refresh has fetched, however the calls interleave: every one is
 dealt with, in the order fetched, and reported.
 */
module TickHistory {
  import opened Common
  import opened Ingest
  import opened Scheduler

  /** How an attempt came to an end. */
  datatype Fate = Gone | Committed | RolledBack(error: string)

  predicate Fetches(w: World, p: nat, e: Event) {
    e.Step? && e.p == p && p < |w.calls| && w.calls[p].phase.Fetching? && e.action.Fetch?
  }

  /** The attempts that call `p` went away to fetch, once they are back. */
  function Fetched(db: Db, events: seq<Event>, p: nat): seq<Attempt> {
    if events == [] then []
    else
      var n := |events| - 1;
      if Fetches(Run(Initial(db), events[..n]), p, events[n]) then events[n].action.attempts
      else Fetched(db, events[..n], p)
  }

  /** The fate an event decides for the attempt call `p` is at, if it decides one. */
  function FateGiven(w: World, p: nat, e: Event): seq<Fate> {
    if e.Step? && e.p == p && p < |w.calls| && w.calls[p].phase.Persisting? && w.calls[p].phase.pending != [] then
      var there := w.calls[p].phase.pending[0].sourceId in w.db.sources;
      match w.calls[p].phase.stage
      case Idle => if e.action.Begin? && !there then [Gone] else []
      case Loaded(_) => if e.action.Commit? && there then [Committed] else []
      case Recovering(_, error) => if e.action.CommitFailure? && there then [RolledBack(error)] else []
    else []
  }

  function Fates(db: Db, events: seq<Event>, p: nat): seq<Fate> {
    if events == [] then []
    else
      var n := |events| - 1;
      Fates(db, events[..n], p) + FateGiven(Run(Initial(db), events[..n]), p, events[n])
  }

  /** An outcome tells what came of its attempt. */
  ghost predicate Tells(o: Outcome, a: Attempt, fate: Fate) {
    && o.sourceId == a.sourceId
    && match fate
       case Gone => false
       case RolledBack(error) => !o.ok && o.error == Some(error) && o.newArticles == 0
       case Committed =>
         match a.result
         case Err(error) => !o.ok && o.error == Some(error) && o.newArticles == 0
         case Ok(NotModified(_)) => o.ok && o.error == None && o.notModified && o.newArticles == 0
         case Ok(Unrecognised(_)) => !o.ok && o.error.Some? && o.newArticles == 0
         case Ok(Feed(_, _)) => o.ok && o.error == None && !o.notModified
  }

  /** One outcome per attempt, in the same order, but for those whose source was gone. */
  ghost predicate Reported(attempts: seq<Attempt>, fates: seq<Fate>, outcomes: seq<Outcome>)
    requires |fates| == |attempts|
    decreases |attempts|
  {
    if attempts == [] then outcomes == []
    else
      var n := |attempts| - 1;
      if fates[n].Gone? then Reported(attempts[..n], fates[..n], outcomes)
      else
        && outcomes != []
        && Tells(outcomes[|outcomes| - 1], attempts[n], fates[n])
        && Reported(attempts[..n], fates[..n], outcomes[..|outcomes| - 1])
  }

  /** One of the first `n` attempts carried `k` and was rolled back. */
  ghost predicate Hidden(attempts: seq<Attempt>, fates: seq<Fate>, n: nat, k: Key) {
    exists i: nat ::
      i < n && i < |fates| && i < |attempts| && fates[i].RolledBack? && k in Marks(attempts[i], NoFault)
  }

  /** The stories of a committed feed are in the ledger, unless an earlier feed that raised had them. */
  ghost predicate Stored(attempts: seq<Attempt>, fates: seq<Fate>, ledger: Ledger) {
    forall i: nat, k ::
      i < |fates| && i < |attempts| && fates[i].Committed? && k in Marks(attempts[i], NoFault)
      ==> k in ledger || Hidden(attempts, fates, i, k)
  }

  /** Where the keys a call has seen are. */
  ghost predicate SeenIsSomewhere(
      seen: set<Key>, attempts: seq<Attempt>, fates: seq<Fate>, ledger: Ledger, stage: Stage)
  {
    forall k :: k in seen ==>
      || k in ledger
      || Hidden(attempts, fates, |fates|, k)
      || (stage.Recovering? && |fates| < |attempts| && k in Marks(attempts[|fates|], NoFault))
  }

  ghost predicate Accounted(w: World, p: nat, attempts: seq<Attempt>, fates: seq<Fate>) {
    if p >= |w.calls| then attempts == [] && fates == []
    else
      var c := w.calls[p];
      && |fates| <= |attempts|
      && Reported(attempts[..|fates|], fates, c.batch.outcomes)
      && Stored(attempts, fates, w.db.ledger)
      && match c.phase
         case Refused => attempts == []
         case Loading => attempts == [] && c.batch.seen == {}
         case Fetching => attempts == [] && c.batch.seen == {}
         case Persisting(pending, stage) =>
           && pending == attempts[|fates|..]
           && (!stage.Idle? ==> pending != [])
           && SeenIsSomewhere(c.batch.seen, attempts, fates, w.db.ledger, stage)
         case Returned => |fates| == |attempts|
         case Escaped => true
  }

  // --- one event ------------------------------------------------------------------------------

  lemma StoredGrows(attempts: seq<Attempt>, fates: seq<Fate>, ledger: Ledger, grown: Ledger)
    requires Stored(attempts, fates, ledger) && Extends(grown, ledger)
    ensures Stored(attempts, fates, grown)
  {
  }

  lemma ReportMore(attempts: seq<Attempt>, fates: seq<Fate>, outcomes: seq<Outcome>, fate: Fate, more: seq<Outcome>)
    requires |fates| < |attempts| && Reported(attempts[..|fates|], fates, outcomes)
    requires if fate.Gone? then more == [] else |more| == 1 && Tells(more[0], attempts[|fates|], fate)
    ensures Reported(attempts[..|fates| + 1], fates + [fate], outcomes + more)
  {
    var n := |fates|;
    assert attempts[..n + 1][..n] == attempts[..n] && (fates + [fate])[..n] == fates;
    if fate.Gone? {
      assert outcomes + more == outcomes;
    } else {
      assert (outcomes + more)[..|outcomes|] == outcomes;
    }
  }

  lemma HiddenStays(attempts: seq<Attempt>, fates: seq<Fate>, fate: Fate, n: nat, k: Key)
    requires Hidden(attempts, fates, n, k)
    ensures forall m :: n <= m ==> Hidden(attempts, fates + [fate], m, k)
  {
    var i: nat :| i < n && i < |fates| && i < |attempts| && fates[i].RolledBack? && k in Marks(attempts[i], NoFault);
    assert (fates + [fate])[i] == fates[i];
  }

  lemma MarksOfAFault(a: Attempt, fault: Fault)
    ensures Marks(a, fault) <= Marks(a, NoFault)
  {
    if a.result.Ok? && a.result.value.Feed? && fault.Raised? && fault.reached < |a.result.value.entries| {
      var entries := a.result.value.entries;
      forall k | k in KeysOf(entries[..fault.reached]) ensures k in KeysOf(entries) {
        assert Some(k) in entries[..fault.reached];
      }
    }
  }

  /** The books when the attempt at the head is settled without a commit. */
  lemma SettleStored(attempts: seq<Attempt>, fates: seq<Fate>, fate: Fate, ledger: Ledger)
    requires Stored(attempts, fates, ledger) && !fate.Committed? && |fates| < |attempts|
    ensures Stored(attempts, fates + [fate], ledger)
  {
    var fates' := fates + [fate];
    forall i: nat, k |
      i < |fates'| && i < |attempts| && fates'[i].Committed? && k in Marks(attempts[i], NoFault) && k !in ledger
      ensures Hidden(attempts, fates', i, k)
    {
      assert fates[i].Committed?;
      HiddenStays(attempts, fates, fate, i, k);
    }
  }

  lemma SettleSeen(seen: set<Key>, attempts: seq<Attempt>, fates: seq<Fate>, fate: Fate, ledger: Ledger, stage: Stage)
    requires SeenIsSomewhere(seen, attempts, fates, ledger, stage) && |fates| < |attempts|
    requires stage.Recovering? ==> fate.RolledBack?
    ensures SeenIsSomewhere(seen, attempts, fates + [fate], ledger, Idle)
  {
    var fates', n := fates + [fate], |fates|;
    forall k | k in seen && k !in ledger ensures Hidden(attempts, fates', n + 1, k) {
      if Hidden(attempts, fates, n, k) {
        HiddenStays(attempts, fates, fate, n, k);
      } else {
        assert fates'[n].RolledBack?;
      }
    }
  }

  /** The books when the attempt at the head is committed: its keys are stored or seen already. */
  lemma CommitStores(
      attempts: seq<Attempt>, fates: seq<Fate>, ledger: Ledger, grown: Ledger, seen: set<Key>, stage: Stage)
    requires |fates| < |attempts| && Stored(attempts, fates, ledger) && Extends(grown, ledger)
    requires SeenIsSomewhere(seen, attempts, fates, ledger, stage) && !stage.Recovering?
    requires forall k :: k in Marks(attempts[|fates|], NoFault) ==> k in grown || k in seen
    ensures Stored(attempts, fates + [Committed], grown)
    ensures SeenIsSomewhere(seen + Marks(attempts[|fates|], NoFault), attempts, fates + [Committed], grown, Idle)
  {
    var n, fates', marks := |fates|, fates + [Committed], Marks(attempts[|fates|], NoFault);
    forall k | k in seen + marks && k !in grown
      ensures Hidden(attempts, fates', n, k) && Hidden(attempts, fates', n + 1, k)
    {
      assert k in seen && k !in ledger;
      HiddenStays(attempts, fates, Committed, n, k);
    }
    forall i: nat, k |
      i < |fates'| && i < |attempts| && fates'[i].Committed? && k in Marks(attempts[i], NoFault) && k !in grown
      ensures Hidden(attempts, fates', i, k)
    {
      if i < n {
        assert fates[i].Committed? && k !in ledger;
        HiddenStays(attempts, fates, Committed, i, k);
      }
    }
  }

  lemma CommitAccounts(w: World, p: nat, attempts: seq<Attempt>, fates: seq<Fate>)
    requires Accounted(w, p, attempts, fates)
    requires p < |w.calls| && w.calls[p].phase.Persisting?
    requires w.calls[p].phase.stage.Loaded? && w.calls[p].phase.pending != []
    requires w.calls[p].phase.pending[0].sourceId in w.db.sources
    ensures Accounted(CommitAttempt(w, p), p, attempts, fates + [Committed])
  {
    hide Reported, Stored, SeenIsSomewhere, Flush;
    var n, c := |fates|, w.calls[p];
    var a := attempts[n];
    var (grown, _, outcome) := Persisted(w.db.ledger, c.batch.seen, c.phase.stage.source, a);
    PersistedGrows(w.db.ledger, c.batch.seen, c.phase.stage.source, a);
    assert Tells(outcome, a, Committed);
    ReportMore(attempts, fates, c.batch.outcomes, Committed, [outcome]);
    assert attempts[n..][1..] == attempts[n + 1..];
    CommitStores(attempts, fates, w.db.ledger, grown, c.batch.seen, c.phase.stage);
  }

  lemma RollbackAccounts(w: World, p: nat, attempts: seq<Attempt>, fates: seq<Fate>, fault: Fault)
    requires Accounted(w, p, attempts, fates) && fault.Raised?
    requires p < |w.calls| && w.calls[p].phase.Persisting?
    requires w.calls[p].phase.stage.Loaded? && w.calls[p].phase.pending != []
    ensures Accounted(RollbackAttempt(w, p, fault), p, attempts, fates)
  {
    MarksOfAFault(attempts[|fates|], fault);
  }

  lemma RecordedFailureAccounts(w: World, p: nat, attempts: seq<Attempt>, fates: seq<Fate>)
    requires Accounted(w, p, attempts, fates)
    requires p < |w.calls| && w.calls[p].phase.Persisting?
    requires w.calls[p].phase.stage.Recovering? && w.calls[p].phase.pending != []
    ensures var settled := if w.calls[p].phase.pending[0].sourceId in w.db.sources
                           then [RolledBack(w.calls[p].phase.stage.error)] else [];
            Accounted(CommitRecordedFailure(w, p), p, attempts, fates + settled)
  {
    var n, c := |fates|, w.calls[p];
    var a, error := attempts[n], c.phase.stage.error;
    if a.sourceId in w.db.sources {
      ReportMore(attempts, fates, c.batch.outcomes, RolledBack(error), [Failed(a.sourceId, error)]);
      SettleStored(attempts, fates, RolledBack(error), w.db.ledger);
      SettleSeen(c.batch.seen, attempts, fates, RolledBack(error), w.db.ledger, c.phase.stage);
      assert attempts[n..][1..] == attempts[n + 1..];
    } else {
      assert fates + [] == fates;
    }
  }

  lemma BeginAccounts(w: World, p: nat, attempts: seq<Attempt>, fates: seq<Fate>)
    requires Accounted(w, p, attempts, fates)
    requires p < |w.calls| && w.calls[p].phase.Persisting?
    requires w.calls[p].phase.stage.Idle? && w.calls[p].phase.pending != []
    ensures var settled := if w.calls[p].phase.pending[0].sourceId in w.db.sources then [] else [Gone];
            Accounted(BeginAttempt(w, p), p, attempts, fates + settled)
  {
    var n, c := |fates|, w.calls[p];
    if attempts[n].sourceId in w.db.sources {
      assert fates + [] == fates;
    } else {
      ReportMore(attempts, fates, c.batch.outcomes, Gone, []);
      assert c.batch.outcomes + [] == c.batch.outcomes;
      SettleStored(attempts, fates, Gone, w.db.ledger);
      SettleSeen(c.batch.seen, attempts, fates, Gone, w.db.ledger, c.phase.stage);
      assert attempts[n..][1..] == attempts[n + 1..];
    }
  }

  lemma PersistingStepAccounts(w: World, p: nat, attempts: seq<Attempt>, fates: seq<Fate>, action: Action)
    requires Accounted(w, p, attempts, fates) && p < |w.calls| && !action.Escape?
    requires w.calls[p].phase.Persisting? && w.calls[p].phase.pending != []
    ensures Accounted(Act(w, p, action), p, attempts, fates + FateGiven(w, p, Step(p, action)))
  {
    hide Accounted, CommitAttempt, RollbackAttempt, CommitRecordedFailure, BeginAttempt;
    var phase := w.calls[p].phase;
    assert fates + [] == fates;
    match phase.stage
    case Idle =>
      if action.Begin? {
        BeginAccounts(w, p, attempts, fates);
      }
    case Loaded(_) =>
      if action.Commit? && phase.pending[0].sourceId in w.db.sources {
        CommitAccounts(w, p, attempts, fates);
      } else if action.Rollback? {
        RollbackAccounts(w, p, attempts, fates, Raised(action.reached, action.message));
      }
    case Recovering(_, _) =>
      if action.CommitFailure? {
        RecordedFailureAccounts(w, p, attempts, fates);
      }
  }

  lemma OwnStepAccounts(w: World, p: nat, attempts: seq<Attempt>, fates: seq<Fate>, action: Action)
    requires Accounted(w, p, attempts, fates) && p < |w.calls| && Running(w.calls[p])
    ensures var e := Step(p, action);
            var attempts' := if Fetches(w, p, e) then action.attempts else attempts;
            Accounted(Act(w, p, action), p, attempts', fates + FateGiven(w, p, e))
  {
    var phase := w.calls[p].phase;
    if phase.Persisting? && phase.pending != [] && !action.Escape? {
      PersistingStepAccounts(w, p, attempts, fates, action);
    } else {
      assert fates + [] == fates;
    }
  }

  lemma OthersStepAccounts(w: World, p: nat, attempts: seq<Attempt>, fates: seq<Fate>, e: Event)
    requires Accounted(w, p, attempts, fates)
    requires e.Step? ==> e.p != p || p >= |w.calls| || !Running(w.calls[p])
    ensures Accounted(Next(w, e), p, attempts, fates)
  {
    StepKeepsLedger(w, e);
    var w' := Next(w, e);
    if p < |w.calls| {
      assert p < |w'.calls| && w'.calls[p] == w.calls[p] by {
        if e.Step? && e.p < |w.calls| && Running(w.calls[e.p]) {
          StepOfACall(w, e.p, e.action);
        }
      }
      LedgerGrowthAccounts(w, w', p, attempts, fates);
    } else if e.Step? && e.p < |w.calls| && Running(w.calls[e.p]) {
      StepOfACall(w, e.p, e.action);
    }
  }

  lemma LedgerGrowthAccounts(w: World, w': World, p: nat, attempts: seq<Attempt>, fates: seq<Fate>)
    requires Accounted(w, p, attempts, fates) && Extends(w'.db.ledger, w.db.ledger)
    requires p < |w.calls| && p < |w'.calls| && w'.calls[p] == w.calls[p]
    ensures Accounted(w', p, attempts, fates)
  {
    StoredGrows(attempts, fates, w.db.ledger, w'.db.ledger);
  }

  // --- every run ------------------------------------------------------------------------------

  /**
   Whatever the interleaving: what a call has dealt with and what it still has to do are the feeds it
   fetched, in that order; each one dealt with has its own outcome unless its source was gone when its
   turn came; a call that returned has dealt with all of them; and the stories of a committed feed are
   in the ledger, unless an earlier feed of the same call had them and was rolled back.
   */
  lemma {:induction false} EveryFetchedFeedIsDealtWith(db: Db, events: seq<Event>, p: nat)
    ensures Accounted(Run(Initial(db), events), p, Fetched(db, events, p), Fates(db, events, p))
    decreases |events|
  {
    if events != [] {
      var n := |events| - 1;
      EveryFetchedFeedIsDealtWith(db, events[..n], p);
      var w, e := Run(Initial(db), events[..n]), events[n];
      var attempts, fates := Fetched(db, events[..n], p), Fates(db, events[..n], p);
      if e.Step? && e.p == p && p < |w.calls| && Running(w.calls[p]) {
        OwnStepAccounts(w, p, attempts, fates, e.action);
      } else {
        OthersStepAccounts(w, p, attempts, fates, e);
        assert fates + [] == fates;
      }
    }
  }

  /** A call that returned with nothing rolled back has every story of every feed that had a source. */
  lemma CleanCallStoresEverything(db: Db, events: seq<Event>, p: nat, i: nat)
    requires var w := Run(Initial(db), events);
             p < |w.calls| && w.calls[p].phase.Returned? && i < |Fetched(db, events, p)|
    requires forall j :: 0 <= j < |Fates(db, events, p)| ==> !Fates(db, events, p)[j].RolledBack?
    ensures i < |Fates(db, events, p)|
    ensures !Fates(db, events, p)[i].Gone?
            ==> Marks(Fetched(db, events, p)[i], NoFault) <= Run(Initial(db), events).db.ledger.Keys
  {
    EveryFetchedFeedIsDealtWith(db, events, p);
    var w, attempts, fates := Run(Initial(db), events), Fetched(db, events, p), Fates(db, events, p);
    assert Stored(attempts, fates, w.db.ledger);
    if !fates[i].Gone? {
      forall k | k in Marks(attempts[i], NoFault) ensures k in w.db.ledger {
        assert fates[i].Committed?;
        assert !Hidden(attempts, fates, i, k);
      }
    }
  }

  function Work(c: Call): nat {
    match c.phase
    case Refused => 0
    case Returned => 0
    case Escaped => 0
    case Loading => 3
    case Fetching => 2
    case Persisting(pending, stage) =>
      1 + 3 * |pending| + (if pending == [] || stage.Idle? then 0 else if stage.Loaded? then -1 else -2)
  }

  /** A call can always go on by itself: some step of it other than an exception brings it nearer its end. */
  lemma NoCallIsStuck(db: Db, events: seq<Event>, p: nat) returns (action: Action)
    requires p < |Run(Initial(db), events).calls| && Running(Run(Initial(db), events).calls[p])
    ensures var w := Run(Initial(db), events);
            !action.Escape? && Work(Act(w, p, action).calls[p]) < Work(w.calls[p])
  {
    EveryFetchedFeedIsDealtWith(db, events, p);
    var w := Run(Initial(db), events);
    match w.calls[p].phase
    case Loading => action := LoadTargets(true);
    case Fetching => action := Fetch([]);
    case Persisting(pending, stage) =>
      if pending == [] {
        action := Finish;
      } else {
        match stage
        case Idle => action := Begin;
        case Loaded(_) => action := if pending[0].sourceId in w.db.sources then Commit else Rollback(0, "gone");
        case Recovering(_, _) => action := CommitFailure;
      }
  }

  // --- two calls on one source ----------------------------------------------------------------

  /** A commit leaves the polling interval as somebody else may have set it since the row was loaded. */
  lemma CommitLeavesTheInterval(w: World, p: nat)
    requires p < |w.calls| && w.calls[p].phase.Persisting?
    requires w.calls[p].phase.stage.Loaded? && w.calls[p].phase.pending != []
    requires w.calls[p].phase.pending[0].sourceId in w.db.sources
    ensures var id := w.calls[p].phase.pending[0].sourceId;
            var sources := CommitAttempt(w, p).db.sources;
            && sources.Keys == w.db.sources.Keys
            && sources[id].intervalMinutes == w.db.sources[id].intervalMinutes
            && forall other :: other in w.db.sources && other != id ==> sources[other] == w.db.sources[other]
  {
    var c := w.calls[p];
    var source := Persisted(w.db.ledger, c.batch.seen, c.phase.stage.source, c.phase.pending[0]).1;
    assert source.intervalMinutes == c.phase.stage.source.intervalMinutes;
  }

  ghost predicate AboutToFail(w: World, p: nat, id: int, failures: nat) {
    && p < |w.calls| && w.calls[p].phase.Persisting? && w.calls[p].phase.pending != []
    && w.calls[p].phase.pending[0].sourceId == id && w.calls[p].phase.pending[0].result.Err?
    && w.calls[p].phase.stage.Loaded? && w.calls[p].phase.stage.source.consecutiveFailures == failures
  }

  /** Two calls that loaded one source before either committed count their two failures as one. */
  lemma OverlappingFailuresCountOnce(w: World, p: nat, q: nat, id: int, failures: nat)
    requires p != q && id in w.db.sources
    requires AboutToFail(w, p, id, failures) && AboutToFail(w, q, id, failures)
    ensures var first := Next(w, Step(p, Commit));
            var second := Next(first, Step(q, Commit));
            && id in first.db.sources && first.db.sources[id].consecutiveFailures == failures + 1
            && id in second.db.sources && second.db.sources[id].consecutiveFailures == failures + 1
  {
    var first := Next(w, Step(p, Commit));
    assert AboutToFail(first, q, id, failures);
  }
}

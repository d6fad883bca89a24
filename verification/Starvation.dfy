/**
 No article waits forever for the classifier: how many completed passes can miss it is bounded by how
 many older articles are still eligible.
 */
module Starvation {
  import opened Common
  import opened Classifier
  import Rank

  /** The other eligible articles fetched no later than `id`. */
  function Ahead(s: State, id: Id, settings: Settings): set<Id>
    requires id in s.table
  {
    set x | x in s.table && x != id && Eligible(s.table[x], s.window, settings)
            && s.table[x].fetchedAt <= s.table[id].fetchedAt
  }

  /** The attempts an article has left. */
  function Left(t: Table, id: Id, maxAttempts: nat): nat {
    if id in t && t[id].attempts < maxAttempts then maxAttempts - t[id].attempts else 0
  }

  ghost function Budget(t: Table, ids: set<Id>, maxAttempts: nat): nat {
    if ids == {} then 0
    else
      var x :| x in ids;
      Left(t, x, maxAttempts) + Budget(t, ids - {x}, maxAttempts)
  }

  lemma {:induction false} BudgetWithout(t: Table, ids: set<Id>, maxAttempts: nat, x: Id)
    requires x in ids
    ensures Budget(t, ids, maxAttempts) == Left(t, x, maxAttempts) + Budget(t, ids - {x}, maxAttempts)
    decreases ids
  {
    var y :| y in ids && Budget(t, ids, maxAttempts) == Left(t, y, maxAttempts) + Budget(t, ids - {y}, maxAttempts);
    if y != x {
      BudgetWithout(t, ids - {y}, maxAttempts, x);
      BudgetWithout(t, ids - {x}, maxAttempts, y);
      assert ids - {y} - {x} == ids - {x} - {y};
    }
  }

  lemma {:induction false} BudgetBound(t: Table, ids: set<Id>, maxAttempts: nat)
    ensures Budget(t, ids, maxAttempts) <= |ids| * maxAttempts
    decreases ids
  {
    if ids != {} {
      var x :| x in ids;
      BudgetWithout(t, ids, maxAttempts, x);
      BudgetBound(t, ids - {x}, maxAttempts);
      assert |ids| == |ids - {x}| + 1;
      assert |ids| * maxAttempts == |ids - {x}| * maxAttempts + maxAttempts;
    }
  }

  /** Every article of `hit` uses up an attempt, and no article gains one. */
  lemma {:induction false} BudgetDrop(t: Table, ids: set<Id>, t': Table, ids': set<Id>, hit: set<Id>, maxAttempts: nat)
    requires ids' <= ids && hit <= ids
    requires forall x :: x in ids' ==> Left(t', x, maxAttempts) <= Left(t, x, maxAttempts) - if x in hit then 1 else 0
    requires forall x :: x in hit ==> Left(t, x, maxAttempts) >= 1
    ensures Budget(t', ids', maxAttempts) + |hit| <= Budget(t, ids, maxAttempts)
    decreases ids
  {
    if ids == {} {
      assert ids' == {} && hit == {};
    } else {
      var x :| x in ids;
      BudgetDrop(t, ids - {x}, t', ids' - {x}, hit - {x}, maxAttempts);
      BudgetWithout(t, ids, maxAttempts, x);
      if x in ids' {
        BudgetWithout(t', ids', maxAttempts, x);
      } else {
        assert ids' - {x} == ids';
      }
      if x in hit {
        assert |hit| == |hit - {x}| + 1;
      } else {
        assert hit - {x} == hit;
      }
    }
  }

  ghost function Potential(s: State, id: Id, settings: Settings): nat
    requires id in s.table
  {
    Budget(s.table, Ahead(s, id, settings), settings.maxAttempts)
  }

  /** A batch that leaves an eligible article out is full, and holds only articles ahead of it. */
  lemma MissingBatchIsFull(s: State, windowStart: int, ids: seq<Id>, id: Id, settings: Settings)
    requires id in s.table && Eligible(s.table[id], windowStart, settings)
    requires IsBatch(s.table, windowStart, settings, ids) && id !in ids
    ensures |ids| == settings.batchSize
    ensures SetOf(ids) <= Ahead(s.(window := windowStart), id, settings)
  {
    var eligible := EligibleIds(s.table, windowStart, settings);
    assert id in eligible;
    DistinctCount(ids);
    SubsetSize(SetOf(ids), eligible - {id});
    assert |eligible - {id}| == |eligible| - 1;
    forall x | x in SetOf(ids) ensures x in Ahead(s.(window := windowStart), id, settings) {
      var i :| 0 <= i < |ids| && ids[i] == x;
      assert ids[i] in eligible;
    }
  }

  /** The batch in progress was loaded before the wait began. */
  ghost predicate IsStale(s0: State, s: State) {
    s0.loaded.Some? && s.loaded == s0.loaded && s.done == s0.done
  }

  /** The pass that may have been under way when the wait began. */
  function Head(s0: State, s: State): nat {
    if s0.loaded.Some? && |s.done| > |s0.done| then 1 else 0
  }

  /** How far the run from `s0` has come without attempting `id`. */
  ghost predicate Waiting(s0: State, s: State, id: Id, settings: Settings) {
    && RunInv(s, settings)
    && id in s0.table && id in s.table && s.table[id] == s0.table[id]
    && |s0.done| <= |s.done|
    && (|s.done| - |s0.done|) * settings.batchSize + Potential(s, id, settings)
       <= Potential(s0, id, settings) + Head(s0, s) * settings.batchSize
    && (s.loaded.Some? && id !in s.loaded.value && !IsStale(s0, s) ==>
          && |s.loaded.value| == settings.batchSize
          && SetOf(s.loaded.value) <= Ahead(s, id, settings))
  }

  lemma PotentialShrinks(s: State, s': State, id: Id, settings: Settings)
    requires id in s.table && id in s'.table && Ahead(s', id, settings) <= Ahead(s, id, settings)
    requires forall x :: x in Ahead(s', id, settings) ==> s'.table[x] == s.table[x]
    ensures Potential(s', id, settings) <= Potential(s, id, settings)
  {
    BudgetDrop(s.table, Ahead(s, id, settings), s'.table, Ahead(s', id, settings), {}, settings.maxAttempts);
  }

  lemma ArrivalKeepsWaiting(s0: State, s: State, id: Id, x: Id, fetchedAt: int, settings: Settings)
    requires Waiting(s0, s, id, settings) && fetchedAt > s.table[id].fetchedAt
    ensures Waiting(s0, Next(s, Arrive(x, fetchedAt), settings), id, settings)
  {
    var s' := Next(s, Arrive(x, fetchedAt), settings);
    NextKeepsInv(s, Arrive(x, fetchedAt), settings);
    forall y ensures y in Ahead(s', id, settings) <==> y in Ahead(s, id, settings) {
      assert y != x ==> (y in s'.table <==> y in s.table);
    }
    assert Ahead(s', id, settings) == Ahead(s, id, settings);
    PotentialShrinks(s, s', id, settings);
  }

  lemma LoadKeepsWaiting(s0: State, s: State, id: Id, windowStart: int, ids: seq<Id>, settings: Settings)
    requires Waiting(s0, s, id, settings)
    requires Eligible(s.table[id], Next(s, Load(windowStart, ids), settings).window, settings)
    ensures Waiting(s0, Next(s, Load(windowStart, ids), settings), id, settings)
  {
    var s' := Next(s, Load(windowStart, ids), settings);
    NextKeepsInv(s, Load(windowStart, ids), settings);
    if s' != s {
      assert Ahead(s', id, settings) <= Ahead(s, id, settings);
      PotentialShrinks(s, s', id, settings);
      if id !in ids {
        MissingBatchIsFull(s, windowStart, ids, id, settings);
        assert Ahead(s.(window := windowStart), id, settings) == Ahead(s', id, settings);
      }
    }
  }

  lemma CompleteSpendsAttempts(s: State, id: Id, e: Event, settings: Settings)
    requires RunInv(s, settings) && e.Complete? && Next(s, e, settings) != s
    requires id in s.table && id !in s.loaded.value
    ensures var s', hit := Next(s, e, settings), SetOf(s.loaded.value);
            && id in s'.table && s'.table[id] == s.table[id]
            && Ahead(s', id, settings) <= Ahead(s, id, settings)
            && forall x :: x in Ahead(s', id, settings) ==>
                 Left(s'.table, x, settings.maxAttempts)
                 <= Left(s.table, x, settings.maxAttempts) - if x in hit then 1 else 0
  {
    var s', ids := Next(s, e, settings), s.loaded.value;
    var hit := SetOf(ids);
    PassPointwise(s.table, ids, e.reply, id);
    forall x | x in Ahead(s', id, settings)
      ensures x in Ahead(s, id, settings)
      ensures Left(s'.table, x, settings.maxAttempts)
              <= Left(s.table, x, settings.maxAttempts) - if x in hit then 1 else 0
    {
      PassPointwise(s.table, ids, e.reply, x);
    }
  }

  /** A pass that misses `id` costs the articles ahead of it an attempt each, if they are the batch. */
  lemma CompleteLowersPotential(s: State, id: Id, e: Event, settings: Settings)
    requires RunInv(s, settings) && e.Complete? && Next(s, e, settings) != s
    requires id in s.table && id !in s.loaded.value
    ensures var s' := Next(s, e, settings);
            && id in s'.table && s'.table[id] == s.table[id]
            && Potential(s', id, settings) <= Potential(s, id, settings)
            && (SetOf(s.loaded.value) <= Ahead(s, id, settings) ==>
                  Potential(s', id, settings) + |s.loaded.value| <= Potential(s, id, settings))
  {
    var s', ids := Next(s, e, settings), s.loaded.value;
    CompleteSpendsAttempts(s, id, e, settings);
    var ahead, ahead' := Ahead(s, id, settings), Ahead(s', id, settings);
    DistinctCount(ids);
    BudgetDrop(s.table, ahead, s'.table, ahead', {}, settings.maxAttempts);
    if SetOf(ids) <= ahead {
      BudgetDrop(s.table, ahead, s'.table, ahead', SetOf(ids), settings.maxAttempts);
    }
  }

  lemma CompleteKeepsWaiting(s0: State, s: State, id: Id, e: Event, settings: Settings)
    requires e.Complete? && Waiting(s0, s, id, settings)
    requires s.loaded.Some? ==> id !in s.loaded.value
    ensures Waiting(s0, Next(s, e, settings), id, settings)
  {
    NextKeepsInv(s, e, settings);
    if Next(s, e, settings) != s {
      CompleteLowersPotential(s, id, e, settings);
      var passes := |s.done| - |s0.done|;
      assert (passes + 1) * settings.batchSize == passes * settings.batchSize + settings.batchSize;
    }
  }

  lemma StepOnlyMoves(s: State, e: Event, settings: Settings)
    ensures s.window <= Next(s, e, settings).window
    ensures s.done <= Next(s, e, settings).done
  {
  }

  /** `events` bring in only articles fetched after `t`. */
  ghost predicate OnlyLaterArrivals(events: seq<Event>, t: int) {
    forall i :: 0 <= i < |events| && events[i].Arrive? ==> events[i].fetchedAt > t
  }

  /** None of the batches completed since `from` contains `id`. */
  ghost predicate AllMiss(done: seq<seq<Id>>, from: nat, id: Id) {
    forall j :: from <= j < |done| ==> id !in done[j]
  }

  lemma NextKeepsWaiting(s0: State, s: State, e: Event, id: Id, settings: Settings)
    requires Waiting(s0, s, id, settings) && Eligible(s.table[id], Next(s, e, settings).window, settings)
    requires e.Arrive? ==> e.fetchedAt > s.table[id].fetchedAt
    requires AllMiss(Next(s, e, settings).done, |s0.done|, id)
    ensures Waiting(s0, Next(s, e, settings), id, settings)
  {
    var after := Next(s, e, settings);
    match e
    case Arrive(x, fetchedAt) => ArrivalKeepsWaiting(s0, s, id, x, fetchedAt, settings);
    case Load(windowStart, ids) => LoadKeepsWaiting(s0, s, id, windowStart, ids, settings);
    case Complete(_) =>
      if after != s {
        assert after.done[|s.done|] == s.loaded.value;
        CompleteKeepsWaiting(s0, s, id, e, settings);
      }
    case Abort =>
      NextKeepsInv(s, e, settings);
      assert Ahead(after, id, settings) == Ahead(s, id, settings);
  }

  lemma {:induction false} WaitingRuns(s: State, events: seq<Event>, id: Id, settings: Settings)
    requires RunInv(s, settings) && id in s.table && Eligible(s.table[id], s.window, settings)
    requires OnlyLaterArrivals(events, s.table[id].fetchedAt)
    requires Run(s, events, settings).window <= s.table[id].fetchedAt
    requires AllMiss(Run(s, events, settings).done, |s.done|, id)
    ensures Waiting(s, Run(s, events, settings), id, settings)
  {
    if events != [] {
      var n := |events| - 1;
      var before := Run(s, events[..n], settings);
      StepOnlyMoves(before, events[n], settings);
      MissesEarlier(before.done, Next(before, events[n], settings).done, |s.done|, id);
      WaitingRuns(s, events[..n], id, settings);
      NextKeepsWaiting(s, before, events[n], id, settings);
    }
  }

  lemma MissesEarlier(done: seq<seq<Id>>, more: seq<seq<Id>>, from: nat, id: Id)
    requires done <= more && AllMiss(more, from, id)
    ensures AllMiss(done, from, id)
  {
    assert forall j :: 0 <= j < |done| ==> done[j] == more[j];
  }

  /**
   With `k` other eligible articles fetched no later, more than k * maxAttempts / batchSize completed
   passes cannot all miss an article that stays in the window, however many newer ones arrive. A pass
   already under way when the count begins is one more.
   */
  lemma NoStarvation(s: State, events: seq<Event>, id: Id, settings: Settings)
    requires settings.batchSize > 0
    requires RunInv(s, settings) && id in s.table && Eligible(s.table[id], s.window, settings)
    requires OnlyLaterArrivals(events, s.table[id].fetchedAt)
    requires Run(s, events, settings).window <= s.table[id].fetchedAt
    requires |Run(s, events, settings).done| - |s.done|
             > |Ahead(s, id, settings)| * settings.maxAttempts / settings.batchSize + if s.loaded.Some? then 1 else 0
    ensures exists j :: |s.done| <= j < |Run(s, events, settings).done| && id in Run(s, events, settings).done[j]
  {
    var s' := Run(s, events, settings);
    if AllMiss(s'.done, |s.done|, id) {
      WaitingRuns(s, events, id, settings);
      WaitingBoundsPasses(s, s', id, settings);
    }
  }

  lemma WaitingBoundsPasses(s0: State, s: State, id: Id, settings: Settings)
    requires settings.batchSize > 0 && Waiting(s0, s, id, settings)
    ensures |s.done| - |s0.done|
            <= |Ahead(s0, id, settings)| * settings.maxAttempts / settings.batchSize + Head(s0, s)
  {
    var ahead, passes, head := Ahead(s0, id, settings), |s.done| - |s0.done|, Head(s0, s);
    BudgetBound(s0.table, ahead, settings.maxAttempts);
    assert (passes - head) * settings.batchSize == passes * settings.batchSize - head * settings.batchSize;
    QuotientBound(passes - head, settings.batchSize, |ahead| * settings.maxAttempts);
  }

  lemma QuotientBound(x: int, d: nat, total: nat)
    requires d > 0 && x * d <= total
    ensures x <= total / d
  {
    var q := total / d;
    assert (q + 1) * d == q * d + d > total;
    if x > q {
      Times(q + 1, x, d);
    }
  }

  lemma Times(a: int, b: int, d: nat)
    requires a <= b
    ensures a * d <= b * d
  {
    assert b * d - a * d == (b - a) * d;
  }
}

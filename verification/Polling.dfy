/**
 How often a source is polled: `effective_interval_seconds` and `is_due` of app/services/scheduler.py
 over the bookkeeping that every attempt leaves on the source row.
 */
module Polling {
  import opened Common
  import opened Ingest

  const MAX_BACKOFF_EXPONENT: nat := 32

  function Max(a: int, b: int): int {
    if a < b then b else a
  }

  function Min(a: int, b: int): int {
    if a < b then a else b
  }

  function Pow2(n: nat): nat {
    if n == 0 then 1 else 2 * Pow2(n - 1)
  }

  function BaseInterval(source: Source): nat {
    Max(source.intervalMinutes * 60, if source.cacheMaxAge.Some? then source.cacheMaxAge.value else 0)
  }

  function BackedOff(base: nat, failures: nat, ceiling: int): int {
    if failures == 0 then base
    else Max(base, Min(base * Pow2(Min(failures, MAX_BACKOFF_EXPONENT)), ceiling))
  }

  function EffectiveInterval(source: Source, ceiling: int): int {
    BackedOff(BaseInterval(source), source.consecutiveFailures, ceiling)
  }

  predicate IsDue(source: Source, now: int, ceiling: int) {
    source.lastFetchedAt.None? || now >= source.lastFetchedAt.value + EffectiveInterval(source, ceiling)
  }

  // --- the backoff ----------------------------------------------------------------------------

  /** The formula without the cap on the exponent. */
  function Uncapped(base: nat, failures: nat, ceiling: int): int {
    if failures == 0 then base else Max(base, Min(base * Pow2(failures), ceiling))
  }

  lemma {:induction false} Pow2Grows(m: nat, n: nat)
    requires m <= n
    ensures 1 <= Pow2(m) <= Pow2(n)
    decreases n
  {
    if m < n {
      Pow2Grows(m, n - 1);
    } else if n > 0 {
      Pow2Grows(n - 1, n - 1);
    }
  }

  lemma ScaledPow2Grows(base: nat, m: nat, n: nat)
    requires m <= n
    ensures base <= base * Pow2(m) <= base * Pow2(n)
  {
    Pow2Grows(m, n);
    Scale(base, 1, Pow2(m));
    Scale(base, Pow2(m), Pow2(n));
  }

  lemma Scale(base: nat, x: nat, y: nat)
    requires x <= y
    ensures base * x <= base * y
  {
  }

  /** The clamp holds back the backoff, never the configured interval. */
  lemma BackoffStaysInRange(base: nat, failures: nat, ceiling: int)
    ensures base <= BackedOff(base, failures, ceiling) <= Max(base, ceiling)
  {
  }

  lemma BackoffIsMonotone(base: nat, failures: nat, more: nat, ceiling: int)
    requires failures <= more
    ensures BackedOff(base, failures, ceiling) <= BackedOff(base, more, ceiling)
  {
    ScaledPow2Grows(base, Min(failures, MAX_BACKOFF_EXPONENT), Min(more, MAX_BACKOFF_EXPONENT));
  }

  /**
   The rule read forwards: each failure doubles the interval until it meets the ceiling or the 32nd
   failure; a base above the ceiling is never extended.
   */
  lemma BackoffDoubles(base: nat, failures: nat, ceiling: int)
    ensures BackedOff(base, 0, ceiling) == base
    ensures failures < MAX_BACKOFF_EXPONENT ==>
              BackedOff(base, failures + 1, ceiling) == Max(base, Min(2 * BackedOff(base, failures, ceiling), ceiling))
    ensures failures >= MAX_BACKOFF_EXPONENT ==>
              BackedOff(base, failures + 1, ceiling) == BackedOff(base, failures, ceiling)
  {
    if failures < MAX_BACKOFF_EXPONENT {
      ScaledPow2Grows(base, 0, failures);
      assert base * Pow2(failures + 1) == 2 * (base * Pow2(failures)) by {
        Doubled(base, Pow2(failures));
      }
    }
  }

  lemma Doubled(base: nat, x: nat)
    ensures base * (2 * x) == 2 * (base * x)
  {
  }

  lemma CapShows(base: nat, ceiling: int)
    requires base > 0 && ceiling > base * Pow2(MAX_BACKOFF_EXPONENT)
    ensures BackedOff(base, MAX_BACKOFF_EXPONENT + 1, ceiling) < Uncapped(base, MAX_BACKOFF_EXPONENT + 1, ceiling)
  {
    var top := Pow2(MAX_BACKOFF_EXPONENT);
    ScaledPow2Grows(base, 0, MAX_BACKOFF_EXPONENT);
    assert Pow2(MAX_BACKOFF_EXPONENT + 1) == 2 * top;
    assert base * (2 * top) == base * top + base * top;
  }

  lemma CapIsHidden(base: nat, failures: nat, ceiling: int)
    requires base == 0 || ceiling <= base * Pow2(MAX_BACKOFF_EXPONENT)
    ensures BackedOff(base, failures, ceiling) == Uncapped(base, failures, ceiling)
  {
    if failures > MAX_BACKOFF_EXPONENT {
      ScaledPow2Grows(base, MAX_BACKOFF_EXPONENT, failures);
    }
  }

  /** The exponent cap changes no interval exactly when the ceiling is reached before it, or the base is 0. */
  lemma ExponentCapIsInvisibleIff(base: nat, ceiling: int)
    ensures (forall failures :: BackedOff(base, failures, ceiling) == Uncapped(base, failures, ceiling))
       <==> base == 0 || ceiling <= base * Pow2(MAX_BACKOFF_EXPONENT)
  {
    if base == 0 || ceiling <= base * Pow2(MAX_BACKOFF_EXPONENT) {
      forall failures: nat ensures BackedOff(base, failures, ceiling) == Uncapped(base, failures, ceiling) {
        CapIsHidden(base, failures, ceiling);
      }
    } else {
      CapShows(base, ceiling);
    }
  }

  // --- the cadence ----------------------------------------------------------------------------

  datatype Verdict = Success(headers: Headers) | Failure(error: string)

  /** A completed tick (`now` is when it checked what is due) or forced refresh coming to this source. */
  datatype Visit = Visit(now: int, at: int, forced: bool, verdict: Verdict)

  /** An attempt that was made, and the interval in force once it was recorded. */
  datatype Attempted = Attempted(at: int, ok: bool, forced: bool, interval: int)

  datatype History = History(source: Source, log: seq<Attempted>)

  function Record(source: Source, v: Visit): Source {
    match v.verdict
    case Success(headers) => RecordSuccess(source, headers, v.at)
    case Failure(error) => RecordFailure(source, error, v.at)
  }

  function VisitOnce(h: History, v: Visit, ceiling: int): History {
    if v.forced || IsDue(h.source, v.now, ceiling) then
      var source := Record(h.source, v);
      History(source, h.log + [Attempted(v.at, v.verdict.Success?, v.forced, EffectiveInterval(source, ceiling))])
    else h
  }

  function VisitAll(h: History, visits: seq<Visit>, ceiling: int): History {
    if visits == [] then h
    else VisitOnce(VisitAll(h, visits[..|visits| - 1], ceiling), visits[|visits| - 1], ceiling)
  }

  /** The failures since the last success, on top of `before` if there was none. */
  function TrailingFailures(log: seq<Attempted>, before: nat): nat {
    if log == [] then before
    else if log[|log| - 1].ok then 0
    else 1 + TrailingFailures(log[..|log| - 1], before)
  }

  /**
   Attempt `i` was forced, or came no sooner than the interval in force since the one before it
   allows; for the first, the one before it is what `start` remembers.
   */
  ghost predicate Spaced(start: Source, log: seq<Attempted>, i: nat, ceiling: int)
    requires i < |log|
  {
    || log[i].forced
    || (if i == 0 then
          start.lastFetchedAt.Some? ==> log[0].at >= start.lastFetchedAt.value + EffectiveInterval(start, ceiling)
        else log[i].at >= log[i - 1].at + log[i - 1].interval)
  }

  ghost predicate CadenceInv(start: Source, h: History, ceiling: int) {
    && h.source.intervalMinutes == start.intervalMinutes
    && h.source.consecutiveFailures == TrailingFailures(h.log, start.consecutiveFailures)
    && (if h.log == [] then h.source == start
        else
          && h.source.lastFetchedAt == Some(h.log[|h.log| - 1].at)
          && h.log[|h.log| - 1].interval == EffectiveInterval(h.source, ceiling))
    && forall i: nat :: i < |h.log| ==>
         Spaced(start, h.log, i, ceiling) && h.log[i].interval >= start.intervalMinutes * 60
  }

  lemma VisitKeepsCadence(start: Source, h: History, v: Visit, ceiling: int)
    requires v.now <= v.at && CadenceInv(start, h, ceiling)
    ensures CadenceInv(start, VisitOnce(h, v, ceiling), ceiling)
  {
    var h' := VisitOnce(h, v, ceiling);
    if h' != h {
      assert h'.log[..|h'.log| - 1] == h.log;
      BackoffStaysInRange(BaseInterval(h'.source), h'.source.consecutiveFailures, ceiling);
      forall i: nat | i < |h'.log|
        ensures Spaced(start, h'.log, i, ceiling) && h'.log[i].interval >= start.intervalMinutes * 60
      {
        if i < |h.log| {
          assert Spaced(start, h.log, i, ceiling);
        }
      }
    }
  }

  /**
   Over any run of ticks and refreshes that do not overlap, a scheduled attempt never comes sooner
   than the effective interval the attempt before it left, which is never below the configured
   minutes; and the failure count is the number of failures since the last success.
   */
  lemma {:induction false} PollingCadence(start: Source, visits: seq<Visit>, ceiling: int)
    requires forall i :: 0 <= i < |visits| ==> visits[i].now <= visits[i].at
    ensures CadenceInv(start, VisitAll(History(start, []), visits, ceiling), ceiling)
  {
    if visits != [] {
      var n := |visits| - 1;
      PollingCadence(start, visits[..n], ceiling);
      VisitKeepsCadence(start, VisitAll(History(start, []), visits[..n], ceiling), visits[n], ceiling);
    }
  }

  /** Persisting an attempt leaves on its source row one of the two records the cadence is built on. */
  lemma PersistRecordsAVisit(db: Db, b: Batch, a: Attempt, fault: Fault) returns (v: Visit)
    requires a.sourceId in db.sources
    ensures v.at == a.at
    ensures PersistOne(db, b, a, fault).0.sources == db.sources[a.sourceId := Record(db.sources[a.sourceId], v)]
    ensures v.verdict.Success? <==>
              fault.NoFault? && a.result.Ok? && !a.result.value.Unrecognised?
  {
    var verdict :=
      if fault.Raised? then Failure(PersistError(fault))
      else match a.result
        case Err(error) => Failure(error)
        case Ok(Unrecognised(reason)) => Failure("response did not parse as a feed: " + reason)
        case Ok(fetched) => Success(fetched.headers);
    v := Visit(a.at, a.at, true, verdict);
  }

  /** The configured minutes and what the feed asked for are both respected, and nothing is added to them. */
  lemma HealthyInterval(source: Source, ceiling: int)
    requires source.consecutiveFailures == 0
    ensures var seconds := EffectiveInterval(source, ceiling);
            && seconds >= source.intervalMinutes * 60
            && (source.cacheMaxAge.Some? ==> seconds >= source.cacheMaxAge.value)
            && (seconds == source.intervalMinutes * 60 || source.cacheMaxAge == Some(seconds))
  {
  }

  /** When a visit has to make an attempt: it is forced, or the source was never polled, or its time has come. */
  ghost predicate TimeHasCome(start: Source, log: seq<Attempted>, v: Visit, ceiling: int) {
    || v.forced
    || (if log == [] then
          start.lastFetchedAt.Some? ==> v.now >= start.lastFetchedAt.value + EffectiveInterval(start, ceiling)
        else v.now >= log[|log| - 1].at + log[|log| - 1].interval)
  }

  /**
   No source is forgotten: in any run, a tick that finds the interval since the last attempt over, or
   a source that was never polled, makes an attempt, as a forced refresh does; any other tick makes none.
   */
  lemma NoSourceIsForgotten(start: Source, visits: seq<Visit>, ceiling: int, n: nat)
    requires n < |visits| && forall i :: 0 <= i < |visits| ==> visits[i].now <= visits[i].at
    ensures var before := VisitAll(History(start, []), visits[..n], ceiling);
            var after := VisitAll(History(start, []), visits[..n + 1], ceiling);
            && before.log <= after.log
            && (if TimeHasCome(start, before.log, visits[n], ceiling)
                then
                  && |after.log| == |before.log| + 1
                  && after.log[|before.log|].at == visits[n].at
                  && after.log[|before.log|].ok == visits[n].verdict.Success?
                  && after.log[|before.log|].forced == visits[n].forced
                else after == before)
  {
    assert visits[..n + 1][..n] == visits[..n];
    PollingCadence(start, visits[..n], ceiling);
  }

  /** What a visit leaves on the source row besides the failure count: the last success and what it said. */
  lemma RowTells(db: Db, b: Batch, a: Attempt, fault: Fault)
    requires a.sourceId in db.sources
    ensures var before, after := db.sources[a.sourceId], PersistOne(db, b, a, fault).0.sources[a.sourceId];
            && after.intervalMinutes == before.intervalMinutes && after.lastFetchedAt == Some(a.at)
            && (fault.NoFault? && a.result.Ok? && !a.result.value.Unrecognised? ==>
                  var headers := a.result.value.headers;
                  && after.consecutiveFailures == 0 && after.lastSuccessAt == Some(a.at)
                  && after.lastError == None && after.lastErrorAt == None
                  && after.cacheMaxAge == headers.maxAge
                  && (headers.etag in {None, Some("")} ==> after.etag == before.etag)
                  && (headers.etag !in {None, Some("")} ==> after.etag == headers.etag)
                  && (headers.lastModified in {None, Some("")} ==> after.lastModified == before.lastModified)
                  && (headers.lastModified !in {None, Some("")} ==> after.lastModified == headers.lastModified))
            && (fault.Raised? || a.result.Err? || a.result.value.Unrecognised? ==>
                  && after.consecutiveFailures == before.consecutiveFailures + 1
                  && after.lastError.Some? && after.lastErrorAt == Some(a.at)
                  && after.lastSuccessAt == before.lastSuccessAt && after.cacheMaxAge == before.cacheMaxAge
                  && after.etag == before.etag && after.lastModified == before.lastModified)
  {
  }
}

/**
 app/services/ingest.py and `persist_attempts` of app/services/scheduler.py: how one tick's fetched
 feeds reach the article ledger.

 An entry is what `_normalize_entry` made of it: its article key, or None when the feed gave no link
 or no title. Anything that can raise while a source is being persisted is a `Fault` supplied by the
 environment.
 */
module Ingest {
  import opened Common

  type Key = string

  /** An article row, as far as the ledger is concerned: who owns it, and where its feed had it. */
  datatype Row = Row(sourceId: int, position: nat)

  type Ledger = map<Key, Row>

  datatype Source = Source(
    intervalMinutes: nat,
    cacheMaxAge: Option<nat>,
    lastFetchedAt: Option<int>,
    consecutiveFailures: nat,
    lastSuccessAt: Option<int>,
    lastError: Option<string>,
    lastErrorAt: Option<int>,
    etag: Option<string>,
    lastModified: Option<string>)

  datatype Headers = Headers(etag: Option<string>, lastModified: Option<string>, maxAge: Option<nat>)

  datatype Fetched =
    | NotModified(headers: Headers)
    | Unrecognised(reason: string)
    | Feed(headers: Headers, entries: seq<Option<Key>>)

  datatype Attempt = Attempt(sourceId: int, at: int, result: Result<Fetched, string>)

  datatype Outcome = Outcome(sourceId: int, ok: bool, newArticles: nat, error: Option<string>, notModified: bool)

  /** An exception while persisting: it surfaced after `reached` of the feed's entries were looked at. */
  datatype Fault = NoFault | Raised(reached: nat, message: string)

  // --- bookkeeping on the source row ----------------------------------------------------------

  /** Python's `a or b` on an optional string. */
  function Or(a: Option<string>, b: Option<string>): Option<string> {
    if a.Some? && a.value != "" then a else b
  }

  function RecordFailure(source: Source, error: string, now: int): Source {
    source.(lastError := Some(error), lastErrorAt := Some(now), lastFetchedAt := Some(now),
            consecutiveFailures := source.consecutiveFailures + 1)
  }

  function RecordSuccess(source: Source, headers: Headers, now: int): Source {
    source.(etag := Or(headers.etag, source.etag), lastModified := Or(headers.lastModified, source.lastModified),
            cacheMaxAge := headers.maxAge, lastSuccessAt := Some(now), lastFetchedAt := Some(now),
            consecutiveFailures := 0, lastError := None, lastErrorAt := None)
  }

  function Failed(sourceId: int, error: string): Outcome {
    Outcome(sourceId, false, 0, Some(error), false)
  }

  // --- the ledger -----------------------------------------------------------------------------

  function KeysOf(entries: seq<Option<Key>>): set<Key> {
    set e | e in entries && e.Some? :: e.value
  }

  /** The rows built from a feed: one per key not seen before, at its first position. */
  function FreshRows(sourceId: int, entries: seq<Option<Key>>, seen: set<Key>): seq<(Key, Row)> {
    if entries == [] then []
    else
      var n := |entries| - 1;
      var rows := FreshRows(sourceId, entries[..n], seen);
      if entries[n].Some? && entries[n].value !in seen + KeysOf(entries[..n])
      then rows + [(entries[n].value, Row(sourceId, n + 1))]
      else rows
  }

  /** `INSERT ... ON CONFLICT DO NOTHING RETURNING id`: the new table and the keys returned. */
  function InsertAbsent(ledger: Ledger, rows: seq<(Key, Row)>): (Ledger, seq<Key>) {
    if rows == [] then (ledger, [])
    else
      var n := |rows| - 1;
      var (before, inserted) := InsertAbsent(ledger, rows[..n]);
      if rows[n].0 in before then (before, inserted)
      else (before[rows[n].0 := rows[n].1], inserted + [rows[n].0])
  }

  // --- persisting -----------------------------------------------------------------------------

  datatype Db = Db(ledger: Ledger, sources: map<int, Source>)

  /** What `persist_attempts` shares across one call: the seen keys and the outcomes so far. */
  datatype Batch = Batch(seen: set<Key>, outcomes: seq<Outcome>)

  /** The rows, the source row and the outcome of an attempt that does not raise. */
  function Persisted(ledger: Ledger, seen: set<Key>, source: Source, a: Attempt): (Ledger, Source, Outcome) {
    match a.result
    case Err(error) => (ledger, RecordFailure(source, error, a.at), Failed(a.sourceId, error))
    case Ok(NotModified(headers)) =>
      (ledger, RecordSuccess(source, headers, a.at), Outcome(a.sourceId, true, 0, None, true))
    case Ok(Unrecognised(reason)) =>
      var error := "response did not parse as a feed: " + reason;
      (ledger, RecordFailure(source, error, a.at), Failed(a.sourceId, error))
    case Ok(Feed(headers, entries)) =>
      var (grown, inserted) := InsertAbsent(ledger, FreshRows(a.sourceId, entries, seen));
      (grown, RecordSuccess(source, headers, a.at), Outcome(a.sourceId, true, |inserted|, None, false))
  }

  /** The keys an attempt puts into the shared set; an exception does not take them out again. */
  function Marks(a: Attempt, fault: Fault): set<Key> {
    if a.result.Ok? && a.result.value.Feed? then
      var entries := a.result.value.entries;
      if fault.Raised? && fault.reached < |entries| then KeysOf(entries[..fault.reached]) else KeysOf(entries)
    else {}
  }

  function PersistError(fault: Fault): string
    requires fault.Raised?
  {
    "persist failed: " + fault.message
  }

  /** One turn of the loop in `persist_attempts`. */
  function PersistOne(db: Db, b: Batch, a: Attempt, fault: Fault): (Db, Batch) {
    if a.sourceId !in db.sources then (db, b)
    else
      var source := db.sources[a.sourceId];
      var seen := b.seen + Marks(a, fault);
      match fault
      case NoFault =>
        var (ledger, source', outcome) := Persisted(db.ledger, b.seen, source, a);
        (Db(ledger, db.sources[a.sourceId := source']), Batch(seen, b.outcomes + [outcome]))
      case Raised(_, _) =>
        var error := PersistError(fault);
        (db.(sources := db.sources[a.sourceId := RecordFailure(source, error, a.at)]),
         Batch(seen, b.outcomes + [Failed(a.sourceId, error)]))
  }

  function PersistAll(db: Db, b: Batch, attempts: seq<Attempt>, faults: seq<Fault>): (Db, Batch)
    requires |faults| == |attempts|
    decreases |attempts|
  {
    if attempts == [] then (db, b)
    else
      var n := |attempts| - 1;
      var (db', b') := PersistAll(db, b, attempts[..n], faults[..n]);
      PersistOne(db', b', attempts[n], faults[n])
  }

  /** A database session with the state one `persist_attempts` call keeps beside it. */
  class Session {
    var ledger: Ledger
    var sources: map<int, Source>
    var seenIds: set<Key>
    var outcomes: seq<Outcome>

    constructor (ledger: Ledger, sources: map<int, Source>)
      ensures State() == (Db(ledger, sources), Batch({}, []))
    {
      this.ledger, this.sources, this.seenIds, this.outcomes := ledger, sources, {}, [];
    }

    function State(): (Db, Batch)
      reads this
    {
      (Db(ledger, sources), Batch(seenIds, outcomes))
    }

    /** Up to, not including, the commit. */
    method ParseAndPersist(sourceId: int, fetched: Fetched, now: int) returns (outcome: Outcome)
      requires sourceId in sources
      modifies this`ledger, this`sources, this`seenIds
      ensures var a := Attempt(sourceId, now, Ok(fetched));
              && sourceId in sources
              && (ledger, sources[sourceId], outcome) == Persisted(old(ledger), old(seenIds), old(sources[sourceId]), a)
              && sources == old(sources)[sourceId := sources[sourceId]]
              && seenIds == old(seenIds) + Marks(a, NoFault)
    {
      var source := sources[sourceId];
      match fetched
      case NotModified(headers) =>
        sources := sources[sourceId := RecordSuccess(source, headers, now)];
        outcome := Outcome(sourceId, true, 0, None, true);
      case Unrecognised(reason) =>
        var error := "response did not parse as a feed: " + reason;
        sources := sources[sourceId := RecordFailure(source, error, now)];
        outcome := Failed(sourceId, error);
      case Feed(headers, entries) =>
        var rows := [];
        for n := 0 to |entries|
          invariant rows == FreshRows(sourceId, entries[..n], old(seenIds))
          invariant seenIds == old(seenIds) + KeysOf(entries[..n])
          invariant ledger == old(ledger) && sources == old(sources)
        {
          assert entries[..n + 1][..n] == entries[..n];
          KeysOfMore(entries, n);
          var article := entries[n];
          if article.Some? && article.value !in seenIds {
            seenIds := seenIds + {article.value};
            rows := rows + [(article.value, Row(sourceId, n + 1))];
          }
        }
        assert entries[..|entries|] == entries;
        var newCount := 0;
        if rows != [] {
          var (grown, inserted) := InsertAbsent(ledger, rows);
          ledger := grown;
          newCount := |inserted|;
        }
        sources := sources[sourceId := RecordSuccess(source, headers, now)];
        outcome := Outcome(sourceId, true, newCount, None, false);
    }

    /** One commit, or one rollback and a recorded failure, per source. */
    method PersistAttempts(attempts: seq<Attempt>, faults: seq<Fault>)
      requires |faults| == |attempts|
      modifies this
      ensures State() == PersistAll(old(Db(ledger, sources)), Batch({}, []), attempts, faults)
    {
      seenIds, outcomes := {}, [];
      for n := 0 to |attempts|
        invariant State() == PersistAll(old(Db(ledger, sources)), Batch({}, []), attempts[..n], faults[..n])
      {
        assert attempts[..n + 1][..n] == attempts[..n] && faults[..n + 1][..n] == faults[..n];
        var attempt := attempts[n];
        ghost var before := State();
        if attempt.sourceId in sources {
          var committedLedger, committedSources := ledger, sources;
          var outcome: Outcome;
          match faults[n] {
            case NoFault =>
              match attempt.result {
                case Err(error) =>
                  sources := sources[attempt.sourceId := RecordFailure(sources[attempt.sourceId], error, attempt.at)];
                  outcome := Failed(attempt.sourceId, error);
                  assert seenIds + Marks(attempt, NoFault) == seenIds;
                case Ok(fetched) =>
                  outcome := ParseAndPersist(attempt.sourceId, fetched, attempt.at);
              }
            case Raised(_, _) =>
              seenIds := seenIds + Marks(attempt, faults[n]);
              ledger, sources := committedLedger, committedSources;
              var error := PersistError(faults[n]);
              sources := sources[attempt.sourceId := RecordFailure(sources[attempt.sourceId], error, attempt.at)];
              outcome := Failed(attempt.sourceId, error);
          }
          outcomes := outcomes + [outcome];
        }
        assert State() == PersistOne(before.0, before.1, attempt, faults[n]);
      }
      assert attempts[..|attempts|] == attempts && faults[..|attempts|] == faults;
    }
  }

  /** Every row of `ledger` is still in `grown`, with its owner. */
  ghost predicate Extends(grown: Ledger, ledger: Ledger) {
    forall k :: k in ledger ==> k in grown && grown[k] == ledger[k]
  }

  lemma KeysOfMore(entries: seq<Option<Key>>, n: nat)
    requires n < |entries|
    ensures KeysOf(entries[..n + 1]) == KeysOf(entries[..n]) + if entries[n].Some? then {entries[n].value} else {}
  {
    assert entries[..n + 1] == entries[..n] + [entries[n]];
  }

  // --- what an insert does --------------------------------------------------------------------

  function RowKeys(rows: seq<(Key, Row)>): set<Key> {
    if rows == [] then {} else RowKeys(rows[..|rows| - 1]) + {rows[|rows| - 1].0}
  }

  ghost predicate AllFrom(sourceId: int, rows: seq<(Key, Row)>) {
    forall i :: 0 <= i < |rows| ==> rows[i].1.sourceId == sourceId
  }

  lemma {:induction false} FreshRowKeys(sourceId: int, entries: seq<Option<Key>>, seen: set<Key>)
    ensures RowKeys(FreshRows(sourceId, entries, seen)) == KeysOf(entries) - seen
    ensures AllFrom(sourceId, FreshRows(sourceId, entries, seen))
  {
    if entries != [] {
      var n := |entries| - 1;
      FreshRowKeys(sourceId, entries[..n], seen);
      assert entries[..n + 1] == entries;
      KeysOfMore(entries, n);
      var rows := FreshRows(sourceId, entries[..n], seen);
      if entries[n].Some? {
        var more := rows + [(entries[n].value, Row(sourceId, n + 1))];
        assert more[..|more| - 1] == rows;
      }
    }
  }

  /** A row carries the place where its key first stood in the feed. */
  lemma {:induction false} FreshRowsAreFirst(sourceId: int, entries: seq<Option<Key>>, seen: set<Key>, i: nat)
    requires i < |FreshRows(sourceId, entries, seen)|
    ensures var (k, row) := FreshRows(sourceId, entries, seen)[i];
            && 1 <= row.position <= |entries|
            && entries[row.position - 1] == Some(k) && k !in KeysOf(entries[..row.position - 1])
  {
    var n := |entries| - 1;
    var rows := FreshRows(sourceId, entries[..n], seen);
    if i < |rows| {
      FreshRowsAreFirst(sourceId, entries[..n], seen, i);
      var p := rows[i].1.position;
      assert entries[..n][..p - 1] == entries[..p - 1];
    }
  }

  /** `grown` is `ledger` with `count` rows of `sourceId` added, one for each of `keys` it lacked. */
  ghost predicate OnlyAdds(sourceId: int, ledger: Ledger, grown: Ledger, keys: set<Key>, count: nat) {
    && Extends(grown, ledger)
    && (forall k :: k in grown <==> k in ledger || k in keys)
    && |grown| == |ledger| + count
    && forall k :: k in grown && k !in ledger ==> grown[k].sourceId == sourceId
  }

  lemma AddOneRow(sourceId: int, ledger: Ledger, before: Ledger, keys: set<Key>, count: nat, key: Key, row: Row)
    requires OnlyAdds(sourceId, ledger, before, keys, count) && row.sourceId == sourceId
    ensures key in before ==> OnlyAdds(sourceId, ledger, before, keys + {key}, count)
    ensures key !in before ==> OnlyAdds(sourceId, ledger, before[key := row], keys + {key}, count + 1)
  {
  }

  /**
   The insert only adds: rows already there keep their owner, exactly the missing keys appear, and
   what it reports is exactly how much the ledger grew.
   */
  lemma {:induction false} InsertOnlyAdds(sourceId: int, ledger: Ledger, rows: seq<(Key, Row)>)
    requires AllFrom(sourceId, rows)
    ensures var (grown, inserted) := InsertAbsent(ledger, rows);
            OnlyAdds(sourceId, ledger, grown, RowKeys(rows), |inserted|)
  {
    if rows != [] {
      var n := |rows| - 1;
      InsertOnlyAdds(sourceId, ledger, rows[..n]);
      var (before, inserted) := InsertAbsent(ledger, rows[..n]);
      AddOneRow(sourceId, ledger, before, RowKeys(rows[..n]), |inserted|, rows[n].0, rows[n].1);
    }
  }

  /** What persisting one attempt does to the ledger, whoever else writes it. */
  lemma PersistedGrows(ledger: Ledger, seen: set<Key>, source: Source, a: Attempt)
    ensures var (grown, _, outcome) := Persisted(ledger, seen, source, a);
            OnlyAdds(a.sourceId, ledger, grown, Marks(a, NoFault) - seen, outcome.newArticles)
  {
    if a.result.Ok? && a.result.value.Feed? {
      var rows := FreshRows(a.sourceId, a.result.value.entries, seen);
      FreshRowKeys(a.sourceId, a.result.value.entries, seen);
      InsertOnlyAdds(a.sourceId, ledger, rows);
    }
  }

  // --- a whole tick ---------------------------------------------------------------------------

  /** The keys attempts 0..n-1 marked as seen, those that raised included. */
  function Marked(db: Db, attempts: seq<Attempt>, faults: seq<Fault>): set<Key>
    requires |faults| == |attempts|
    decreases |attempts|
  {
    if attempts == [] then {}
    else
      var n := |attempts| - 1;
      Marked(db, attempts[..n], faults[..n])
      + if attempts[n].sourceId in db.sources then Marks(attempts[n], faults[n]) else {}
  }

  /** Attempt `j` is the first to mark `k`. */
  ghost predicate FirstToMark(db: Db, attempts: seq<Attempt>, faults: seq<Fault>, j: nat, k: Key)
    requires |faults| == |attempts| && j < |attempts|
  {
    && attempts[j].sourceId in db.sources
    && k in Marks(attempts[j], faults[j])
    && k !in Marked(db, attempts[..j], faults[..j])
  }

  lemma {:induction false} SourcesAndSeen(db: Db, attempts: seq<Attempt>, faults: seq<Fault>)
    requires |faults| == |attempts|
    ensures var (db', b') := PersistAll(db, Batch({}, []), attempts, faults);
            db'.sources.Keys == db.sources.Keys && b'.seen == Marked(db, attempts, faults)
    decreases |attempts|
  {
    if attempts != [] {
      SourcesAndSeen(db, attempts[..|attempts| - 1], faults[..|attempts| - 1]);
    }
  }

  /**
   The ledger after a tick, exactly: a key is in it iff it was there before, or the first attempt of
   the tick to come across it was persisted. A new row belongs to that attempt's source.
   */
  lemma {:induction false} TickLedger(db: Db, attempts: seq<Attempt>, faults: seq<Fault>, k: Key)
    requires |faults| == |attempts|
    ensures var ledger := PersistAll(db, Batch({}, []), attempts, faults).0.ledger;
            && (k in db.ledger ==> k in ledger && ledger[k] == db.ledger[k])
            && (k in ledger <==>
                  || k in db.ledger
                  || exists j: nat | j < |attempts| :: faults[j].NoFault? && FirstToMark(db, attempts, faults, j, k))
            && (k in ledger && k !in db.ledger ==>
                  exists j: nat | j < |attempts| ::
                    FirstToMark(db, attempts, faults, j, k) && ledger[k].sourceId == attempts[j].sourceId)
    decreases |attempts|
  {
    if attempts != [] {
      var n := |attempts| - 1;
      var init, initFaults := attempts[..n], faults[..n];
      TickLedger(db, init, initFaults, k);
      SourcesAndSeen(db, init, initFaults);
      var (before, b) := PersistAll(db, Batch({}, []), init, initFaults);
      var ledger := PersistAll(db, Batch({}, []), attempts, faults).0.ledger;
      forall j: nat | j < n
        ensures FirstToMark(db, init, initFaults, j, k) <==> FirstToMark(db, attempts, faults, j, k)
      {
        assert init[..j] == attempts[..j] && initFaults[..j] == faults[..j];
      }
      if attempts[n].sourceId in db.sources && faults[n].NoFault? {
        PersistedGrows(before.ledger, b.seen, before.sources[attempts[n].sourceId], attempts[n]);
        if k in ledger && k !in before.ledger {
          assert FirstToMark(db, attempts, faults, n, k);
        }
      } else {
        assert ledger == before.ledger;
      }
    }
  }

  /** When nothing raises, every key of every parsed feed is in the ledger, in whatever order they came. */
  lemma CleanTickStoresEverything(db: Db, attempts: seq<Attempt>, faults: seq<Fault>)
    requires |faults| == |attempts| && forall j :: 0 <= j < |faults| ==> faults[j].NoFault?
    ensures PersistAll(db, Batch({}, []), attempts, faults).0.ledger.Keys
         == db.ledger.Keys + set k, j | 0 <= j < |attempts| && attempts[j].sourceId in db.sources
                                        && k in Marks(attempts[j], NoFault) :: k
  {
    var ledger := PersistAll(db, Batch({}, []), attempts, faults).0.ledger;
    forall k
      ensures k in ledger <==>
                k in db.ledger
                || exists j :: 0 <= j < |attempts| && attempts[j].sourceId in db.sources
                              && k in Marks(attempts[j], NoFault)
    {
      TickLedger(db, attempts, faults, k);
      if j :| 0 <= j < |attempts| && attempts[j].sourceId in db.sources && k in Marks(attempts[j], NoFault) {
        var i := SomeoneIsFirst(db, attempts, faults, j, k);
      }
    }
  }

  lemma {:induction false} SomeoneIsFirst(db: Db, attempts: seq<Attempt>, faults: seq<Fault>, j: nat, k: Key)
    returns (i: nat)
    requires |faults| == |attempts| && j < |attempts|
    requires attempts[j].sourceId in db.sources && k in Marks(attempts[j], faults[j])
    ensures i <= j && FirstToMark(db, attempts, faults, i, k)
    decreases j
  {
    if k !in Marked(db, attempts[..j], faults[..j]) {
      i := j;
    } else {
      var earlier := WhoMarked(db, attempts, faults, j, k);
      i := SomeoneIsFirst(db, attempts, faults, earlier, k);
    }
  }

  lemma {:induction false} WhoMarked(db: Db, attempts: seq<Attempt>, faults: seq<Fault>, n: nat, k: Key)
    returns (i: nat)
    requires |faults| == |attempts| && n <= |attempts|
    requires k in Marked(db, attempts[..n], faults[..n])
    ensures i < n && attempts[i].sourceId in db.sources && k in Marks(attempts[i], faults[i])
  {
    assert attempts[..n][..n - 1] == attempts[..n - 1] && faults[..n][..n - 1] == faults[..n - 1];
    if attempts[n - 1].sourceId in db.sources && k in Marks(attempts[n - 1], faults[n - 1]) {
      i := n - 1;
    } else {
      i := WhoMarked(db, attempts, faults, n - 1, k);
    }
  }

  /** A raised persist can cost a later source its story for the tick: the seen set is not rolled back. */
  lemma RaisedPersistHidesAStory(h: Headers, s: Source)
    ensures var db := Db(map[], map[1 := s, 2 := s]);
            var feed := Ok(Feed(h, [Some("k")]));
            "k" !in PersistAll(db, Batch({}, []), [Attempt(1, 0, feed), Attempt(2, 0, feed)],
                               [Raised(1, "deadlock"), NoFault]).0.ledger
  {
    var db := Db(map[], map[1 := s, 2 := s]);
    var feed := Ok(Feed(h, [Some("k")]));
    var attempts := [Attempt(1, 0, feed), Attempt(2, 0, feed)];
    var faults := [Raised(1, "deadlock"), NoFault];
    TickLedger(db, attempts, faults, "k");
    assert attempts[..1] == [attempts[0]] && faults[..1] == [faults[0]];
    assert "k" in Marks(attempts[0], faults[0]) by {
      assert Some("k") in [Some("k")];
    }
    assert "k" in Marked(db, attempts[..1], faults[..1]);
  }

  lemma LastCountsFirsts(db: Db, attempts: seq<Attempt>, faults: seq<Fault>)
    requires |faults| == |attempts| && attempts != []
    requires attempts[|attempts| - 1].sourceId in db.sources && faults[|attempts| - 1].NoFault?
    ensures var n := |attempts| - 1;
            var outcomes := PersistAll(db, Batch({}, []), attempts, faults).1.outcomes;
            && outcomes != []
            && outcomes[|outcomes| - 1].newArticles
               == |Marks(attempts[n], NoFault) - Marked(db, attempts[..n], faults[..n]) - db.ledger.Keys|
  {
    var n := |attempts| - 1;
    var init, initFaults := attempts[..n], faults[..n];
    SourcesAndSeen(db, init, initFaults);
    var (before, b) := PersistAll(db, Batch({}, []), init, initFaults);
    var a := attempts[n];
    PersistedGrows(before.ledger, b.seen, before.sources[a.sourceId], a);
    var grown := Persisted(before.ledger, b.seen, before.sources[a.sourceId], a).0;
    var firsts := Marks(a, NoFault) - b.seen;
    forall k | k in firsts ensures k in before.ledger <==> k in db.ledger {
      TickLedger(db, init, initFaults, k);
      if k in before.ledger && k !in db.ledger {
        var j: nat :| j < |init| && FirstToMark(db, init, initFaults, j, k);
        MarkedGrows(db, init, initFaults, j, k);
      }
    }
    assert grown.Keys == before.ledger.Keys + (firsts - db.ledger.Keys);
    assert firsts - db.ledger.Keys !! before.ledger.Keys;
    assert |grown.Keys| == |before.ledger.Keys| + |firsts - db.ledger.Keys|;
  }

  lemma {:induction false} OutcomesOnlyAppend(db: Db, b: Batch, attempts: seq<Attempt>, faults: seq<Fault>, n: nat)
    requires |faults| == |attempts| && n <= |attempts|
    ensures PersistAll(db, b, attempts[..n], faults[..n]).1.outcomes <= PersistAll(db, b, attempts, faults).1.outcomes
    decreases |attempts|
  {
    if n < |attempts| {
      var init, initFaults := attempts[..|attempts| - 1], faults[..|attempts| - 1];
      OutcomesOnlyAppend(db, b, init, initFaults, n);
      assert init[..n] == attempts[..n] && initFaults[..n] == faults[..n];
    } else {
      assert attempts[..n] == attempts && faults[..n] == faults;
    }
  }

  /**
   What an attempt that was persisted reports as new, at its place among the outcomes of the tick: its
   keys that were in no earlier feed of the tick and not in the ledger when the tick began.
   */
  lemma {:induction false} NewArticlesCountsFirsts(db: Db, attempts: seq<Attempt>, faults: seq<Fault>, j: nat)
    requires |faults| == |attempts| && j < |attempts|
    requires attempts[j].sourceId in db.sources && faults[j].NoFault?
    ensures var place := |PersistAll(db, Batch({}, []), attempts[..j], faults[..j]).1.outcomes|;
            var outcomes := PersistAll(db, Batch({}, []), attempts, faults).1.outcomes;
            && place < |outcomes| && outcomes[place].sourceId == attempts[j].sourceId
            && outcomes[place].newArticles
               == |Marks(attempts[j], NoFault) - Marked(db, attempts[..j], faults[..j]) - db.ledger.Keys|
  {
    var upTo, upToFaults := attempts[..j + 1], faults[..j + 1];
    assert upTo[..j] == attempts[..j] && upToFaults[..j] == faults[..j];
    SourcesAndSeen(db, attempts[..j], faults[..j]);
    LastCountsFirsts(db, upTo, upToFaults);
    OutcomesOnlyAppend(db, Batch({}, []), attempts, faults, j + 1);
  }

  lemma {:induction false} MarkedGrows(db: Db, attempts: seq<Attempt>, faults: seq<Fault>, j: nat, k: Key)
    requires |faults| == |attempts| && j < |attempts|
    requires attempts[j].sourceId in db.sources && k in Marks(attempts[j], faults[j])
    ensures k in Marked(db, attempts, faults)
    decreases |attempts|
  {
    var n := |attempts| - 1;
    if j < n {
      MarkedGrows(db, attempts[..n], faults[..n], j, k);
    }
  }

  /** What an attempt marks as seen: the keys of the entries looked at, all of them unless it raised. */
  lemma MarksAre(a: Attempt, fault: Fault, k: Key)
    ensures k in Marks(a, fault) <==>
              && a.result.Ok? && a.result.value.Feed?
              && exists i :: 0 <= i < |a.result.value.entries| && (fault.Raised? ==> i < fault.reached)
                             && a.result.value.entries[i] == Some(k)
  {
    if a.result.Ok? && a.result.value.Feed? {
      var entries := a.result.value.entries;
      if fault.Raised? && fault.reached < |entries| {
        assert forall i :: 0 <= i < fault.reached ==> entries[..fault.reached][i] == entries[i];
      }
    }
  }
}

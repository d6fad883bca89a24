/**
 app/services/classify.py: the batched classification pass over the article table.

 There is one classifier loop, so passes do not overlap; articles may arrive while one is waiting
 for the model. Nothing in the application deletes an article.
 */
module Classifier {
  import opened Common
  import opened Llm
  import Rank

  type Id = string

  datatype Article = Article(
    fetchedAt: int,
    attempts: nat,
    category: Option<string>,
    contentType: Option<string>,
    isCityRelevant: Option<bool>,
    confidence: Option<real>,
    dimensions: Rank.Columns)

  type Table = map<Id, Article>

  datatype Settings = Settings(batchSize: nat, maxAttempts: nat)

  // --- one pass -------------------------------------------------------------------------------

  predicate Eligible(a: Article, windowStart: int, settings: Settings) {
    Rank.DIMENSIONS[0] !in a.dimensions && a.attempts < settings.maxAttempts && a.fetchedAt >= windowStart
  }

  function EligibleIds(t: Table, windowStart: int, settings: Settings): set<Id> {
    set id | id in t && Eligible(t[id], windowStart, settings)
  }

  ghost predicate Distinct(ids: seq<Id>) {
    forall i, j :: 0 <= i < j < |ids| ==> ids[i] != ids[j]
  }

  /** What `load_unclassified` may return: oldest first, at most a batch, ties as the database likes. */
  ghost predicate IsBatch(t: Table, windowStart: int, settings: Settings, ids: seq<Id>) {
    var eligible := EligibleIds(t, windowStart, settings);
    && Distinct(ids)
    && (forall i :: 0 <= i < |ids| ==> ids[i] in eligible)
    && |ids| == (if |eligible| < settings.batchSize then |eligible| else settings.batchSize)
    && (forall i, j :: 0 <= i < j < |ids| ==> t[ids[i]].fetchedAt <= t[ids[j]].fetchedAt)
    && forall i, other :: 0 <= i < |ids| && other in eligible && other !in ids ==>
         t[ids[i]].fetchedAt <= t[other].fetchedAt
  }

  /** `{article_ids[index]: result}` over the results by index. */
  function Assigned(ids: seq<Id>, byIndex: map<int, Classification>): (answers: map<Id, Classification>)
    requires forall i :: i in byIndex ==> 0 <= i < |ids|
    requires forall i, j :: 0 <= i < j < |ids| ==> ids[i] != ids[j]
    ensures forall i :: i in byIndex ==> ids[i] in answers && answers[ids[i]] == byIndex[i]
    ensures forall id :: id in answers ==> exists i :: i in byIndex && ids[i] == id
  {
    map i | i in byIndex :: ids[i] := byIndex[i]
  }

  function Clamp(x: real): real {
    if x < 0.0 then 0.0 else if x > 1.0 then 1.0 else x
  }

  function WriteLevels(columns: Rank.Columns, levels: Rank.Levels, names: seq<string>): Rank.Columns
    requires forall d :: d in names ==> d in levels
  {
    if names == [] then columns
    else
      var n := |names| - 1;
      WriteLevels(columns, levels, names[..n])[names[n] := Rank.LevelName(levels[names[n]])]
  }

  function Apply(a: Article, result: Option<Classification>): Article
    requires result.Some? ==> Rank.Complete(result.value.levels)
  {
    var tried := a.(attempts := a.attempts + 1);
    match result
    case None => tried
    case Some(r) =>
      tried.(category := Some(r.category), contentType := Some(r.contentType),
             isCityRelevant := Some(r.isCityRelevant), confidence := Some(Clamp(r.confidence)),
             dimensions := WriteLevels(a.dimensions, r.levels, Rank.DIMENSIONS))
  }

  function Get(answers: map<Id, Classification>, id: Id): Option<Classification> {
    if id in answers then Some(answers[id]) else None
  }

  predicate AllComplete(answers: map<Id, Classification>) {
    forall id :: id in answers ==> Rank.Complete(answers[id].levels)
  }

  function Persist(t: Table, answers: map<Id, Classification>, ids: seq<Id>): Table
    requires AllComplete(answers)
  {
    if ids == [] then t
    else
      var n := |ids| - 1;
      var t' := Persist(t, answers, ids[..n]);
      if ids[n] in t' then t'[ids[n] := Apply(t'[ids[n]], Get(answers, ids[n]))] else t'
  }

  class ArticleStore {
    var articles: Table

    constructor (articles: Table)
      ensures this.articles == articles
    {
      this.articles := articles;
    }

    method PersistCategories(answers: map<Id, Classification>, attemptedIds: seq<Id>) returns (count: nat)
      requires AllComplete(answers)
      modifies this
      ensures articles == Persist(old(articles), answers, attemptedIds)
      ensures count == |answers|
    {
      for n := 0 to |attemptedIds|
        invariant articles == Persist(old(articles), answers, attemptedIds[..n])
      {
        assert attemptedIds[..n + 1][..n] == attemptedIds[..n];
        var id := attemptedIds[n];
        if id in articles {
          var article := articles[id];
          article := article.(attempts := article.attempts + 1);
          if id in answers {
            var result := answers[id];
            article := article.(category := Some(result.category), contentType := Some(result.contentType),
                                isCityRelevant := Some(result.isCityRelevant),
                                confidence := Some(Clamp(result.confidence)));
            var columns := article.dimensions;
            for k := 0 to |Rank.DIMENSIONS|
              invariant columns == WriteLevels(article.dimensions, result.levels, Rank.DIMENSIONS[..k])
            {
              var name := Rank.DIMENSIONS[k];
              assert name in Rank.DIMENSIONS;
              assert Rank.DIMENSIONS[..k + 1][..k] == Rank.DIMENSIONS[..k];
              columns := columns[name := Rank.LevelName(result.levels[name])];
            }
            assert Rank.DIMENSIONS[..|Rank.DIMENSIONS|] == Rank.DIMENSIONS;
            article := article.(dimensions := columns);
          }
          articles := articles[id := article];
        }
      }
      assert attemptedIds[..|attemptedIds|] == attemptedIds;
      count := |answers|;
    }

    /** One pass over the batch the database returned. */
    method RunClassifyPass(batch: seq<Id>, llmMaxAttempts: int, replies: int -> Reply<seq<Classification>>)
      returns (count: nat, log: seq<LlmCall>)
      requires Distinct(batch)
      requires forall k :: replies(k).Parsed? ==> Valid(replies(k).value)
      modifies this
      ensures |log| <= if llmMaxAttempts < 0 then 0 else llmMaxAttempts
      ensures batch == [] ==> articles == old(articles) && log == []
      ensures batch != [] ==>
                articles == PassResult(old(articles), batch,
                                       if log != [] && replies(|log|).Parsed? then Some(replies(|log|).value) else None)
    {
      if |batch| == 0 {
        return 0, [];
      }
      var result;
      result, log := ClassifyTitles(|batch|, llmMaxAttempts, replies);
      match result
      case Ok(byIndex) =>
        AssignedIsComplete(batch, replies(|log|).value);
        count := PersistCategories(Assigned(batch, byIndex), batch);
      case Err(_) =>
        count := PersistCategories(map[], batch);
    }
  }

  /** The table after a completed pass. `reply` is None when every call failed. */
  ghost function PassResult(t: Table, ids: seq<Id>, reply: Option<seq<Classification>>): Table
    requires Distinct(ids) && (reply.Some? ==> Valid(reply.value))
  {
    match reply
    case None => Persist(t, map[], ids)
    case Some(results) =>
      AssignedIsComplete(ids, results);
      Persist(t, Assigned(ids, ByIndex(results, |ids|)), ids)
  }

  lemma {:induction false} ByIndexValues(results: seq<Classification>, n: nat)
    requires Valid(results)
    ensures forall i :: i in ByIndex(results, n) ==> 0 <= i < n && Rank.Complete(ByIndex(results, n)[i].levels)
  {
    if results != [] {
      ByIndexValues(results[..|results| - 1], n);
    }
  }

  lemma AssignedIsComplete(ids: seq<Id>, results: seq<Classification>)
    requires Distinct(ids) && Valid(results)
    ensures forall i :: i in ByIndex(results, |ids|) ==> 0 <= i < |ids|
    ensures AllComplete(Assigned(ids, ByIndex(results, |ids|)))
  {
    var byIndex := ByIndex(results, |ids|);
    ByIndexValues(results, |ids|);
    var answers := Assigned(ids, byIndex);
    forall id | id in answers ensures Rank.Complete(answers[id].levels) {
      var i :| i in byIndex && ids[i] == id;
    }
  }

  lemma AnswerFor(ids: seq<Id>, byIndex: map<int, Classification>, i: nat)
    requires Distinct(ids) && i < |ids|
    requires forall k :: k in byIndex ==> 0 <= k < |ids|
    ensures Get(Assigned(ids, byIndex), ids[i]) == if i in byIndex then Some(byIndex[i]) else None
  {
    if ids[i] in Assigned(ids, byIndex) {
      var k :| k in byIndex && ids[k] == ids[i];
      assert k == i;
    }
  }

  // --- classification lands right -------------------------------------------------------------

  lemma {:induction false} PersistPointwise(t: Table, answers: map<Id, Classification>, ids: seq<Id>, id: Id)
    requires AllComplete(answers) && Distinct(ids)
    ensures Persist(t, answers, ids).Keys == t.Keys
    ensures id in t ==> Persist(t, answers, ids)[id] == if id in ids then Apply(t[id], Get(answers, id)) else t[id]
  {
    if ids != [] {
      var n := |ids| - 1;
      assert ids == ids[..n] + [ids[n]];
      PersistPointwise(t, answers, ids[..n], id);
    }
  }

  /**
   Whatever the model answers, the article at position `i` of the batch gets exactly the last result
   that names position `i`, or none, and one more attempt.
   */
  lemma ClassificationLandsRight(t: Table, ids: seq<Id>, results: seq<Classification>, i: nat)
    requires Distinct(ids) && Valid(results) && i < |ids| && ids[i] in t
    ensures var t' := PassResult(t, ids, Some(results));
            && ids[i] in t'
            && (forall j: nat :: LastFor(results, i, j) ==> t'[ids[i]] == Apply(t[ids[i]], Some(results[j])))
            && ((forall j :: 0 <= j < |results| ==> results[j].index != i) ==> t'[ids[i]] == Apply(t[ids[i]], None))
  {
    AssignedIsComplete(ids, results);
    AnswerFor(ids, ByIndex(results, |ids|), i);
    PersistPointwise(t, Assigned(ids, ByIndex(results, |ids|)), ids, ids[i]);
    LastResultWins(results, |ids|, i);
  }

  /** Articles outside the batch are not touched, whatever indices the reply contains. */
  lemma OthersAreUntouched(t: Table, ids: seq<Id>, reply: Option<seq<Classification>>, id: Id)
    requires Distinct(ids) && (reply.Some? ==> Valid(reply.value))
    requires id in t && id !in ids
    ensures PassResult(t, ids, reply).Keys == t.Keys
    ensures PassResult(t, ids, reply)[id] == t[id]
  {
    if reply.Some? {
      AssignedIsComplete(ids, reply.value);
      PersistPointwise(t, Assigned(ids, ByIndex(reply.value, |ids|)), ids, id);
    } else {
      PersistPointwise(t, map[], ids, id);
    }
  }

  /** All seven dimensions or none of them, and a confidence between 0 and 1 once there is one. */
  ghost predicate WellRated(a: Article) {
    && (Rank.IsRated(a.dimensions) || forall d :: d in Rank.DIMENSIONS ==> d !in a.dimensions)
    && (a.confidence.Some? ==> 0.0 <= a.confidence.value <= 1.0)
  }

  lemma {:induction false} WriteLevelsWrites(columns: Rank.Columns, levels: Rank.Levels, names: seq<string>)
    requires forall d :: d in names ==> d in levels
    ensures forall d :: d in names ==>
              && d in WriteLevels(columns, levels, names)
              && Rank.ParseLevel(WriteLevels(columns, levels, names)[d]) == Some(levels[d])
  {
    if names != [] {
      var n := |names| - 1;
      assert names == names[..n] + [names[n]];
      WriteLevelsWrites(columns, levels, names[..n]);
      LevelRoundTrip(levels[names[n]]);
    }
  }

  lemma LevelRoundTrip(l: Rank.Level)
    ensures Rank.ParseLevel(Rank.LevelName(l)) == Some(l)
  {
  }

  lemma ApplyRates(a: Article, result: Option<Classification>)
    requires WellRated(a) && (result.Some? ==> Rank.Complete(result.value.levels))
    ensures WellRated(Apply(a, result))
    ensures result.Some? ==>
              var b := Apply(a, result);
              && Rank.IsRated(b.dimensions)
              && (forall d :: d in Rank.DIMENSIONS ==> Rank.LevelsOf(b.dimensions).value[d] == result.value.levels[d])
              && b.category == Some(result.value.category) && b.contentType == Some(result.value.contentType)
              && b.isCityRelevant == Some(result.value.isCityRelevant)
              && (0.0 <= result.value.confidence <= 1.0 ==> b.confidence == Some(result.value.confidence))
              && (result.value.confidence < 0.0 ==> b.confidence == Some(0.0))
              && (result.value.confidence > 1.0 ==> b.confidence == Some(1.0))
    ensures result.None? ==> Apply(a, result) == a.(attempts := a.attempts + 1)
    ensures Apply(a, result).attempts == a.attempts + 1 && Apply(a, result).fetchedAt == a.fetchedAt
  {
    if result.Some? {
      WriteLevelsWrites(a.dimensions, result.value.levels, Rank.DIMENSIONS);
    }
  }

  /** The one column the batch query tests speaks for all seven. */
  lemma FirstDimensionSpeaksForAll(a: Article)
    requires WellRated(a)
    ensures Rank.DIMENSIONS[0] !in a.dimensions <==> Rank.LevelsOf(a.dimensions) == None
  {
    assert Rank.DIMENSIONS[0] in Rank.DIMENSIONS;
  }

  // --- runs -----------------------------------------------------------------------------------

  /** `loaded` is the batch a pass is waiting on; `done` the batches of completed passes. */
  datatype State = State(table: Table, window: int, loaded: Option<seq<Id>>, done: seq<seq<Id>>)

  datatype Event =
    | Arrive(id: Id, fetchedAt: int)
    | Load(windowStart: int, ids: seq<Id>)
    | Complete(reply: Option<seq<Classification>>)
    | Abort

  function NewArticle(fetchedAt: int): Article {
    Article(fetchedAt, 0, None, None, None, None, map[])
  }

  ghost function Next(s: State, e: Event, settings: Settings): State {
    match e
    case Arrive(id, fetchedAt) =>
      if id in s.table then s else s.(table := s.table[id := NewArticle(fetchedAt)])
    case Load(windowStart, ids) =>
      if s.loaded.None? && s.window <= windowStart && ids != [] && IsBatch(s.table, windowStart, settings, ids)
      then s.(window := windowStart, loaded := Some(ids))
      else s
    case Complete(reply) =>
      if s.loaded.Some? && Distinct(s.loaded.value) && (reply.Some? ==> Valid(reply.value))
      then State(PassResult(s.table, s.loaded.value, reply), s.window, None, s.done + [s.loaded.value])
      else s
    case Abort => s.(loaded := None)
  }

  ghost function Run(s: State, events: seq<Event>, settings: Settings): State {
    if events == [] then s else Next(Run(s, events[..|events| - 1], settings), events[|events| - 1], settings)
  }

  function CountBatches(done: seq<seq<Id>>, id: Id): nat {
    if done == [] then 0
    else CountBatches(done[..|done| - 1], id) + if id in done[|done| - 1] then 1 else 0
  }

  ghost predicate RunInv(s: State, settings: Settings) {
    && (forall id :: id in s.table ==>
          && WellRated(s.table[id])
          && s.table[id].attempts == CountBatches(s.done, id) <= settings.maxAttempts)
    && (forall id :: id !in s.table ==> CountBatches(s.done, id) == 0)
    && (s.loaded.Some? ==>
          && Distinct(s.loaded.value)
          && forall id :: id in s.loaded.value ==> id in s.table && s.table[id].attempts < settings.maxAttempts)
  }

  lemma PassPointwise(t: Table, ids: seq<Id>, reply: Option<seq<Classification>>, id: Id)
    requires Distinct(ids) && (reply.Some? ==> Valid(reply.value)) && id in t && WellRated(t[id])
    ensures PassResult(t, ids, reply).Keys == t.Keys
    ensures id !in ids ==> PassResult(t, ids, reply)[id] == t[id]
    ensures var a := PassResult(t, ids, reply)[id];
            && WellRated(a) && a.fetchedAt == t[id].fetchedAt
            && a.attempts == t[id].attempts + (if id in ids then 1 else 0)
            && (Rank.DIMENSIONS[0] in t[id].dimensions ==> Rank.DIMENSIONS[0] in a.dimensions)
  {
    PassKeys(t, ids, reply);
    if reply.Some? {
      AssignedIsComplete(ids, reply.value);
      PersistPointwise(t, Assigned(ids, ByIndex(reply.value, |ids|)), ids, id);
      ApplyRates(t[id], Get(Assigned(ids, ByIndex(reply.value, |ids|)), id));
    } else {
      PersistPointwise(t, map[], ids, id);
      ApplyRates(t[id], None);
    }
    assert Rank.DIMENSIONS[0] in Rank.DIMENSIONS;
  }

  lemma PassKeys(t: Table, ids: seq<Id>, reply: Option<seq<Classification>>)
    requires Distinct(ids) && (reply.Some? ==> Valid(reply.value))
    ensures PassResult(t, ids, reply).Keys == t.Keys
  {
    if reply.Some? {
      AssignedIsComplete(ids, reply.value);
      PersistPointwise(t, Assigned(ids, ByIndex(reply.value, |ids|)), ids, "");
    } else {
      PersistPointwise(t, map[], ids, "");
    }
  }

  lemma CompleteKeepsInv(s: State, reply: Option<seq<Classification>>, settings: Settings)
    requires RunInv(s, settings)
    ensures RunInv(Next(s, Event.Complete(reply), settings), settings)
  {
    var s' := Next(s, Event.Complete(reply), settings);
    if s' != s {
      var ids := s.loaded.value;
      assert s'.done[..|s'.done| - 1] == s.done;
      PassKeys(s.table, ids, reply);
      forall id | id in s'.table
        ensures WellRated(s'.table[id])
        ensures s'.table[id].attempts == CountBatches(s'.done, id) <= settings.maxAttempts
      {
        PassPointwise(s.table, ids, reply, id);
      }
    }
  }

  lemma NextKeepsInv(s: State, e: Event, settings: Settings)
    requires RunInv(s, settings)
    ensures RunInv(Next(s, e, settings), settings)
  {
    match e
    case Arrive(id, fetchedAt) =>
    case Load(windowStart, ids) =>
    case Complete(reply) => CompleteKeepsInv(s, reply, settings);
    case Abort =>
  }

  /**
   In every reachable state: an article's attempt counter is the number of completed batches it was
   in, never more than `maxAttempts`; it has all seven dimensions or none; its confidence is in [0, 1].
   */
  lemma {:induction false} AttemptsAreBounded(window: int, events: seq<Event>, settings: Settings)
    ensures RunInv(Run(State(map[], window, None, []), events, settings), settings)
  {
    var s0 := State(map[], window, None, []);
    if events != [] {
      var n := |events| - 1;
      AttemptsAreBounded(window, events[..n], settings);
      NextKeepsInv(Run(s0, events[..n], settings), events[n], settings);
    }
  }

  // --- what a batch holds ---------------------------------------------------------------------

  /** An article that is waiting to be rated and may still be tried. */
  ghost predicate Awaits(a: Article, windowStart: int, maxAttempts: nat) {
    Rank.LevelsOf(a.dimensions) == None && a.attempts < maxAttempts && windowStart <= a.fetchedAt
  }

  function SetOf(ids: seq<Id>): set<Id> {
    set i | i in ids
  }

  lemma {:induction false} DistinctCount(ids: seq<Id>)
    requires Distinct(ids)
    ensures |SetOf(ids)| == |ids|
  {
    if ids != [] {
      var n := |ids| - 1;
      DistinctCount(ids[..n]);
      assert ids == ids[..n] + [ids[n]];
      assert SetOf(ids) == SetOf(ids[..n]) + {ids[n]};
    }
  }

  /**
   The batches the query may return, in any table a run reaches: some of the articles in the window that
   have no rating and attempts left, each once, oldest first; all of them if they fit, else as many
   as fit, none of those left out being older than one taken.
   */
  lemma BatchHoldsTheOldest(window: int, events: seq<Event>, windowStart: int, settings: Settings, ids: seq<Id>)
    ensures var t := Run(State(map[], window, None, []), events, settings).table;
            IsBatch(t, windowStart, settings, ids) ==>
              && (forall id :: id in ids ==> id in t && Awaits(t[id], windowStart, settings.maxAttempts))
              && (forall i, j :: 0 <= i < j < |ids| ==> ids[i] != ids[j] && t[ids[i]].fetchedAt <= t[ids[j]].fetchedAt)
              && |ids| <= settings.batchSize
              && forall other :: other in t && Awaits(t[other], windowStart, settings.maxAttempts) && other !in ids ==>
                   |ids| == settings.batchSize
                   && forall id :: id in ids ==> t[id].fetchedAt <= t[other].fetchedAt
  {
    AttemptsAreBounded(window, events, settings);
    var t := Run(State(map[], window, None, []), events, settings).table;
    if IsBatch(t, windowStart, settings, ids) {
      var eligible := EligibleIds(t, windowStart, settings);
      forall id | id in t ensures id in eligible <==> Awaits(t[id], windowStart, settings.maxAttempts) {
        FirstDimensionSpeaksForAll(t[id]);
      }
      forall other | other in eligible && other !in ids ensures |ids| == settings.batchSize {
        DistinctCount(ids);
        SubsetSize(SetOf(ids), eligible - {other});
      }
    }
  }

  /** A pass ends with its batch released, whether it completes or dies; dying it changes no article. */
  lemma NoPassBlocksTheNext(window: int, events: seq<Event>, settings: Settings, reply: Option<seq<Classification>>)
    requires reply.Some? ==> Valid(reply.value)
    ensures var s := Run(State(map[], window, None, []), events, settings);
            var died, completed := Next(s, Abort, settings), Next(s, Event.Complete(reply), settings);
            && died.loaded.None? && died.table == s.table && died.done == s.done
            && completed.loaded.None?
            && (s.loaded.Some? ==> completed.done == s.done + [s.loaded.value])
  {
    AttemptsAreBounded(window, events, settings);
  }
}

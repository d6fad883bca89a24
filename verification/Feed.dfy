/**
 The story feed: `_hidden` and `list_stories` (app/api/v1/endpoints/stories.py), the sort keys of
 app/services/rank.py, and the "Load more" loop of app/static/js/feed.js that pages through them.
 */
module Feed {
  import opened Common
  import opened Order
  import Rank

  datatype Article = Article(
    id: string,
    title: string,
    url: string,
    publishedAt: Option<int>,
    fetchedAt: int,
    category: Option<string>,
    contentType: Option<string>,
    isCityRelevant: Option<bool>,
    relevanceConfidence: Option<real>,
    cityId: Option<int>,
    dimensions: Rank.Columns)

  datatype Source = Source(name: string, cityId: int, isLocalOutlet: bool)

  datatype Row = Row(article: Article, source: Source)

  datatype Settings = Settings(
    discoverable: set<string>,
    confidenceFloor: real,
    weights: Rank.Weights,
    defaultLimit: nat,
    maxLimit: nat)

  datatype Query = Query(windowStart: int, categories: set<string>, cityId: Option<int>, byEngagement: bool)

  /** A row with what the sort looks at. */
  datatype Story = Story(row: Row, publishedAt: int, score: real)

  const CONTENT_TYPES: set<string> :=
    {"news", "oddity", "opinion", "advice_tips", "promotional", "celebrity_entertainment", "explainer", "other"}

  // --- admission ------------------------------------------------------------------------------

  predicate DeriveIsLocal(a: Article, s: Source) {
    s.isLocalOutlet || a.cityId == Some(s.cityId)
  }

  predicate Hidden(a: Article, s: Source, settings: Settings) {
    if a.contentType.Some? && a.contentType.value in CONTENT_TYPES && a.contentType.value !in settings.discoverable
    then true
    else match a.isCityRelevant
      case None => !DeriveIsLocal(a, s)
      case Some(relevant) =>
        !relevant
        && (if a.relevanceConfidence.Some? then a.relevanceConfidence.value else 0.0) >= settings.confidenceFloor
  }

  /**
   Admission fails open: a looser setting hides nothing more, a story judged to be about the city is
   hidden only for its form, and a local outlet's story only once it has been judged.
   */
  lemma AdmissionFailsOpen(a: Article, s: Source, strict: Settings, loose: Settings)
    requires strict.discoverable <= loose.discoverable && strict.confidenceFloor <= loose.confidenceFloor
    ensures Hidden(a, s, loose) ==> Hidden(a, s, strict)
    ensures var fits := a.contentType.None? || a.contentType.value !in CONTENT_TYPES
                        || a.contentType.value in strict.discoverable;
            && (fits && a.isCityRelevant == Some(true) ==> !Hidden(a, s, strict))
            && (fits && a.isCityRelevant.None? && s.isLocalOutlet ==> !Hidden(a, s, strict))
            && (!fits ==> Hidden(a, s, strict))
            && (fits && a.isCityRelevant == Some(false) && a.relevanceConfidence.Some? ==>
                  (Hidden(a, s, strict) <==> a.relevanceConfidence.value >= strict.confidenceFloor))
            && (fits && a.isCityRelevant.None? && !s.isLocalOutlet ==>
                  (Hidden(a, s, strict) <==> a.cityId != Some(s.cityId)))
  {
  }

  function OccurredAt(a: Article): int {
    if a.publishedAt.Some? then a.publishedAt.value else a.fetchedAt
  }

  predicate Selected(r: Row, q: Query) {
    && OccurredAt(r.article) >= q.windowStart
    && (q.categories == {} || (r.article.category.Some? && r.article.category.value in q.categories))
    && (q.cityId.None? || r.source.cityId == q.cityId.value)
  }

  predicate Admitted(r: Row, q: Query, settings: Settings) {
    Selected(r, q) && !Hidden(r.article, r.source, settings)
  }

  function Project(r: Row, settings: Settings): Story
    requires Rank.Validated(settings.weights)
  {
    Story(r, OccurredAt(r.article), Rank.ArticleScore(settings.weights, Rank.LevelsOf(r.article.dimensions)))
  }

  function Stories(rows: seq<Row>, q: Query, settings: Settings): seq<Story>
    requires Rank.Validated(settings.weights)
  {
    if rows == [] then []
    else
      var n := |rows| - 1;
      Stories(rows[..n], q, settings) + if Admitted(rows[n], q, settings) then [Project(rows[n], settings)] else []
  }

  // --- the order ------------------------------------------------------------------------------

  /** Descending on (published_at, score, id). */
  predicate RecentFirst(a: Story, b: Story) {
    a.publishedAt > b.publishedAt
    || (a.publishedAt == b.publishedAt
        && (a.score > b.score || (a.score == b.score && StringLeq(b.row.article.id, a.row.article.id))))
  }

  /** Descending on (score, published_at, id). */
  predicate BestFirst(a: Story, b: Story) {
    a.score > b.score
    || (a.score == b.score
        && (a.publishedAt > b.publishedAt
            || (a.publishedAt == b.publishedAt && StringLeq(b.row.article.id, a.row.article.id))))
  }

  function Precedes(q: Query): (Story, Story) -> bool {
    if q.byEngagement then BestFirst else RecentFirst
  }

  /** The whole feed in order; requests serve slices of it. */
  function FeedOrder(rows: seq<Row>, q: Query, settings: Settings): seq<Story>
    requires Rank.Validated(settings.weights)
  {
    Sort(Precedes(q), Stories(rows, q, settings))
  }

  function Slice<T>(s: seq<T>, offset: nat, limit: nat): seq<T> {
    if offset >= |s| then [] else if offset + limit >= |s| then s[offset..] else s[offset..offset + limit]
  }

  function PageLimit(limit: Option<nat>, settings: Settings): nat {
    var wanted := if limit.Some? && limit.value != 0 then limit.value else settings.defaultLimit;
    if wanted < settings.maxLimit then wanted else settings.maxLimit
  }

  method ListStories(rows: seq<Row>, q: Query, settings: Settings, limit: Option<nat>, offset: nat)
    returns (page: seq<Story>)
    requires Rank.Validated(settings.weights)
    ensures page == Slice(FeedOrder(rows, q, settings), offset, PageLimit(limit, settings))
  {
    var stories := [];
    for i := 0 to |rows|
      invariant stories == Stories(rows[..i], q, settings)
    {
      assert rows[..i + 1][..i] == rows[..i];
      var Row(article, source) := rows[i];
      if Selected(rows[i], q) {
        if !Hidden(article, source, settings) {
          stories := stories + [Project(rows[i], settings)];
        }
      }
    }
    assert rows[..|rows|] == rows;
    stories := Sort(Precedes(q), stories);
    page := Slice(stories, offset, PageLimit(limit, settings));
  }

  // --- the result does not depend on how the database returned the rows -----------------------

  /** The article id is the primary key. */
  ghost predicate DistinctIds(rows: seq<Row>) {
    forall r, s :: r in rows && s in rows && r.article.id == s.article.id ==> r == s
  }

  lemma PrecedesIsTotal(q: Query)
    ensures TotalPreorder(Precedes(q))
  {
    StringOrder();
    var leq := Precedes(q);
    forall a, b ensures leq(a, b) || leq(b, a) {
    }
    forall a, b, c | leq(a, b) && leq(b, c) ensures leq(a, c) {
    }
  }

  lemma {:induction false} StoryCount(rows: seq<Row>, q: Query, settings: Settings, s: Story)
    requires Rank.Validated(settings.weights)
    ensures multiset(Stories(rows, q, settings))[s]
         == if Admitted(s.row, q, settings) && s == Project(s.row, settings) then multiset(rows)[s.row] else 0
  {
    if rows != [] {
      var n := |rows| - 1;
      assert rows == rows[..n] + [rows[n]];
      StoryCount(rows[..n], q, settings, s);
    }
  }

  lemma StoriesAreDistinct(rows: seq<Row>, q: Query, settings: Settings)
    requires Rank.Validated(settings.weights) && DistinctIds(rows)
    ensures Separates(Precedes(q), Stories(rows, q, settings))
  {
    StringOrder();
    forall a, b | a in Stories(rows, q, settings) && b in Stories(rows, q, settings)
                  && Precedes(q)(a, b) && Precedes(q)(b, a)
      ensures a == b
    {
      StoryCount(rows, q, settings, a);
      StoryCount(rows, q, settings, b);
      assert multiset(Stories(rows, q, settings))[a] > 0 && multiset(Stories(rows, q, settings))[b] > 0;
      assert a.row in rows && b.row in rows;
      assert a.row.article.id == b.row.article.id;
    }
  }

  /** Under either sort, rows in any other order give the same feed. */
  lemma FeedForgetsRowOrder(rows: seq<Row>, shuffled: seq<Row>, q: Query, settings: Settings)
    requires Rank.Validated(settings.weights) && DistinctIds(rows)
    requires multiset(shuffled) == multiset(rows)
    ensures FeedOrder(shuffled, q, settings) == FeedOrder(rows, q, settings)
  {
    var a, b := Stories(rows, q, settings), Stories(shuffled, q, settings);
    forall s ensures multiset(a)[s] == multiset(b)[s] {
      StoryCount(rows, q, settings, s);
      StoryCount(shuffled, q, settings, s);
    }
    assert multiset(a) == multiset(b);
    PrecedesIsTotal(q);
    StoriesAreDistinct(rows, q, settings);
    SortForgetsOrder(Precedes(q), a, b);
  }

  /** The feed lists every admitted row once, and nothing else, in order. */
  lemma FeedIsTheAdmittedRows(rows: seq<Row>, q: Query, settings: Settings, s: Story)
    requires Rank.Validated(settings.weights)
    ensures multiset(FeedOrder(rows, q, settings))[s]
         == if Admitted(s.row, q, settings) && s == Project(s.row, settings) then multiset(rows)[s.row] else 0
    ensures Sorted(Precedes(q), FeedOrder(rows, q, settings))
  {
    PrecedesIsTotal(q);
    SortSorts(Precedes(q), Stories(rows, q, settings));
    StoryCount(rows, q, settings, s);
  }

  // --- paging ---------------------------------------------------------------------------------

  const PAGE_SIZE: nat := 24

  /**
   "Load more" until a short page. `arrival(n)` is the order in which the database returns the rows
   for request `n`. The editor sees the feed from top to bottom, each story once, in
   |feed| / PAGE_SIZE + 1 requests; a server limit below the page size would end it after one page.
   So the whole feed is shown exactly when the limit admits a full page or the feed fits under it.
   */
  method LoadAll(rows: seq<Row>, arrival: nat -> seq<Row>, q: Query, settings: Settings)
    returns (grid: seq<Story>, requests: nat)
    requires Rank.Validated(settings.weights) && DistinctIds(rows)
    requires forall n: nat :: multiset(arrival(n)) == multiset(rows)
    ensures settings.maxLimit >= PAGE_SIZE ==>
              grid == FeedOrder(rows, q, settings) && requests == |grid| / PAGE_SIZE + 1
    ensures settings.maxLimit < PAGE_SIZE ==>
              grid == Slice(FeedOrder(rows, q, settings), 0, settings.maxLimit) && requests == 1
    ensures grid == FeedOrder(rows, q, settings) <==>
              settings.maxLimit >= PAGE_SIZE || |FeedOrder(rows, q, settings)| <= settings.maxLimit
  {
    grid := [];
    ghost var feed := FeedOrder(rows, q, settings);
    var offset := 0;
    requests := 0;
    var more := true;
    while more
      invariant offset == |grid| <= |feed|
      invariant more ==> grid == feed[..offset] && offset == requests * PAGE_SIZE
      invariant more ==> settings.maxLimit >= PAGE_SIZE || requests == 0
      invariant !more && settings.maxLimit >= PAGE_SIZE ==> grid == feed && requests == |feed| / PAGE_SIZE + 1
      invariant !more && settings.maxLimit < PAGE_SIZE ==> grid == Slice(feed, 0, settings.maxLimit) && requests == 1
      decreases more, |feed| - offset
    {
      FeedForgetsRowOrder(rows, arrival(requests), q, settings);
      var stories := ListStories(arrival(requests), q, settings, Some(PAGE_SIZE), offset);
      grid := grid + stories;
      offset := offset + |stories|;
      requests := requests + 1;
      more := |stories| == PAGE_SIZE;
    }
    SliceIsAllIff(feed, settings.maxLimit);
  }

  lemma SliceIsAllIff(feed: seq<Story>, maxLimit: nat)
    ensures Slice(feed, 0, maxLimit) == feed <==> |feed| <= maxLimit
  {
    if |feed| > maxLimit {
      assert |Slice(feed, 0, maxLimit)| == maxLimit;
    }
  }

  // --- what is on a page ----------------------------------------------------------------------

  /** No story of a feed sorted by engagement stands before a better one, or by recency before a newer one. */
  lemma FeedIsInOrder(rows: seq<Row>, q: Query, settings: Settings, i: nat, j: nat)
    requires Rank.Validated(settings.weights) && i < j < |FeedOrder(rows, q, settings)|
    ensures var a, b := FeedOrder(rows, q, settings)[i], FeedOrder(rows, q, settings)[j];
            && (q.byEngagement ==> a.score >= b.score && (a.score == b.score ==> a.publishedAt >= b.publishedAt))
            && (!q.byEngagement ==>
                  a.publishedAt >= b.publishedAt && (a.publishedAt == b.publishedAt ==> a.score >= b.score))
            && (a.score == b.score && a.publishedAt == b.publishedAt ==>
                  StringLeq(b.row.article.id, a.row.article.id))
  {
    FeedIsTheAdmittedRows(rows, q, settings, FeedOrder(rows, q, settings)[i]);
    assert Precedes(q)(FeedOrder(rows, q, settings)[i], FeedOrder(rows, q, settings)[j]);
  }

  /** What has to be true of a story for it to be listed. */
  lemma ListedIff(rows: seq<Row>, q: Query, settings: Settings, r: Row)
    requires Rank.Validated(settings.weights)
    ensures var a := r.article;
            var when := if a.publishedAt.Some? then a.publishedAt.value else a.fetchedAt;
            var score := Rank.ArticleScore(settings.weights, Rank.LevelsOf(a.dimensions));
            Story(r, when, score) in FeedOrder(rows, q, settings) <==>
              && r in rows && when >= q.windowStart
              && (q.categories == {} || exists c :: c in q.categories && a.category == Some(c))
              && (q.cityId.Some? ==> r.source.cityId == q.cityId.value)
              && !Hidden(a, r.source, settings)
  {
    var s := Project(r, settings);
    FeedIsTheAdmittedRows(rows, q, settings, s);
    assert s in FeedOrder(rows, q, settings) <==> multiset(FeedOrder(rows, q, settings))[s] > 0;
    assert r in rows <==> multiset(rows)[r] > 0;
  }

  /** A page holds what was asked for, the default if nothing was, and never more than the cap. */
  lemma PageSizes(limit: Option<nat>, settings: Settings)
    ensures PageLimit(limit, settings) <= settings.maxLimit
    ensures limit.Some? && 1 <= limit.value <= settings.maxLimit ==> PageLimit(limit, settings) == limit.value
    ensures limit in {None, Some(0)} && settings.defaultLimit <= settings.maxLimit ==>
              PageLimit(limit, settings) == settings.defaultLimit
  {
  }
}

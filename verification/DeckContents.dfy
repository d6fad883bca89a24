/**
 What a deck says: which stories create and add put on it, where, in what order and with which
 headline, and what they record about each.
 */
module DeckContents {
  import opened Common
  import opened Order
  import opened Deck
  import opened Carousels
  import Feed
  import Rank
  import Text

  /** The stories a request put on a deck, in deck order: `run` on the deck, `picks` in the log. */
  ghost predicate IsSelectionOf(
      s: Server, ids: seq<Id>, already: set<Id>, run: seq<SlideWrite>, picks: seq<Selection>,
      id: int, sort: Option<string>, settings: Settings, headline: Headline)
    requires Rank.Validated(settings.feed.weights)
  {
    && |picks| == |run|
    && (forall i :: 0 <= i < |run| ==>
          ShowsAStory(s, run[i], headline) && Records(s, run[i], picks[i], id, sort, settings))
    && (forall i, j :: 0 <= i < j < |run| ==> Better(s, run[i], run[j], settings) && run[i].storyId != run[j].storyId)
    && forall a :: a in StoryIds(run) <==> a in ids && a in s.articles && a !in already
  }

  /** How a title becomes a slide's text, and whether it lost words. */
  type Headline = string -> (string, bool)

  function Clipper(settings: Settings): Headline {
    (title: string) => Text.Clip(settings.classes, Some(title), TEXT_MAX)
  }

  ghost predicate Better(s: Server, w: SlideWrite, v: SlideWrite, settings: Settings)
    requires Rank.Validated(settings.feed.weights)
  {
    && w.storyId.Some? && w.storyId.value in s.articles && v.storyId.Some? && v.storyId.value in s.articles
    && Feed.BestFirst(Feed.Project(s.articles[w.storyId.value], settings.feed),
                      Feed.Project(s.articles[v.storyId.value], settings.feed))
  }

  /** A story slide carries the headline of its article, clipped to the text box. */
  ghost predicate ShowsAStory(s: Server, w: SlideWrite, headline: Headline) {
    && w.kind == Story && w.storyId.Some? && w.storyId.value in s.articles
    && (w.text, w.clipped) == headline(s.articles[w.storyId.value].article.title)
  }

  /** The score as shown, and no score of this generation for a story that is not rated. */
  ghost predicate Records(s: Server, w: SlideWrite, pick: Selection, id: int, sort: Option<string>, settings: Settings)
    requires Rank.Validated(settings.feed.weights) && w.storyId.Some? && w.storyId.value in s.articles
  {
    var levels := Rank.LevelsOf(s.articles[w.storyId.value].article.dimensions);
    && pick.articleId == w.storyId.value
    && pick.carouselId == Some(id) && pick.sort == sort
    && pick.score == Rank.ArticleScore(settings.feed.weights, levels)
    && pick.engagement == (if levels.Some? then Some(pick.score) else None)
    && pick.scoreVersion == (if levels.Some? then Some(SCORE_VERSION) else None)
  }

  // --- the stories of a lookup ----------------------------------------------------------------

  /** `story` is what the articles table says about one of `ids`. */
  ghost predicate IsKnown(s: Server, ids: seq<Id>, story: Feed.Story, settings: Settings)
    requires Rank.Validated(settings.feed.weights)
  {
    var a := story.row.article.id;
    a in ids && a in s.articles && story == Feed.Project(s.articles[a], settings.feed)
  }

  ghost predicate AllKnown(s: Server, ids: seq<Id>, stories: seq<Feed.Story>, settings: Settings)
    requires Rank.Validated(settings.feed.weights)
  {
    forall story :: story in stories ==> IsKnown(s, ids, story, settings)
  }

  lemma {:induction false} ProjectedAreKnown(s: Server, ids: seq<Id>, settings: Settings)
    requires Rank.Validated(settings.feed.weights) && Keyed(s.articles)
    ensures AllKnown(s, ids, Project(s.articles, ids, settings), settings)
  {
    if ids != [] {
      ProjectedAreKnown(s, ids[1..], settings);
      var rest := Project(s.articles, ids[1..], settings);
      forall story | story in Project(s.articles, ids, settings) ensures IsKnown(s, ids, story, settings) {
        if story in rest {
          assert IsKnown(s, ids[1..], story, settings);
        }
      }
    }
  }

  lemma ResolvedAreKnown(s: Server, ids: seq<Id>, settings: Settings)
    requires Rank.Validated(settings.feed.weights) && Keyed(s.articles) && Resolve(s, ids, settings).Ok?
    ensures var stories := Resolve(s, ids, settings).value.stories;
            AllKnown(s, ids, stories, settings) && Sorted(Feed.BestFirst, stories)
  {
    var wanted := Dedupe(ids);
    var projected := Project(s.articles, wanted, settings);
    var stories := Sort(Feed.BestFirst, projected);
    ProjectedAreKnown(s, wanted, settings);
    Feed.PrecedesIsTotal(Feed.Query(0, {}, None, true));
    SortSorts(Feed.BestFirst, projected);
    SameMembers(projected, stories);
    forall story | story in stories ensures IsKnown(s, ids, story, settings) {
      assert IsKnown(s, wanted, story, settings);
    }
  }

  lemma {:induction false} NotYetKeepsOrder(
      s: Server, ids: seq<Id>, stories: seq<Feed.Story>, already: set<Id>, settings: Settings)
    requires Rank.Validated(settings.feed.weights)
    requires AllKnown(s, ids, stories, settings) && Sorted(Feed.BestFirst, stories)
    ensures var added := NotYet(stories, already);
            && AllKnown(s, ids, added, settings) && Sorted(Feed.BestFirst, added)
            && forall story :: story in added ==> story in stories
  {
    if stories != [] {
      NotYetKeepsOrder(s, ids, stories[1..], already, settings);
      var rest := NotYet(stories[1..], already);
      forall story | story in rest ensures Feed.BestFirst(stories[0], story) {
        var j :| 0 <= j < |stories[1..]| && stories[1..][j] == story;
        assert stories[j + 1] == story;
      }
    }
  }

  // --- stories, slides and picks side by side -------------------------------------------------

  lemma {:induction false} MadeAt(make: Feed.Story -> Slide, stories: seq<Feed.Story>, i: nat)
    requires i < |stories|
    ensures |Made(make, stories)| == |stories| && Made(make, stories)[i] == make(stories[i])
  {
    if i > 0 {
      MadeAt(make, stories[1..], i - 1);
    } else if |stories| > 1 {
      MadeAt(make, stories[1..], 0);
    }
  }

  lemma {:induction false} PickAt(stories: seq<Feed.Story>, sort: Option<string>, id: int, i: nat)
    requires i < |stories|
    ensures |Picks(stories, sort, id)| == |stories| && Picks(stories, sort, id)[i] == Pick(stories[i], sort, id)
  {
    var n := |stories| - 1;
    if i < n {
      PickAt(stories[..n], sort, id, i);
    } else if n > 0 {
      PickAt(stories[..n], sort, id, 0);
    }
  }

  lemma {:induction false} CountedIsThere(stories: seq<Feed.Story>, i: nat)
    requires i < |stories|
    ensures CountId(stories, stories[i].row.article.id) > 0
  {
    if i > 0 {
      CountedIsThere(stories[1..], i - 1);
    }
  }

  lemma {:induction false} CountedOnce(stories: seq<Feed.Story>, i: nat, j: nat)
    requires i < j < |stories| && stories[i].row.article.id == stories[j].row.article.id
    ensures CountId(stories, stories[i].row.article.id) >= 2
  {
    if i > 0 {
      CountedOnce(stories[1..], i - 1, j - 1);
    } else {
      CountedIsThere(stories[1..], j - 1);
    }
  }

  ghost predicate MakesHeadlines(make: Feed.Story -> Slide, headline: Headline) {
    forall story :: MakesHeadline(make, headline, story)
  }

  ghost predicate MakesHeadline(make: Feed.Story -> Slide, headline: Headline, story: Feed.Story) {
    && make(story).kind == Story && make(story).storyId == Some(story.row.article.id)
    && (make(story).text, make(story).clipped) == headline(story.row.article.title)
  }

  lemma StoryAt(
      s: Server, ids: seq<Id>, make: Feed.Story -> Slide, stories: seq<Feed.Story>, id: int, sort: Option<string>,
      settings: Settings, headline: Headline, i: nat)
    requires Rank.Validated(settings.feed.weights) && AllKnown(s, ids, stories, settings) && i < |stories|
    requires MakesHeadlines(make, headline)
    ensures var run, picks := AsWrites(Made(make, stories)), Picks(stories, sort, id);
            && |run| == |picks| == |stories|
            && ShowsAStory(s, run[i], headline)
            && Records(s, run[i], picks[i], id, sort, settings)
            && run[i].storyId == Some(stories[i].row.article.id)
            && stories[i] == Feed.Project(s.articles[run[i].storyId.value], settings.feed)
  {
    assert IsKnown(s, ids, stories[i], settings);
    assert MakesHeadline(make, headline, stories[i]);
    MadeAt(make, stories, i);
    PickAt(stories, sort, id, i);
  }

  lemma StoriesAreASelection(
      s: Server, ids: seq<Id>, already: set<Id>, make: Feed.Story -> Slide, stories: seq<Feed.Story>, id: int,
      sort: Option<string>, settings: Settings, headline: Headline)
    requires Rank.Validated(settings.feed.weights) && MakesHeadlines(make, headline)
    requires AllKnown(s, ids, stories, settings) && Sorted(Feed.BestFirst, stories)
    requires forall a :: CountId(stories, a) == if a in ids && a in s.articles && a !in already then 1 else 0
    ensures IsSelectionOf(s, ids, already, AsWrites(Made(make, stories)), Picks(stories, sort, id),
                          id, sort, settings, headline)
  {
    var run, picks := AsWrites(Made(make, stories)), Picks(stories, sort, id);
    forall story ensures make(story).kind == Story && make(story).storyId == Some(story.row.article.id) {
      assert MakesHeadline(make, headline, story);
    }
    MadeCounts(make, stories, "");
    if stories != [] {
      StoryAt(s, ids, make, stories, id, sort, settings, headline, 0);
    }
    forall i | 0 <= i < |run|
      ensures ShowsAStory(s, run[i], headline) && Records(s, run[i], picks[i], id, sort, settings)
    {
      StoryAt(s, ids, make, stories, id, sort, settings, headline, i);
    }
    forall i, j | 0 <= i < j < |run| ensures Better(s, run[i], run[j], settings) && run[i].storyId != run[j].storyId {
      StoryAt(s, ids, make, stories, id, sort, settings, headline, i);
      StoryAt(s, ids, make, stories, id, sort, settings, headline, j);
      if run[i].storyId == run[j].storyId {
        CountedOnce(stories, i, j);
      }
    }
    forall a ensures a in StoryIds(run) <==> a in ids && a in s.articles && a !in already {
      MadeCounts(make, stories, a);
      CountNames(run, a);
    }
  }

  lemma SlideMakerClips(settings: Settings)
    requires Rank.Validated(settings.feed.weights)
    ensures MakesHeadlines(SlideMaker(settings), Clipper(settings))
  {
    forall story ensures MakesHeadline(SlideMaker(settings), Clipper(settings), story) {
    }
  }

  // --- the two requests -----------------------------------------------------------------------

  /**
   What the commit of a create leaves behind: the lookup was made in state `s0`, the commit is in `s`.
   */
  ghost predicate CreatedReads(
      s0: Server, ids: seq<Id>, sort: Option<string>, s: Server, w: Write, settings: Settings, headline: Headline)
    requires Rank.Validated(settings.feed.weights) && w.Creating?
  {
    var (s2, done) := CommitCreate(s, w);
    var deck, id := w.deck, s.nextId;
    && done == Done(id, w.missing)
    && id in s2.carousels && !s2.carousels[id].downloaded && StoredAs(s2.carousels[id].rows, deck)
    && |deck| >= 3 && deck[0].kind == Intro && deck[|deck| - 1].kind == Cta
    && s.selections <= s2.selections
    && IsSelectionOf(s0, ids, {}, deck[1..|deck| - 1], s2.selections[|s.selections|..], id, sort, settings, headline)
    && (forall a :: a in StoryIds(deck) ==>
          a in s0.articles && s0.articles[a].source.cityId == s2.carousels[id].cityId)
    && (forall a :: a in w.missing <==> a in ids && a !in s0.articles)
  }

  lemma CommitReads(
      s0: Server, ids: seq<Id>, s: Server, w: Write, run: seq<SlideWrite>, settings: Settings, headline: Headline)
    requires Rank.Validated(settings.feed.weights) && w.Creating?
    requires |w.deck| >= 3 && w.deck[0].kind == Intro && w.deck[|w.deck| - 1].kind == Cta
    requires w.deck[1..|w.deck| - 1] == run
    requires IsSelectionOf(s0, ids, {}, run, Picks(w.stories, w.sort, s.nextId), s.nextId, w.sort, settings, headline)
    requires forall a :: a in StoryIds(w.deck) ==> a in s0.articles && s0.articles[a].source.cityId == w.city
    requires forall a :: a in w.missing <==> a in ids && a !in s0.articles
    ensures CreatedReads(s0, ids, w.sort, s, w, settings, headline)
  {
    var s2 := CommitCreate(s, w).0;
    assert s2.selections[|s.selections|..] == Picks(w.stories, w.sort, s.nextId);
  }

  lemma OneCityOwnsAll(s: Server, ids: seq<Id>, stories: seq<Feed.Story>, a: Id, settings: Settings)
    requires Rank.Validated(settings.feed.weights) && AllKnown(s, ids, stories, settings)
    requires OneCity(stories).Some? && CountId(stories, a) > 0
    ensures a in s.articles && s.articles[a].source.cityId == OneCity(stories).value
  {
    CountedSomewhere(stories, a);
    var i :| 0 <= i < |stories| && stories[i].row.article.id == a;
    assert IsKnown(s, ids, stories[i], settings);
  }

  lemma ResolvedIsASelection(s: Server, ids: seq<Id>, id: int, sort: Option<string>, settings: Settings)
    requires Rank.Validated(settings.feed.weights) && Keyed(s.articles) && Resolve(s, ids, settings).Ok?
    ensures var Resolved(stories, missing, city) := Resolve(s, ids, settings).value;
            && 1 <= |stories| <= CAROUSEL_MAX_STORIES && AllKnown(s, ids, stories, settings)
            && city == OneCity(stories)
            && (forall a :: CountId(stories, a) <= 1)
            && (forall a :: a in missing <==> a in ids && a !in s.articles)
            && IsSelectionOf(s, ids, {}, AsWrites(StorySlides(stories, settings)), Picks(stories, sort, id),
                             id, sort, settings, Clipper(settings))
  {
    var Resolved(stories, missing, _) := Resolve(s, ids, settings).value;
    ResolvedAreKnown(s, ids, settings);
    forall a ensures CountId(stories, a) == if a in ids && a in s.articles then 1 else 0 {
      ResolvedOnce(s, ids, settings, a);
    }
    ResolvedOnce(s, ids, settings, "");
    MissingIsUnknown(s.articles, Dedupe(ids));
    SlideMakerClips(settings);
    StoriesAreASelection(s, ids, {}, SlideMaker(settings), stories, id, sort, settings, Clipper(settings));
  }

  /**
   A new carousel: an intro, every known story asked for once, best first, a closing slide. It belongs
   to the one city of its stories; the ids nobody knows are reported; each story has its own new row
   in the log. Whatever happened between the lookup and the commit makes no difference.
   */
  lemma CreatedDeckReads(s0: Server, ids: seq<Id>, sort: Option<string>, s: Server, settings: Settings)
    requires Rank.Validated(settings.feed.weights) && Keyed(s0.articles)
    ensures var w := StartCreate(s0, ids, sort, settings);
            w.Creating? ==> CreatedReads(s0, ids, sort, s, w, settings, Clipper(settings))
  {
    if StartCreate(s0, ids, sort, settings).Creating? {
      ResolvedIsASelection(s0, ids, s.nextId, sort, settings);
      var Resolved(stories, missing, city) := Resolve(s0, ids, settings).value;
      BuiltDeckIsFramed(stories, city.value, settings);
      FramedCommitReads(s0, ids, s, StartCreate(s0, ids, sort, settings), AsWrites(StorySlides(stories, settings)),
                        settings, Clipper(settings));
    }
  }

  /** `deck` is `run` between an opening and a closing slide, with the articles of `stories` on it. */
  ghost predicate Framed(deck: seq<SlideWrite>, run: seq<SlideWrite>, stories: seq<Feed.Story>) {
    && |deck| == |stories| + 2
    && deck[0].kind == Intro && deck[|deck| - 1].kind == Cta && deck[1..|deck| - 1] == run
    && forall a :: a in StoryIds(deck) ==> CountId(stories, a) > 0
  }

  lemma BuiltDeckIsFramed(stories: seq<Feed.Story>, city: int, settings: Settings)
    requires Rank.Validated(settings.feed.weights) && 1 <= |stories| <= CAROUSEL_MAX_STORIES
    requires forall a :: CountId(stories, a) <= 1
    ensures Framed(AsWrites(BuildDeck(stories, city, settings)), AsWrites(StorySlides(stories, settings)), stories)
  {
    BuiltDeckReads(stories, city, settings);
    BuiltDeckIsGood(stories, city, settings);
  }

  lemma FramedCommitReads(
      s0: Server, ids: seq<Id>, s: Server, w: Write, run: seq<SlideWrite>, settings: Settings, headline: Headline)
    requires Rank.Validated(settings.feed.weights) && w.Creating? && w.stories != []
    requires AllKnown(s0, ids, w.stories, settings) && OneCity(w.stories) == Some(w.city)
    requires Framed(w.deck, run, w.stories)
    requires IsSelectionOf(s0, ids, {}, run, Picks(w.stories, w.sort, s.nextId), s.nextId, w.sort, settings, headline)
    requires forall a :: a in w.missing <==> a in ids && a !in s0.articles
    ensures CreatedReads(s0, ids, w.sort, s, w, settings, headline)
  {
    forall a | a in StoryIds(w.deck) ensures a in s0.articles && s0.articles[a].source.cityId == w.city {
      OneCityOwnsAll(s0, ids, w.stories, a, settings);
    }
    CommitReads(s0, ids, s, w, run, settings, headline);
  }

  lemma BracketsAround(intro: Slide, middle: seq<Slide>, cta: Slide)
    ensures var deck := AsWrites([intro] + middle + [cta]);
            && deck[0] == AsWrite(intro) && deck[|deck| - 1] == AsWrite(cta)
            && deck[1..|deck| - 1] == AsWrites(middle)
  {
  }

  lemma BuiltDeckReads(stories: seq<Feed.Story>, city: int, settings: Settings)
    requires Rank.Validated(settings.feed.weights) && stories != []
    ensures var deck := AsWrites(BuildDeck(stories, city, settings));
            && |deck| >= 2 && deck[0].kind == Intro && deck[|deck| - 1].kind == Cta
            && deck[1..|deck| - 1] == AsWrites(StorySlides(stories, settings))
  {
    var brackets := BracketSlides(settings.cityName(city), settings.dateLabel(Newest(stories)));
    BracketsAround(brackets.0, StorySlides(stories, settings), brackets.1);
  }

  lemma {:induction false} CountedSomewhere(stories: seq<Feed.Story>, a: Id)
    requires CountId(stories, a) > 0
    ensures exists i :: 0 <= i < |stories| && stories[i].row.article.id == a
  {
    if stories[0].row.article.id != a {
      CountedSomewhere(stories[1..], a);
      var i :| 0 <= i < |stories[1..]| && stories[1..][i].row.article.id == a;
      assert stories[i + 1].row.article.id == a;
    }
  }

  lemma {:induction false} MissingIsUnknown(articles: map<Id, Feed.Row>, ids: seq<Id>)
    ensures forall a :: a in Missing(articles, ids) <==> a in ids && a !in articles
  {
    if ids != [] {
      MissingIsUnknown(articles, ids[1..]);
    }
  }

  /**
   What an add commits: the lookup was made in state `s0`, `before` is the deck it then loaded, `w` is
   the request about to commit.
   */
  ghost predicate AddedReads(
      s0: Server, ids: seq<Id>, before: seq<SlideWrite>, w: Write, settings: Settings, headline: Headline)
    requires Rank.Validated(settings.feed.weights) && w.Ready?
  {
    var cta, n := FirstCta(before), |w.deck| - |before|;
    && n >= 0 && w.deck[..cta] == before[..cta] && w.deck[cta + n..] == before[cta..]
    && IsSelectionOf(s0, ids, StoryIds(before), w.deck[cta..cta + n], Picks(w.added, w.sort, w.id),
                     w.id, w.sort, settings, headline)
    && (forall a :: a in w.missing <==> a in ids && a !in s0.articles)
  }

  /**
   Adding: the slides already there keep their order and their text; the known stories asked for that
   were not on the deck go in front of the first closing slide, best first; only they are recorded.
   */
  lemma AddedDeckReads(s0: Server, got: Write, before: seq<SlideWrite>, settings: Settings)
    requires Rank.Validated(settings.feed.weights) && Keyed(s0.articles) && got.AddGot?
    ensures var resolved := ResolveAdd(s0, got, settings);
            resolved.AddResolved? ==>
              var w := LoadAdd(before, resolved, settings);
              w.Ready? ==>
                w.id == got.id && w.held == got.held && w.sort == got.sort
                && AddedReads(s0, got.ids, before, w, settings, Clipper(settings))
  {
    var resolved := ResolveAdd(s0, got, settings);
    if resolved.AddResolved? {
      NotYetIsASelection(s0, got.id, got.ids, StoryIds(before), got.sort, settings);
      InsertedDeckReads(before, NotYet(resolved.stories, StoryIds(before)), settings);
      MissingIsUnknown(s0.articles, Dedupe(got.ids));
    }
  }

  /**
   The commit of such an add, or of a PUT: the deck goes in, the rows held go out, one selection is
   recorded for each story added, and nothing else changes. Left alone, the deck is what is stored.
   */
  lemma CommitSaveReads(s: Server, w: Write)
    requires w.Ready? && w.id in s.carousels
    ensures var (s2, done) := CommitSave(s, w);
            && done == Done(w.id, w.missing) && w.id in s2.carousels
            && s2.carousels == s.carousels[w.id := s.carousels[w.id].(rows := s2.carousels[w.id].rows)]
            && s2.selections == s.selections + Picks(w.added, w.sort, w.id)
            && s2.articles == s.articles && s2.nextId == s.nextId
            && (w.held == s.carousels[w.id].rows ==> StoredAs(s2.carousels[w.id].rows, w.deck))
  {
    if w.held == s.carousels[w.id].rows {
      CleanSaveStores(s.carousels[w.id].rows, w.held, w.deck, s.nextRow);
    }
  }

  lemma NotYetIsASelection(s: Server, id: int, ids: seq<Id>, already: set<Id>, sort: Option<string>, settings: Settings)
    requires Rank.Validated(settings.feed.weights) && Keyed(s.articles) && Resolve(s, ids, settings).Ok?
    ensures var added := NotYet(Resolve(s, ids, settings).value.stories, already);
            IsSelectionOf(s, ids, already, AsWrites(StorySlides(added, settings)), Picks(added, sort, id),
                          id, sort, settings, Clipper(settings))
  {
    var stories := Resolve(s, ids, settings).value.stories;
    var added := NotYet(stories, already);
    ResolvedAreKnown(s, ids, settings);
    NotYetKeepsOrder(s, ids, stories, already, settings);
    forall a ensures CountId(added, a) == if a in ids && a in s.articles && a !in already then 1 else 0 {
      ResolvedOnce(s, ids, settings, a);
      NotYetCounts(stories, already, a);
    }
    SlideMakerClips(settings);
    StoriesAreASelection(s, ids, already, SlideMaker(settings), added, id, sort, settings, Clipper(settings));
  }

  lemma InsertedDeckReads(before: seq<SlideWrite>, added: seq<Feed.Story>, settings: Settings)
    requires Rank.Validated(settings.feed.weights)
    ensures var deck, cta, n := InsertStories(before, added, settings), FirstCta(before), |added|;
            && |deck| == |before| + n
            && deck[..cta] == before[..cta] && deck[cta + n..] == before[cta..]
            && deck[cta..cta + n] == AsWrites(StorySlides(added, settings))
  {
    StorySlideCounts(added, settings, "");
  }

  // --- what a reader of a deck gets -----------------------------------------------------------

  /**
   Loading a deck: each slide as stored, and beside it what the tables say now about the article behind
   it: outlet, link, category, and the score if the article is rated. A slide of no article, or of one
   that is gone, has an empty card.
   */
  lemma {:induction false} LoadedCards(s: Server, deck: seq<SlideWrite>, settings: Settings, i: nat)
    requires Rank.Validated(settings.feed.weights) && i < |deck|
    ensures var loaded := LoadDeck(s.articles, deck, settings);
            && |loaded| == |deck| && AsWrite(loaded[i]) == deck[i]
            && (deck[i].storyId.Some? && deck[i].storyId.value in s.articles ==>
                  var row := s.articles[deck[i].storyId.value];
                  var levels := Rank.LevelsOf(row.article.dimensions);
                  && loaded[i].card.sourceName == Some(row.source.name)
                  && loaded[i].card.url == Some(row.article.url)
                  && loaded[i].card.category == row.article.category
                  && (levels.None? ==> loaded[i].card.score.None?)
                  && (levels.Some? ==>
                        loaded[i].card.score == Some(Rank.ArticleScore(settings.feed.weights, levels))))
            && (deck[i].storyId.None? || deck[i].storyId.value !in s.articles ==> loaded[i].card == BLANK_CARD)
  {
    WithCardsAt(CardIndex(s.articles, settings), deck, i);
  }

  lemma {:induction false} WithCardsAt(cards: Option<Id> -> Card, deck: seq<SlideWrite>, i: nat)
    requires i < |deck|
    ensures |WithCards(cards, deck)| == |deck|
    ensures AsWrite(WithCards(cards, deck)[i]) == deck[i] && WithCards(cards, deck)[i].card == cards(deck[i].storyId)
  {
    var n := |deck| - 1;
    if i < n {
      WithCardsAt(cards, deck[..n], i);
    } else if n > 0 {
      WithCardsAt(cards, deck[..n], 0);
    }
  }
}

/**
 Whole requests nobody interferes with, through the browser, the endpoints and the tables and back:
 what is saved is what the next reader finds on the canvas.
 */
module RoundTrip {
  import opened Common
  import opened Deck
  import opened SlidesStore
  import opened Carousels
  import opened Editor
  import opened DeckContents
  import Admission
  import Autosave
  import Feed
  import Rank

  ghost function RunPut(w: World, k: nat): World
    requires Configured(w)
    ensures Configured(RunPut(w, k))
  {
    var i := |w.writes|;
    Next(Next(Next(w, Begins(PutRequest(k))), Acts(i, Proceeds)), Acts(i, Commits))
  }

  ghost function RunCreate(w: World, ids: seq<Id>, sort: Option<string>): World
    requires Configured(w)
    ensures Configured(RunCreate(w, ids, sort))
  {
    Next(Next(w, Begins(CreateRequest(ids, sort))), Acts(|w.writes|, Commits))
  }

  ghost function RunAdd(w: World, id: int, ids: seq<Id>, sort: Option<string>, listing: seq<SlideRow>): World
    requires Configured(w)
    ensures Configured(RunAdd(w, id, ids, sort, listing))
  {
    var i := |w.writes|;
    var begun := Next(w, Begins(AddRequest(id, ids, sort)));
    Next(Next(Next(begun, Acts(i, Proceeds)), Acts(i, Loads(listing))), Acts(i, Commits))
  }

  /** Between the two states nothing happened but to carousel `id` and the log. */
  ghost predicate OnlyTouches(w: World, w2: World, id: int) {
    && w2.server.articles == w.server.articles && w2.settings == w.settings
    && w2.tabs == w.tabs && w2.puts == w.puts && w2.replies == w.replies
    && |w2.writes| == |w.writes| + 1 && w2.writes[..|w.writes|] == w.writes
    && (forall other :: other != id ==>
          && (other in w2.server.carousels <==> other in w.server.carousels)
          && (other in w.server.carousels ==> w2.server.carousels[other] == w.server.carousels[other]))
  }

  /** A PUT left alone stores exactly its body, and answers so; it picks nothing. */
  lemma PutIsStored(w: World, k: nat)
    requires Ordered(w) && k < |w.puts| && WellFormed(w.puts[k].body) && w.puts[k].id in w.server.carousels
    requires StoryIds(w.puts[k].body) <= w.server.articles.Keys
    ensures var w2, id := RunPut(w, k), w.puts[k].id;
            && OnlyTouches(w, w2, id) && w2.writes[|w.writes|] == Done(id, [])
            && w2.server.selections == w.server.selections
            && id in w2.server.carousels && StoredAs(w2.server.carousels[id].rows, w.puts[k].body)
            && w2.server.carousels[id].cityId == w.server.carousels[id].cityId
            && w2.server.carousels[id].downloaded == w.server.carousels[id].downloaded
  {
    var i, id, body := |w.writes|, w.puts[k].id, w.puts[k].body;
    var begun := Next(w, Begins(PutRequest(k)));
    assert begun.writes[i] == PutGot(id, w.server.carousels[id].rows, body);
    var ready := Next(begun, Acts(i, Proceeds));
    assert ready.writes[i] == Ready(id, w.server.carousels[id].rows, body, [], [], None);
    CleanSaveStores(w.server.carousels[id].rows, w.server.carousels[id].rows, body, w.server.nextRow);
    assert w.server.selections + Picks([], None, id) == w.server.selections;
  }

  /** `slides` is a loaded `deck`: as stored, every text cut to the box. */
  ghost predicate ShowsDeck(slides: seq<Slide>, deck: seq<SlideWrite>) {
    && |slides| == |deck|
    && forall j :: 0 <= j < |deck| ==> AsWrite(slides[j]) == deck[j].(text := ClipText(deck[j].text))
  }

  /** Whoever opens a stored deck has it on the canvas, slide for slide, and edits it under its own id. */
  lemma StoredDeckIsShown(
      w: World, id: int, deck: seq<SlideWrite>, listing: seq<SlideRow>, t: nat, ok: bool)
    requires Configured(w) && id in w.server.carousels && StoredAs(w.server.carousels[id].rows, deck)
    requires IsListing(w.server.carousels[id].rows, listing) && t < |w.tabs|
    ensures var read := Next(w, Reads(id, listing));
            && |read.replies| == |w.replies| + 1 && read.server == w.server
            && var reply := read.replies[|w.replies|];
            && reply.id == id && AsWrites(reply.slides) == deck
            && var tab := Next(read, InTab(t, Autosave.Loaded(id, reply.slides, ok))).tabs[t];
            && tab.carouselId == Some(id) && ShowsDeck(tab.deck, deck) && !tab.timer
  {
    StoredDeckReloads(w.server.carousels[id].rows, deck, listing);
    LoadReturnsTheDeck(w.server.articles, deck, w.settings);
    var slides := LoadDeck(w.server.articles, deck, w.settings);
    var read := Next(w, Reads(id, listing));
    assert read.replies[|w.replies|] == Reply(id, slides) && Reply(id, slides) in read.replies;
    assert forall j :: 0 <= j < |deck| ==> AsWrite(slides[j]) == AsWrites(slides)[j];
  }

  /** The deck of a tab, saved and opened again, is that deck. */
  lemma SavedDeckComesBack(w: World, k: nat, d: seq<Slide>, listing: seq<SlideRow>, t: nat, ok: bool)
    requires Ordered(w) && k < |w.puts| && w.puts[k].body == AsWrites(d) && CleanAll(d) == d
    requires WellFormed(w.puts[k].body) && w.puts[k].id in w.server.carousels
    requires StoryIds(w.puts[k].body) <= w.server.articles.Keys
    requires IsListing(SlideTable(RunPut(w, k).server, w.puts[k].id), listing) && t < |w.tabs|
    ensures var id, read := w.puts[k].id, Next(RunPut(w, k), Reads(w.puts[k].id, listing));
            && |read.replies| > 0
            && var slides := read.replies[|read.replies| - 1].slides;
               var tab := Next(read, InTab(t, Autosave.Loaded(id, slides, ok))).tabs[t];
               tab.carouselId == Some(id) && AsWrites(tab.deck) == AsWrites(d)
  {
    PutIsStored(w, k);
    StoredDeckIsShown(RunPut(w, k), w.puts[k].id, AsWrites(d), listing, t, ok);
    assert forall j :: 0 <= j < |d| ==> CleanAll(d)[j] == d[j];
  }

  /** A create left alone makes a carousel of the next id that holds the deck it built, if it may go ahead. */
  lemma CreateIsStored(w: World, ids: seq<Id>, sort: Option<string>)
    requires Ordered(w)
    ensures var known := Admission.Known(w.server.articles, ids);
            var accepted := IsSelection(ids) && |Admission.Asked(ids)| <= CAROUSEL_MAX_STORIES && known != {}
                            && Admission.InOneCity(w.server.articles, known);
            var w2, id, i := RunCreate(w, ids, sort), w.server.nextId, |w.writes|;
            && OnlyTouches(w, w2, id) && id !in w.server.carousels
            && (accepted <==> w2.writes[i].Done?) && (accepted <==> id in w2.server.carousels)
            && (accepted ==> w2.writes[i].id == id
                             && StoredAs(w2.server.carousels[id].rows,
                                         StartCreate(w.server, ids, sort, w.settings).deck))
            && (!accepted ==> w2.writes[i].Refused? && w2.server == w.server)
  {
    var i := |w.writes|;
    Admission.CreateGoesAheadIff(w.server, ids, sort, w.settings);
    var begun := Next(w, Begins(CreateRequest(ids, sort)));
    var start := StartCreate(w.server, ids, sort, w.settings);
    assert begun.writes[i] == start;
    if start.Creating? {
      assert StoredAs(SetOf(NewRows(start.deck, w.server.nextRow)), start.deck);
    }
  }

  // --- add ------------------------------------------------------------------------------------

  /** What the segments before the commit make of an add, when the carousel holds `deck`. */
  function Prepared(s: Server, id: int, ids: seq<Id>, sort: Option<string>, deck: seq<SlideWrite>, settings: Settings)
    : Write
    requires id in s.carousels && Rank.Validated(settings.feed.weights)
  {
    var got := StartAdd(s, id, ids, sort);
    if !got.AddGot? then got
    else
      var resolved := ResolveAdd(s, got, settings);
      if !resolved.AddResolved? then resolved else LoadAdd(deck, resolved, settings)
  }

  lemma ReplaceLast(writes: seq<Write>, x: Write, y: Write)
    ensures (writes + [x])[|writes| := y] == writes + [y]
  {
  }

  lemma AddIsPrepared(
      w: World, id: int, ids: seq<Id>, sort: Option<string>, deck: seq<SlideWrite>, listing: seq<SlideRow>)
    requires Configured(w) && id in w.server.carousels && Slides(listing) == deck
    requires IsListing(w.server.carousels[id].rows, listing)
    ensures var i := |w.writes|;
            Next(Next(Next(w, Begins(AddRequest(id, ids, sort))), Acts(i, Proceeds)), Acts(i, Loads(listing)))
            == w.(writes := w.writes + [Prepared(w.server, id, ids, sort, deck, w.settings)])
  {
    var i, got := |w.writes|, StartAdd(w.server, id, ids, sort);
    var resolved := if got.AddGot? then ResolveAdd(w.server, got, w.settings) else got;
    hide StartAdd, ResolveAdd, LoadAdd;
    AddKeepsId(w.server, id, ids, sort, w.settings);
    ReplaceLast(w.writes, got, resolved);
    ReplaceLast(w.writes, resolved, Prepared(w.server, id, ids, sort, deck, w.settings));
  }

  lemma AddKeepsId(s: Server, id: int, ids: seq<Id>, sort: Option<string>, settings: Settings)
    requires id in s.carousels && Rank.Validated(settings.feed.weights)
    ensures var got := StartAdd(s, id, ids, sort);
            && (got.Refused? || (got.AddGot? && got.id == id && got.held == s.carousels[id].rows))
            && (got.AddGot? ==>
                  var resolved := ResolveAdd(s, got, settings);
                  resolved.Refused? || (resolved.AddResolved? && resolved.id == id && resolved.held == got.held))
  {
  }

  /** An add is held up by nothing but its own conditions; then it is ready to replace the rows it loaded. */
  lemma PreparedIff(
      s: Server, id: int, ids: seq<Id>, sort: Option<string>, deck: seq<SlideWrite>, settings: Settings)
    requires id in s.carousels && Keyed(s.articles) && Rank.Validated(settings.feed.weights)
    ensures var known, ready := Admission.Known(s.articles, ids), Prepared(s, id, ids, sort, deck, settings);
            && (ready.Ready? <==>
                  && IsSelection(ids) && |Admission.Asked(ids)| <= CAROUSEL_MAX_STORIES && known != {}
                  && |Admission.StoryPlaces(deck)| + |known - StoryIds(deck)| <= CAROUSEL_MAX_STORIES)
            && (!ready.Ready? ==> ready.Refused?)
            && (ready.Ready? ==> ready.id == id && ready.held == s.carousels[id].rows)
  {
    var got := StartAdd(s, id, ids, sort);
    Admission.AddStartsIff(s, id, ids, sort);
    AddKeepsId(s, id, ids, sort, settings);
    if got.AddGot? {
      Admission.AddGoesAheadIff(s, got, deck, settings);
    }
  }

  /** The commit of the only request begun since `w`. */
  lemma CommitsAlone(w: World, id: int, ready: Write)
    requires Configured(w) && id in w.server.carousels
    requires ready.Refused? || (ready.Ready? && ready.id == id && ready.held == w.server.carousels[id].rows)
    ensures var w2, i := Next(w.(writes := w.writes + [ready]), Acts(|w.writes|, Commits)), |w.writes|;
            && OnlyTouches(w, w2, id) && id in w2.server.carousels
            && (ready.Refused? ==> w2.writes[i] == ready && w2.server == w.server)
            && (ready.Ready? ==>
                  w2.writes[i] == Done(id, ready.missing) && StoredAs(w2.server.carousels[id].rows, ready.deck))
  {
    if ready.Ready? {
      CleanSaveStores(w.server.carousels[id].rows, ready.held, ready.deck, w.server.nextRow);
    }
  }

  /** An add left alone stores the deck it was shown with the new stories spliced in, if it may go ahead. */
  lemma AddIsStored(
      w: World, id: int, ids: seq<Id>, sort: Option<string>, deck: seq<SlideWrite>, listing: seq<SlideRow>)
    requires Ordered(w) && id in w.server.carousels && StoredAs(w.server.carousels[id].rows, deck)
    requires IsListing(w.server.carousels[id].rows, listing)
    ensures var known := Admission.Known(w.server.articles, ids);
            var accepted := IsSelection(ids) && |Admission.Asked(ids)| <= CAROUSEL_MAX_STORIES && known != {}
                            && |Admission.StoryPlaces(deck)| + |known - StoryIds(deck)| <= CAROUSEL_MAX_STORIES;
            var w2, i := RunAdd(w, id, ids, sort, listing), |w.writes|;
            && OnlyTouches(w, w2, id) && id in w2.server.carousels
            && (accepted <==> w2.writes[i].Done?)
            && (!accepted ==> w2.writes[i].Refused? && w2.server == w.server)
            && (accepted ==>
                  var ready := Prepared(w.server, id, ids, sort, deck, w.settings);
                  ready.Ready? && StoredAs(w2.server.carousels[id].rows, ready.deck))
  {
    StoredDeckReloads(w.server.carousels[id].rows, deck, listing);
    AddIsPrepared(w, id, ids, sort, deck, listing);
    PreparedIff(w.server, id, ids, sort, deck, w.settings);
    hide Prepared, Next, OnlyTouches;
    CommitsAlone(w, id, Prepared(w.server, id, ids, sort, deck, w.settings));
  }

  // --- ratings and weights --------------------------------------------------------------------

  /**
   An article rated after its deck was saved, and weights changed after that: whoever opens the deck sees
   the rating and the score under the new weights, on the same slides.
   */
  lemma RatingsReachSavedDecks(
      w: World, id: int, deck: seq<SlideWrite>, listing: seq<SlideRow>, j: nat,
      category: Option<string>, dimensions: Rank.Columns, settings: Settings)
    requires Configured(w) && Rank.Validated(settings.feed.weights) && Rank.IsRated(dimensions)
    requires id in w.server.carousels && StoredAs(w.server.carousels[id].rows, deck)
    requires IsListing(w.server.carousels[id].rows, listing)
    requires j < |deck| && deck[j].storyId.Some? && deck[j].storyId.value in w.server.articles
    ensures var rated := Next(w, ArticleRated(deck[j].storyId.value, category, dimensions));
            var read := Next(Next(rated, SettingsChange(settings)), Reads(id, listing));
            && |read.replies| == |w.replies| + 1
            && var reply := read.replies[|w.replies|];
            && reply.id == id && AsWrites(reply.slides) == deck
            && reply.slides[j].card.category == category
            && reply.slides[j].card.score
               == Some(Rank.ArticleScore(settings.feed.weights, Rank.LevelsOf(dimensions)))
  {
    var a := deck[j].storyId.value;
    var rated := Next(w, ArticleRated(a, category, dimensions));
    var changed := Next(rated, SettingsChange(settings));
    StoredDeckReloads(w.server.carousels[id].rows, deck, listing);
    LoadReturnsTheDeck(changed.server.articles, deck, settings);
    LoadedCards(changed.server, deck, settings, j);
  }

  // --- articles -------------------------------------------------------------------------------

  /** The two rows tell the same story: only the classifier's verdict may differ. */
  predicate SameStory(r: Feed.Row, r2: Feed.Row) {
    && r2.source == r.source && r2.article.id == r.article.id
    && r2.article.title == r.article.title && r2.article.url == r.article.url
    && r2.article.publishedAt == r.article.publishedAt && r2.article.fetchedAt == r.article.fetchedAt
  }

  lemma StepKeepsStories(w: World, e: Event, a: Id)
    requires Configured(w) && a in w.server.articles
    ensures a in Next(w, e).server.articles && SameStory(w.server.articles[a], Next(w, e).server.articles[a])
  {
    if e.Acts? && e.i < |w.writes| {
      RequestsKeepArticles(w.server, w.writes[e.i], e.action, w.settings);
    }
    hide Advance;
  }

  lemma RequestsKeepArticles(s: Server, w: Write, action: Action, settings: Settings)
    requires Rank.Validated(settings.feed.weights)
    ensures Advance(s, w, action, settings).0.articles == s.articles
  {
  }

  lemma {:induction false} StoriesStay(w: World, events: seq<Event>, a: Id)
    requires Configured(w) && a in w.server.articles
    ensures a in Run(w, events).server.articles
    ensures SameStory(w.server.articles[a], Run(w, events).server.articles[a])
  {
    if events != [] {
      var n := |events| - 1;
      StoriesStay(w, events[..n], a);
      StepKeepsStories(Run(w, events[..n]), events[n], a);
    }
  }

  /** A story that has arrived can be picked from then on, and stays the story the table had under its id first. */
  lemma ArrivedStoriesStay(w: World, row: Feed.Row, events: seq<Event>)
    requires Configured(w)
    ensures var a, later := row.article.id, Run(Next(w, ArticleArrives(row)), events).server.articles;
            && a in later
            && (a !in w.server.articles ==> SameStory(row, later[a]))
            && (a in w.server.articles ==> SameStory(w.server.articles[a], later[a]))
  {
    StoriesStay(Next(w, ArticleArrives(row)), events, row.article.id);
  }
}

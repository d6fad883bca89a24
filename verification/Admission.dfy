/**
 Which carousel requests get through, and how the others are refused, in terms of the ids asked for
 and the tables alone.
 */
module Admission {
  import opened Common
  import opened Order
  import opened Deck
  import opened Carousels
  import opened DeckContents
  import Feed
  import Rank

  function Asked(ids: seq<Id>): set<Id> {
    set a | a in ids
  }

  function Known(articles: map<Id, Feed.Row>, ids: seq<Id>): set<Id> {
    set a | a in ids && a in articles
  }

  ghost predicate InOneCity(articles: map<Id, Feed.Row>, known: set<Id>)
    requires known <= articles.Keys
  {
    forall a, b :: a in known && b in known ==> articles[a].source.cityId == articles[b].source.cityId
  }

  // --- the lookup -----------------------------------------------------------------------------

  lemma {:induction false} DistinctSize(xs: seq<Id>)
    requires forall i, j :: 0 <= i < j < |xs| ==> xs[i] != xs[j]
    ensures |Asked(xs)| == |xs|
  {
    if xs != [] {
      var n := |xs| - 1;
      DistinctSize(xs[..n]);
      assert xs == xs[..n] + [xs[n]];
      assert Asked(xs) == Asked(xs[..n]) + {xs[n]};
    }
  }

  lemma DedupeSize(ids: seq<Id>)
    ensures |Dedupe(ids)| == |Asked(ids)|
  {
    DistinctSize(Dedupe(ids));
    assert Asked(Dedupe(ids)) == Asked(ids);
  }

  function IdsOf(stories: seq<Feed.Story>): set<Id> {
    set story | story in stories :: story.row.article.id
  }

  lemma {:induction false} OnceEach(stories: seq<Feed.Story>)
    requires forall a :: CountId(stories, a) <= 1
    ensures |IdsOf(stories)| == |stories|
    ensures forall a :: a in IdsOf(stories) <==> CountId(stories, a) > 0
  {
    if stories != [] {
      var first, rest := stories[0].row.article.id, stories[1..];
      assert CountId(stories, first) == 1 + CountId(rest, first);
      forall a ensures CountId(rest, a) <= 1 {
        assert CountId(rest, a) <= CountId(stories, a);
      }
      OnceEach(rest);
      assert stories == [stories[0]] + rest;
      assert IdsOf(stories) == {first} + IdsOf(rest);
    }
  }

  /** The stories a lookup finds are the known ids, each once. */
  lemma LookupFindsTheKnown(s: Server, ids: seq<Id>, settings: Settings)
    requires Rank.Validated(settings.feed.weights) && Keyed(s.articles)
    ensures var r := Resolve(s, ids, settings);
            && (r == Err(TooManyStories) <==> |Asked(ids)| > CAROUSEL_MAX_STORIES)
            && (r == Err(NoKnownStories) <==> |Asked(ids)| <= CAROUSEL_MAX_STORIES && Known(s.articles, ids) == {})
            && (r.Ok? <==> |Asked(ids)| <= CAROUSEL_MAX_STORIES && Known(s.articles, ids) != {})
            && (r.Ok? ==> IdsOf(r.value.stories) == Known(s.articles, ids))
  {
    DedupeSize(ids);
    var wanted := Dedupe(ids);
    var projected := Project(s.articles, wanted, settings);
    var stories := Sort(Feed.BestFirst, projected);
    forall a ensures CountId(stories, a) == if a in Known(s.articles, ids) then 1 else 0 {
      ProjectedOnce(s.articles, wanted, settings, a);
      SortKeepsCount(projected, a);
    }
    OnceEach(stories);
    assert IdsOf(stories) == Known(s.articles, ids);
    assert stories == [] <==> IdsOf(stories) == {} by {
      if stories != [] {
        assert stories[0].row.article.id in IdsOf(stories);
      }
    }
  }

  /** A lookup names a city exactly when the known ids share it. */
  lemma LookupCity(s: Server, ids: seq<Id>, settings: Settings)
    requires Rank.Validated(settings.feed.weights) && Keyed(s.articles) && Resolve(s, ids, settings).Ok?
    ensures Resolve(s, ids, settings).value.city.Some? <==> InOneCity(s.articles, Known(s.articles, ids))
  {
    var known := Known(s.articles, ids);
    var stories := Resolve(s, ids, settings).value.stories;
    LookupFindsTheKnown(s, ids, settings);
    ResolvedAreKnown(s, ids, settings);
    assert stories != [];
    forall i | 0 <= i < |stories|
      ensures var a := stories[i].row.article.id;
              a in known && stories[i].row.source.cityId == s.articles[a].source.cityId
    {
      assert IsKnown(s, ids, stories[i], settings);
    }
    forall a | a in known ensures exists i :: 0 <= i < |stories| && stories[i].row.article.id == a {
      assert a in IdsOf(stories);
    }
  }

  // --- create ---------------------------------------------------------------------------------

  /**
   Create goes ahead exactly when the request is well formed, asks for at most eight different stories,
   knows at least one of them, and the ones it knows are from one city. Ids nobody knows do not stand in
   the way. The first condition that fails decides the refusal.
   */
  lemma CreateGoesAheadIff(s: Server, ids: seq<Id>, sort: Option<string>, settings: Settings)
    requires Rank.Validated(settings.feed.weights) && Keyed(s.articles)
    ensures var w, known := StartCreate(s, ids, sort, settings), Known(s.articles, ids);
            var few := |Asked(ids)| <= CAROUSEL_MAX_STORIES;
            && (w.Creating? <==> IsSelection(ids) && few && known != {} && InOneCity(s.articles, known))
            && (w == Refused(Unprocessable) <==> !IsSelection(ids))
            && (w == Refused(TooManyStories) <==> IsSelection(ids) && !few)
            && (w == Refused(NoKnownStories) <==> IsSelection(ids) && few && known == {})
            && (w == Refused(SpansCities) <==> IsSelection(ids) && few && known != {} && !InOneCity(s.articles, known))
  {
    LookupFindsTheKnown(s, ids, settings);
    if Resolve(s, ids, settings).Ok? {
      LookupCity(s, ids, settings);
      assert Resolve(s, ids, settings).value.stories != [];
    }
  }

  ghost predicate IsNewest(articles: map<Id, Feed.Row>, known: set<Id>, a: Id, settings: Settings)
    requires known <= articles.Keys && Rank.Validated(settings.feed.weights)
  {
    a in known
    && forall b :: b in known ==>
         Feed.Project(articles[b], settings.feed).publishedAt <= Feed.Project(articles[a], settings.feed).publishedAt
  }

  lemma {:induction false} NewestIsTheLatest(stories: seq<Feed.Story>) returns (i: nat)
    requires stories != []
    ensures i < |stories| && Newest(stories) == stories[i].publishedAt
    ensures forall j :: 0 <= j < |stories| ==> stories[j].publishedAt <= stories[i].publishedAt
  {
    if |stories| == 1 || stories[0].publishedAt > Newest(stories[1..]) {
      i := 0;
      if |stories| > 1 {
        var later := NewestIsTheLatest(stories[1..]);
        forall j | 0 <= j < |stories| ensures stories[j].publishedAt <= stories[0].publishedAt {
          assert j > 0 ==> stories[j] == stories[1..][j - 1];
        }
      }
    } else {
      var later := NewestIsTheLatest(stories[1..]);
      i := later + 1;
      forall j | 0 <= j < |stories| ensures stories[j].publishedAt <= stories[i].publishedAt {
        assert j > 0 ==> stories[j] == stories[1..][j - 1];
      }
    }
  }

  /**
   The bracket slides of a new deck: the intro carries the city of the stories and the date of the
   newest of them, the closing slide the city again.
   */
  lemma BracketsNameTheCityAndTheNewest(s: Server, ids: seq<Id>, sort: Option<string>, settings: Settings)
    returns (newest: Id)
    requires Rank.Validated(settings.feed.weights) && Keyed(s.articles)
    requires StartCreate(s, ids, sort, settings).Creating?
    ensures IsNewest(s.articles, Known(s.articles, ids), newest, settings)
    ensures var deck := StartCreate(s, ids, sort, settings).deck;
            var name := settings.cityName(s.articles[newest].source.cityId);
            var place := if name == "" then "your city" else name;
            var date := settings.dateLabel(Feed.Project(s.articles[newest], settings.feed).publishedAt);
            && deck != []
            && deck[0] == SlideWrite(Intro, None, "Top news\n" + place + "\n" + date, false)
            && deck[|deck| - 1] == SlideWrite(Cta, None, "Follow for daily\n" + place + " news", false)
  {
    var known := Known(s.articles, ids);
    var Resolved(stories, _, city) := Resolve(s, ids, settings).value;
    CreateGoesAheadIff(s, ids, sort, settings);
    LookupFindsTheKnown(s, ids, settings);
    ResolvedAreKnown(s, ids, settings);
    var i := NewestIsTheLatest(stories);
    newest := stories[i].row.article.id;
    assert IsKnown(s, ids, stories[i], settings);
    forall b | b in known
      ensures Feed.Project(s.articles[b], settings.feed).publishedAt <= stories[i].publishedAt
    {
      assert b in IdsOf(stories);
      var j :| 0 <= j < |stories| && stories[j].row.article.id == b;
      assert IsKnown(s, ids, stories[j], settings);
    }
    assert IsKnown(s, ids, stories[0], settings);
    BracketTexts(stories, city.value, settings);
  }

  lemma BracketTexts(stories: seq<Feed.Story>, city: int, settings: Settings)
    requires Rank.Validated(settings.feed.weights) && stories != []
    ensures var deck := AsWrites(BuildDeck(stories, city, settings));
            var brackets := BracketSlides(settings.cityName(city), settings.dateLabel(Newest(stories)));
            deck != [] && deck[0] == AsWrite(brackets.0) && deck[|deck| - 1] == AsWrite(brackets.1)
  {
  }

  // --- the ids nobody knows -------------------------------------------------------------------

  /** Where `a` first stands in `ids`, counted from 0; the length of `ids` if nowhere. */
  function FirstPlace(ids: seq<Id>, a: Id): nat {
    if ids == [] || ids[0] == a then 0 else 1 + FirstPlace(ids[1..], a)
  }

  ghost predicate InFirstSeenOrder(ids: seq<Id>, xs: seq<Id>) {
    forall i, j :: 0 <= i < j < |xs| ==> FirstPlace(ids, xs[i]) < FirstPlace(ids, xs[j])
  }

  lemma {:induction false} FirstPlaceOfMore(ids: seq<Id>, last: Id, a: Id)
    ensures FirstPlace(ids, a) <= |ids| && (a in ids <==> FirstPlace(ids, a) < |ids|)
    ensures a in ids || a == last ==> FirstPlace(ids + [last], a) == FirstPlace(ids, a)
  {
    if ids != [] {
      FirstPlaceOfMore(ids[1..], last, a);
      assert (ids + [last])[1..] == ids[1..] + [last];
    }
  }

  lemma {:induction false} DedupeOrder(ids: seq<Id>)
    ensures InFirstSeenOrder(ids, Dedupe(ids))
  {
    if ids != [] {
      var n := |ids| - 1;
      var before, last := Dedupe(ids[..n]), ids[n];
      DedupeOrder(ids[..n]);
      assert ids == ids[..n] + [last];
      forall a | a in ids ensures FirstPlace(ids, a) == FirstPlace(ids[..n], a) {
        FirstPlaceOfMore(ids[..n], last, a);
      }
      forall i, j | 0 <= i < j < |Dedupe(ids)|
        ensures FirstPlace(ids, Dedupe(ids)[i]) < FirstPlace(ids, Dedupe(ids)[j])
      {
        assert Dedupe(ids)[i] == before[i] && before[i] in ids[..n];
        FirstPlaceOfMore(ids[..n], last, before[i]);
        if j < |before| {
          assert before[j] in ids[..n];
        } else {
          FirstPlaceOfMore(ids[..n], last, last);
        }
      }
    }
  }

  lemma {:induction false} MissingKeepsOrder(articles: map<Id, Feed.Row>, ids: seq<Id>, xs: seq<Id>)
    requires InFirstSeenOrder(ids, xs)
    ensures InFirstSeenOrder(ids, Missing(articles, xs))
    ensures forall a :: a in Missing(articles, xs) ==> a in xs
  {
    if xs != [] {
      MissingKeepsOrder(articles, ids, xs[1..]);
      var rest := Missing(articles, xs[1..]);
      forall a | a in rest ensures FirstPlace(ids, xs[0]) < FirstPlace(ids, a) {
        var j :| 0 <= j < |xs[1..]| && xs[1..][j] == a;
        assert xs[j + 1] == a;
      }
    }
  }

  /** The ids a create reports as missing: those with no article, each once, in the order first asked for. */
  lemma MissingIsReportedInOrder(s: Server, ids: seq<Id>, sort: Option<string>, settings: Settings)
    requires Rank.Validated(settings.feed.weights)
    ensures var w := StartCreate(s, ids, sort, settings);
            w.Creating? ==>
              Asked(w.missing) == Asked(ids) - Known(s.articles, ids) && InFirstSeenOrder(ids, w.missing)
  {
    MissingIsUnknown(s.articles, Dedupe(ids));
    DedupeOrder(ids);
    MissingKeepsOrder(s.articles, ids, Dedupe(ids));
  }

  // --- add ------------------------------------------------------------------------------------

  function StoryPlaces(deck: seq<SlideWrite>): set<int> {
    set i | 0 <= i < |deck| && deck[i].kind == Story
  }

  lemma {:induction false} CountsStoryPlaces(deck: seq<SlideWrite>)
    ensures |StoryPlaces(deck)| == Count(deck, IsStory())
  {
    if deck != [] {
      var n := |deck| - 1;
      CountsStoryPlaces(deck[..n]);
      assert deck == deck[..n] + [deck[n]];
      CountAppend(deck[..n], [deck[n]], IsStory());
      CountOne(deck[n], IsStory());
      assert StoryPlaces(deck) == StoryPlaces(deck[..n]) + if deck[n].kind == Story then {n} else {};
    }
  }

  lemma {:induction false} NotYetIds(stories: seq<Feed.Story>, already: set<Id>)
    requires forall a :: CountId(stories, a) <= 1
    ensures |NotYet(stories, already)| == |IdsOf(stories) - already|
  {
    var added := NotYet(stories, already);
    forall a ensures CountId(added, a) == if a in already then 0 else CountId(stories, a) {
      NotYetCounts(stories, already, a);
    }
    OnceEach(added);
    OnceEach(stories);
    assert IdsOf(added) == IdsOf(stories) - already;
  }

  lemma AddStartsIff(s: Server, id: int, ids: seq<Id>, sort: Option<string>)
    ensures var w := StartAdd(s, id, ids, sort);
            && (w.AddGot? <==> IsSelection(ids) && id in s.carousels)
            && (w.AddGot? ==> w.id == id && w.ids == ids && w.held == s.carousels[id].rows && w.sort == sort)
            && (w == Refused(Unprocessable) <==> !IsSelection(ids))
            && (w == Refused(NoSuchCarousel) <==> IsSelection(ids) && id !in s.carousels)
  {
  }

  /**
   An add goes ahead exactly when it asks for at most eight different stories, knows at least one, and
   the known ones that are not on the deck fit beside the story slides already there. Stories of any
   city may be added.
   */
  lemma AddGoesAheadIff(s: Server, got: Write, before: seq<SlideWrite>, settings: Settings)
    requires Rank.Validated(settings.feed.weights) && Keyed(s.articles) && got.AddGot?
    ensures var w, known := ResolveAdd(s, got, settings), Known(s.articles, got.ids);
            var few := |Asked(got.ids)| <= CAROUSEL_MAX_STORIES;
            && (w.AddResolved? <==> few && known != {})
            && (w == Refused(TooManyStories) <==> !few)
            && (w == Refused(NoKnownStories) <==> few && known == {})
            && (w.AddResolved? ==>
                  var full := |StoryPlaces(before)| + |known - StoryIds(before)| > CAROUSEL_MAX_STORIES;
                  && (LoadAdd(before, w, settings).Ready? <==> !full)
                  && (LoadAdd(before, w, settings) == Refused(DeckFull) <==> full))
  {
    LookupFindsTheKnown(s, got.ids, settings);
    var w := ResolveAdd(s, got, settings);
    if w.AddResolved? {
      forall a ensures CountId(w.stories, a) <= 1 {
        ResolvedOnce(s, got.ids, settings, a);
      }
      NotYetIds(w.stories, StoryIds(before));
      CountsStoryPlaces(before);
    }
  }

  // --- PUT ------------------------------------------------------------------------------------

  /** A PUT goes ahead exactly when its body is well formed, the carousel is there and its stories exist. */
  lemma PutGoesAheadIff(s: Server, id: int, body: seq<SlideWrite>, s': Server)
    ensures var got := StartPut(s, id, body);
            && (got.PutGot? <==> WellFormed(body) && id in s.carousels)
            && (got == Refused(Unprocessable) <==> !WellFormed(body))
            && (got == Refused(NoSuchCarousel) <==> WellFormed(body) && id !in s.carousels)
            && (got.PutGot? ==>
                  var w := CheckPut(s', got);
                  var known := forall i :: 0 <= i < |body| && body[i].storyId.Some? ==>
                                 body[i].storyId.value in s'.articles;
                  && (w == Ready(id, s.carousels[id].rows, body, [], [], None) <==> known)
                  && (w == Refused(UnknownStory) <==> !known))
  {
  }

  /** A commit that finds its carousel deleted is undone; any other one goes through. */
  lemma CommitGoesAheadIff(s: Server, w: Write)
    requires w.Ready?
    ensures CommitSave(s, w).1.Done? <==> w.id in s.carousels
    ensures w.id !in s.carousels ==> CommitSave(s, w) == (s, Refused(Vanished))
  {
  }

  // --- delete and zip -------------------------------------------------------------------------

  /** A delete takes one carousel away and unlinks its picks; no pick is lost, no other carousel touched. */
  lemma DeleteReads(s: Server, id: int)
    ensures id !in s.carousels ==> Delete(s, id) == (s, Some(NoSuchCarousel))
    ensures id in s.carousels ==>
              var (s2, error) := Delete(s, id);
              && error.None?
              && s2.carousels.Keys == s.carousels.Keys - {id}
              && (forall other :: other in s2.carousels ==> s2.carousels[other] == s.carousels[other])
              && s2.articles == s.articles && s2.nextId == s.nextId && |s2.selections| == |s.selections|
              && forall i :: 0 <= i < |s.selections| ==>
                   && (s.selections[i].carouselId == Some(id) ==> s2.selections[i].carouselId == None)
                   && (s.selections[i].carouselId != Some(id) ==> s2.selections[i] == s.selections[i])
                   && s2.selections[i].(carouselId := None) == s.selections[i].(carouselId := None)
  {
  }

  /** A download is stamped exactly when the archive could be built, and stamps nothing else. */
  lemma ZipStampsIff(s: Server, id: int, images: seq<Image>, settings: Settings)
    ensures var s2 := Zip(s, id, images, settings);
            && s2.carousels.Keys == s.carousels.Keys && s2.selections == s.selections && s2.articles == s.articles
            && (forall other :: other in s.carousels ==>
                  && s2.carousels[other].rows == s.carousels[other].rows
                  && s2.carousels[other].cityId == s.carousels[other].cityId
                  && (s2.carousels[other].downloaded <==>
                        || s.carousels[other].downloaded
                        || (other == id && 1 <= |images| <= MAX_SLIDES && None !in images
                            && ZipSize(images) <= settings.zipMaxTotalBytes)))
  {
  }

  lemma {:induction false} ZipSizeAdds(images: seq<Image>, size: nat, more: seq<Image>)
    ensures ZipSize(images + [Some(size)] + more) == ZipSize(images) + size + ZipSize(more)
    decreases |more|
  {
    var all := images + [Some(size)] + more;
    if more == [] {
      assert all[..|all| - 1] == images;
    } else {
      assert all[..|all| - 1] == images + [Some(size)] + more[..|more| - 1];
      ZipSizeAdds(images, size, more[..|more| - 1]);
    }
  }
}

/**
 The carousel endpoints (app/api/v1/endpoints/carousels.py) and the story lookup behind them
 (`resolve_stories`, `story_slide`, `bracket_slides`, `save_deck`, `load_deck` of
 app/services/carousel.py).

 A request that writes is taken apart where it awaits the database: what it has read so far is a
 `Write`, and only its commit changes the tables. Two such requests may overlap.
 */
module Carousels {
  import opened Common
  import opened Deck
  import opened Order
  import Feed
  import Rank
  import Text

  datatype Selection = Selection(
    articleId: Id,
    engagement: Option<real>,
    score: real,
    scoreVersion: Option<int>,
    sort: Option<string>,
    carouselId: Option<int>)

  /** A carousels row with its rows in carousel_slides. */
  datatype Carousel = Carousel(cityId: int, rows: set<SlideRow>, downloaded: bool)

  datatype Server = Server(
    articles: map<Id, Feed.Row>,
    carousels: map<int, Carousel>,
    nextId: nat,
    nextRow: nat,
    selections: seq<Selection>)

  datatype Settings = Settings(
    feed: Feed.Settings,
    classes: Text.CharClasses,
    cityName: int -> string,
    dateLabel: int -> string,
    zipMaxTotalBytes: nat)

  datatype Error =
    | NoSuchCarousel
    | TooManyStories
    | NoKnownStories
    | SpansCities
    | DeckFull
    | UnknownStory
    | Unprocessable
    | TooLarge
    | Vanished
    | Failed

  /** A request between two awaits; `held` is the slide rows `_get` loaded. */
  datatype Write =
    | Creating(deck: seq<SlideWrite>, stories: seq<Feed.Story>, missing: seq<Id>, city: int, sort: Option<string>)
    | AddGot(id: int, held: set<SlideRow>, ids: seq<Id>, sort: Option<string>)
    | AddResolved(id: int, held: set<SlideRow>, stories: seq<Feed.Story>, missing: seq<Id>, sort: Option<string>)
    | PutGot(id: int, held: set<SlideRow>, body: seq<SlideWrite>)
    | Ready(id: int, held: set<SlideRow>, deck: seq<SlideWrite>, added: seq<Feed.Story>, missing: seq<Id>,
            sort: Option<string>)
    | Done(id: int, missing: seq<Id>)
    | Refused(error: Error)

  const SCORE_VERSION: int := 3
  const MAX_STORY_IDS: nat := 32
  const SLIDE_TEXT_CAP: nat := 2000
  const STORY_ID_CAP: nat := 128

  // --- resolving a selection ------------------------------------------------------------------

  /** `list(dict.fromkeys(ids))`. */
  function Dedupe(ids: seq<Id>): (r: seq<Id>)
    ensures forall x :: x in r <==> x in ids
    ensures forall i, j :: 0 <= i < j < |r| ==> r[i] != r[j]
  {
    if ids == [] then []
    else
      var before := Dedupe(ids[..|ids| - 1]);
      var last := ids[|ids| - 1];
      assert forall x :: x in ids <==> x in ids[..|ids| - 1] || x == last;
      if last in before then before else before + [last]
  }

  function Project(articles: map<Id, Feed.Row>, ids: seq<Id>, settings: Settings): seq<Feed.Story>
    requires Rank.Validated(settings.feed.weights)
  {
    if ids == [] then []
    else (if ids[0] in articles then [Feed.Project(articles[ids[0]], settings.feed)] else [])
         + Project(articles, ids[1..], settings)
  }

  function Missing(articles: map<Id, Feed.Row>, ids: seq<Id>): seq<Id> {
    if ids == [] then []
    else (if ids[0] in articles then [] else [ids[0]]) + Missing(articles, ids[1..])
  }

  datatype Resolved = Resolved(stories: seq<Feed.Story>, missing: seq<Id>, city: Option<int>)

  function OneCity(stories: seq<Feed.Story>): Option<int> {
    if stories != [] && forall i :: 0 <= i < |stories| ==> stories[i].row.source.cityId == stories[0].row.source.cityId
    then Some(stories[0].row.source.cityId)
    else None
  }

  predicate IsStoryId(id: Id) {
    1 <= |id| <= STORY_ID_CAP
  }

  /** What the request schema lets through, before the endpoint runs. */
  predicate IsSelection(ids: seq<Id>) {
    1 <= |ids| <= MAX_STORY_IDS && forall i :: 0 <= i < |ids| ==> IsStoryId(ids[i])
  }

  function Resolve(s: Server, ids: seq<Id>, settings: Settings): Result<Resolved, Error>
    requires Rank.Validated(settings.feed.weights)
  {
    var wanted := Dedupe(ids);
    if |wanted| > CAROUSEL_MAX_STORIES then Err(TooManyStories)
    else
      var stories := Sort(Feed.BestFirst, Project(s.articles, wanted, settings));
      if stories == [] then Err(NoKnownStories)
      else Ok(Resolved(stories, Missing(s.articles, wanted), OneCity(stories)))
  }

  // --- slides ---------------------------------------------------------------------------------

  function CardOf(row: Feed.Row, settings: Settings): Card
    requires Rank.Validated(settings.feed.weights)
  {
    var levels := Rank.LevelsOf(row.article.dimensions);
    Card(Some(row.source.name), Some(row.article.url), row.article.category,
         if levels.Some? then Some(Rank.ArticleScore(settings.feed.weights, levels)) else None)
  }

  function StorySlide(story: Feed.Story, settings: Settings): Slide
    requires Rank.Validated(settings.feed.weights)
  {
    var (text, clipped) := Text.Clip(settings.classes, Some(story.row.article.title), TEXT_MAX);
    Slide(Story, Some(story.row.article.id), text, clipped, CardOf(story.row, settings))
  }

  function SlideMaker(settings: Settings): Feed.Story -> Slide
    requires Rank.Validated(settings.feed.weights)
  {
    (story: Feed.Story) => StorySlide(story, settings)
  }

  function Made(make: Feed.Story -> Slide, stories: seq<Feed.Story>): seq<Slide> {
    if stories == [] then [] else [make(stories[0])] + Made(make, stories[1..])
  }

  function StorySlides(stories: seq<Feed.Story>, settings: Settings): seq<Slide>
    requires Rank.Validated(settings.feed.weights)
  {
    Made(SlideMaker(settings), stories)
  }

  function Newest(stories: seq<Feed.Story>): int
    requires stories != []
  {
    if |stories| == 1 then stories[0].publishedAt
    else
      var rest := Newest(stories[1..]);
      if stories[0].publishedAt > rest then stories[0].publishedAt else rest
  }

  function BracketSlides(cityName: string, date: string): (r: (Slide, Slide))
    ensures r.0.kind == Intro && r.1.kind == Cta && r.0.storyId.None? && r.1.storyId.None?
  {
    var place := if cityName != "" then cityName else "your city";
    (Slide(Intro, None, "Top news\n" + place + "\n" + date, false, BLANK_CARD),
     Slide(Cta, None, "Follow for daily\n" + place + " news", false, BLANK_CARD))
  }

  function BuildDeck(stories: seq<Feed.Story>, city: int, settings: Settings): seq<Slide>
    requires Rank.Validated(settings.feed.weights) && stories != []
  {
    var (intro, cta) := BracketSlides(settings.cityName(city), settings.dateLabel(Newest(stories)));
    [intro] + StorySlides(stories, settings) + [cta]
  }

  function CardIndex(articles: map<Id, Feed.Row>, settings: Settings): Option<Id> -> Card
    requires Rank.Validated(settings.feed.weights)
  {
    (id: Option<Id>) => if id.Some? && id.value in articles then CardOf(articles[id.value], settings) else BLANK_CARD
  }

  function WithCards(cards: Option<Id> -> Card, deck: seq<SlideWrite>): seq<Slide> {
    if deck == [] then []
    else
      var w := deck[|deck| - 1];
      WithCards(cards, deck[..|deck| - 1]) + [Slide(w.kind, w.storyId, w.text, w.clipped, cards(w.storyId))]
  }

  /** The stored deck with each slide's story looked up again. */
  function LoadDeck(articles: map<Id, Feed.Row>, deck: seq<SlideWrite>, settings: Settings): seq<Slide>
    requires Rank.Validated(settings.feed.weights)
  {
    WithCards(CardIndex(articles, settings), deck)
  }

  // --- selections -----------------------------------------------------------------------------

  function Pick(story: Feed.Story, sort: Option<string>, carouselId: int): Selection {
    var rated := Rank.IsRated(story.row.article.dimensions);
    Selection(story.row.article.id, if rated then Some(story.score) else None, story.score,
              if rated then Some(SCORE_VERSION) else None, sort, Some(carouselId))
  }

  function Picks(stories: seq<Feed.Story>, sort: Option<string>, carouselId: int): seq<Selection> {
    if stories == [] then []
    else Picks(stories[..|stories| - 1], sort, carouselId) + [Pick(stories[|stories| - 1], sort, carouselId)]
  }

  function Unlink(selections: seq<Selection>, carouselId: int): (r: seq<Selection>)
    ensures |r| == |selections|
    ensures forall i :: 0 <= i < |r| ==>
              r[i] == if selections[i].carouselId == Some(carouselId) then selections[i].(carouselId := None)
                      else selections[i]
  {
    seq(|selections|, i requires 0 <= i < |selections| =>
      if selections[i].carouselId == Some(carouselId) then selections[i].(carouselId := None) else selections[i])
  }

  // --- the endpoints --------------------------------------------------------------------------

  /** POST /carousels up to its first write. */
  function StartCreate(s: Server, ids: seq<Id>, sort: Option<string>, settings: Settings): Write
    requires Rank.Validated(settings.feed.weights)
  {
    if !IsSelection(ids) then Refused(Unprocessable)
    else match Resolve(s, ids, settings)
      case Err(e) => Refused(e)
      case Ok(Resolved(stories, missing, city)) =>
        if city.None? || stories == [] then Refused(SpansCities)
        else Creating(AsWrites(BuildDeck(stories, city.value, settings)), stories, missing, city.value, sort)
  }

  /** A new carousel with its deck, and a selection for each of its stories. */
  function CommitCreate(s: Server, w: Write): (Server, Write)
    requires w.Creating?
  {
    var rows := SetOf(NewRows(w.deck, s.nextRow));
    (Server(s.articles, s.carousels[s.nextId := Carousel(w.city, rows, false)], s.nextId + 1, s.nextRow + |w.deck|,
            s.selections + Picks(w.stories, w.sort, s.nextId)),
     Done(s.nextId, w.missing))
  }

  /** The stories not on the deck yet. */
  function NotYet(stories: seq<Feed.Story>, already: set<Id>): seq<Feed.Story> {
    if stories == [] then []
    else (if stories[0].row.article.id in already then [] else [stories[0]]) + NotYet(stories[1..], already)
  }

  function FirstCta(deck: seq<SlideWrite>): (i: nat)
    ensures i <= |deck|
    ensures i < |deck| ==> deck[i].kind == Cta
    ensures forall j :: 0 <= j < i ==> deck[j].kind != Cta
  {
    if deck == [] || deck[0].kind == Cta then 0 else 1 + FirstCta(deck[1..])
  }

  function IsStory(): SlideWrite -> bool {
    (w: SlideWrite) => w.kind == Story
  }

  function InsertStories(deck: seq<SlideWrite>, added: seq<Feed.Story>, settings: Settings): seq<SlideWrite>
    requires Rank.Validated(settings.feed.weights)
  {
    var cta := FirstCta(deck);
    deck[..cta] + AsWrites(StorySlides(added, settings)) + deck[cta..]
  }

  /** POST /carousels/{id}/stories up to the lookup of the stories. */
  function StartAdd(s: Server, id: int, ids: seq<Id>, sort: Option<string>): Write {
    if !IsSelection(ids) then Refused(Unprocessable)
    else if id !in s.carousels then Refused(NoSuchCarousel)
    else AddGot(id, s.carousels[id].rows, ids, sort)
  }

  function ResolveAdd(s: Server, w: Write, settings: Settings): Write
    requires w.AddGot? && Rank.Validated(settings.feed.weights)
  {
    match Resolve(s, w.ids, settings)
    case Err(e) => Refused(e)
    case Ok(Resolved(stories, missing, _)) => AddResolved(w.id, w.held, stories, missing, w.sort)
  }

  /** The deck has been loaded. */
  function LoadAdd(deck: seq<SlideWrite>, w: Write, settings: Settings): Write
    requires w.AddResolved? && Rank.Validated(settings.feed.weights)
  {
    var added := NotYet(w.stories, StoryIds(deck));
    if Count(deck, IsStory()) + |added| > CAROUSEL_MAX_STORIES then Refused(DeckFull)
    else Ready(w.id, w.held, InsertStories(deck, added, settings), added, w.missing, w.sort)
  }

  predicate WellFormed(body: seq<SlideWrite>) {
    && |body| <= MAX_SLIDES
    && forall i :: 0 <= i < |body| ==>
         |body[i].text| <= SLIDE_TEXT_CAP && (body[i].storyId.Some? ==> IsStoryId(body[i].storyId.value))
  }

  /** PUT /carousels/{id} up to the lookup of the stories it names. */
  function StartPut(s: Server, id: int, body: seq<SlideWrite>): Write {
    if !WellFormed(body) then Refused(Unprocessable)
    else if id !in s.carousels then Refused(NoSuchCarousel)
    else PutGot(id, s.carousels[id].rows, body)
  }

  function CheckPut(s: Server, w: Write): Write
    requires w.PutGot?
  {
    if StoryIds(w.body) <= s.articles.Keys then Ready(w.id, w.held, w.body, [], [], None) else Refused(UnknownStory)
  }

  /**
   The commit of an add or a PUT. The UPDATE that stamps the carousel finds no row when it has been
   deleted meanwhile, and everything is rolled back.
   */
  function CommitSave(s: Server, w: Write): (Server, Write)
    requires w.Ready?
  {
    if w.id !in s.carousels then (s, Refused(Vanished))
    else
      var rows := SaveDeck(s.carousels[w.id].rows, w.held, w.deck, s.nextRow);
      (s.(carousels := s.carousels[w.id := s.carousels[w.id].(rows := rows)], nextRow := s.nextRow + |w.deck|,
          selections := s.selections + Picks(w.added, w.sort, w.id)),
       Done(w.id, w.missing))
  }

  /** The slides go with the carousel; its selections stay and lose the link. */
  function Delete(s: Server, id: int): (Server, Option<Error>) {
    if id !in s.carousels then (s, Some(NoSuchCarousel))
    else (s.(carousels := s.carousels - {id}, selections := Unlink(s.selections, id)), None)
  }

  /** A slide image: its decoded size, or None when it is not a base64 JPEG data URL. */
  type Image = Option<nat>

  function ZipSize(images: seq<Image>): nat {
    if images == [] then 0
    else ZipSize(images[..|images| - 1]) + (if images[|images| - 1].Some? then images[|images| - 1].value else 0)
  }

  /** The archive is built: every image decodes and no prefix is over the cap. */
  predicate Zips(images: seq<Image>, cap: nat) {
    (forall i :: 0 <= i < |images| ==> images[i].Some?) && ZipSize(images) <= cap
  }

  function Zip(s: Server, id: int, images: seq<Image>, settings: Settings): Server {
    if 1 <= |images| <= MAX_SLIDES && Zips(images, settings.zipMaxTotalBytes) && id in s.carousels
    then s.(carousels := s.carousels[id := s.carousels[id].(downloaded := true)])
    else s
  }

  /** The tables, and the endpoints segment by segment. */
  class Endpoints {
    var articles: map<Id, Feed.Row>
    var carousels: map<int, Carousel>
    var nextId: nat
    var nextRow: nat
    var selections: seq<Selection>

    constructor (articles: map<Id, Feed.Row>)
      ensures State() == Server(articles, map[], 0, 0, [])
    {
      this.articles, this.carousels, this.nextId, this.nextRow, this.selections := articles, map[], 0, 0, [];
    }

    function State(): Server
      reads this
    {
      Server(articles, carousels, nextId, nextRow, selections)
    }

    method Record(carouselId: int, stories: seq<Feed.Story>, sort: Option<string>)
      modifies this`selections
      ensures selections == old(selections) + Picks(stories, sort, carouselId)
    {
      for i := 0 to |stories|
        invariant selections == old(selections) + Picks(stories[..i], sort, carouselId)
      {
        var story := stories[i];
        assert stories[..i + 1][..i] == stories[..i];
        var rated := Rank.IsRated(story.row.article.dimensions);
        selections := selections + [
          Selection(story.row.article.id, if rated then Some(story.score) else None, story.score,
                    if rated then Some(SCORE_VERSION) else None, sort, Some(carouselId))];
      }
      assert stories[..|stories|] == stories;
    }

    method CreateCarousel(ids: seq<Id>, sort: Option<string>, settings: Settings) returns (w: Write)
      requires Rank.Validated(settings.feed.weights)
      ensures w == StartCreate(State(), ids, sort, settings)
    {
      if !IsSelection(ids) {
        return Refused(Unprocessable);
      }
      match Resolve(State(), ids, settings)
      case Err(e) =>
        w := Refused(e);
      case Ok(Resolved(stories, missing, city)) =>
        if city.None? || stories == [] {
          return Refused(SpansCities);
        }
        w := Creating(AsWrites(BuildDeck(stories, city.value, settings)), stories, missing, city.value, sort);
    }

    method CommitCarousel(w: Write) returns (done: Write)
      requires w.Creating?
      modifies this
      ensures (State(), done) == CommitCreate(old(State()), w)
    {
      var id := nextId;
      nextId := nextId + 1;
      carousels := carousels[id := Carousel(w.city, SetOf(NewRows(w.deck, nextRow)), false)];
      nextRow := nextRow + |w.deck|;
      Record(id, w.stories, w.sort);
      done := Done(id, w.missing);
    }

    method AddStories(id: int, ids: seq<Id>, sort: Option<string>) returns (w: Write)
      ensures w == StartAdd(State(), id, ids, sort)
    {
      if !IsSelection(ids) {
        return Refused(Unprocessable);
      }
      if id !in carousels {
        return Refused(NoSuchCarousel);
      }
      w := AddGot(id, carousels[id].rows, ids, sort);
    }

    method AddStoriesResolved(got: Write, settings: Settings) returns (w: Write)
      requires got.AddGot? && Rank.Validated(settings.feed.weights)
      ensures w == ResolveAdd(State(), got, settings)
    {
      match Resolve(State(), got.ids, settings)
      case Err(e) =>
        w := Refused(e);
      case Ok(Resolved(stories, missing, _)) =>
        w := AddResolved(got.id, got.held, stories, missing, got.sort);
    }

    /** From the answer of `load_deck` on: `listing` is what its query returned. */
    method AddStoriesLoaded(resolved: Write, listing: seq<SlideRow>, settings: Settings) returns (w: Write)
      requires resolved.AddResolved? && Rank.Validated(settings.feed.weights)
      ensures w == LoadAdd(Slides(listing), resolved, settings)
    {
      var deck := LoadDeck(articles, Slides(listing), settings);
      LoadReturnsTheDeck(articles, Slides(listing), settings);
      var added := NotYet(resolved.stories, StoryIds(AsWrites(deck)));
      if Count(AsWrites(deck), IsStory()) + |added| > CAROUSEL_MAX_STORIES {
        return Refused(DeckFull);
      }
      var cta := FirstCta(AsWrites(deck));
      InsertAgrees(deck, added, settings);
      var longer := deck[..cta] + StorySlides(added, settings) + deck[cta..];
      w := Ready(resolved.id, resolved.held, AsWrites(longer), added, resolved.missing, resolved.sort);
    }

    method SaveCarousel(id: int, body: seq<SlideWrite>) returns (w: Write)
      ensures w == StartPut(State(), id, body)
    {
      if !WellFormed(body) {
        return Refused(Unprocessable);
      }
      if id !in carousels {
        return Refused(NoSuchCarousel);
      }
      w := PutGot(id, carousels[id].rows, body);
    }

    method SaveCarouselChecked(got: Write) returns (w: Write)
      requires got.PutGot?
      ensures w == CheckPut(State(), got)
    {
      if !(StoryIds(got.body) <= articles.Keys) {
        return Refused(UnknownStory);
      }
      w := Ready(got.id, got.held, got.body, [], [], None);
    }

    /** `save_deck`, `_record` and the commit. */
    method CommitDeck(w: Write) returns (done: Write)
      requires w.Ready?
      modifies this
      ensures (State(), done) == CommitSave(old(State()), w)
    {
      if w.id !in carousels {
        return Refused(Vanished);
      }
      var rows := SaveDeck(carousels[w.id].rows, w.held, w.deck, nextRow);
      carousels := carousels[w.id := carousels[w.id].(rows := rows)];
      nextRow := nextRow + |w.deck|;
      Record(w.id, w.added, w.sort);
      done := Done(w.id, w.missing);
    }

    method DeleteCarousel(id: int) returns (error: Option<Error>)
      modifies this
      ensures (State(), error) == Delete(old(State()), id)
    {
      if id !in carousels {
        return Some(NoSuchCarousel);
      }
      carousels := carousels - {id};
      selections := Unlink(selections, id);
      error := None;
    }

    /** The stamp goes on only once every image is in the archive. */
    method ZipSlides(id: int, images: seq<Image>, settings: Settings) returns (error: Option<Error>)
      modifies this
      ensures State() == Zip(old(State()), id, images, settings)
      ensures error.None? <==>
                1 <= |images| <= MAX_SLIDES && Zips(images, settings.zipMaxTotalBytes) && id in old(carousels)
    {
      if |images| < 1 || |images| > MAX_SLIDES {
        return Some(Unprocessable);
      }
      var total := 0;
      for i := 0 to |images|
        invariant total == ZipSize(images[..i]) <= settings.zipMaxTotalBytes
        invariant forall j :: 0 <= j < i ==> images[j].Some?
        invariant State() == old(State())
      {
        assert images[..i + 1][..i] == images[..i];
        if images[i].None? {
          return Some(Unprocessable);
        }
        total := total + images[i].value;
        if total > settings.zipMaxTotalBytes {
          ZipSizeGrows(images, i + 1);
          return Some(TooLarge);
        }
      }
      assert images[..|images|] == images;
      if id !in carousels {
        return Some(NoSuchCarousel);
      }
      carousels := carousels[id := carousels[id].(downloaded := true)];
      error := None;
    }
  }

  /** Splicing into the loaded slides is splicing into the stored deck. */
  lemma InsertAgrees(deck: seq<Slide>, added: seq<Feed.Story>, settings: Settings)
    requires Rank.Validated(settings.feed.weights)
    ensures var cta := FirstCta(AsWrites(deck));
            InsertStories(AsWrites(deck), added, settings)
            == AsWrites(deck[..cta] + StorySlides(added, settings) + deck[cta..])
  {
    var cta := FirstCta(AsWrites(deck));
    AsWritesAppend(deck[..cta] + StorySlides(added, settings), deck[cta..]);
    AsWritesAppend(deck[..cta], StorySlides(added, settings));
    assert AsWrites(deck[..cta]) == AsWrites(deck)[..cta] && AsWrites(deck[cta..]) == AsWrites(deck)[cta..];
  }

  lemma {:induction false} ZipSizeGrows(images: seq<Image>, n: nat)
    requires n <= |images|
    ensures ZipSize(images[..n]) <= ZipSize(images)
    decreases |images|
  {
    if n < |images| {
      var init := images[..|images| - 1];
      assert init[..n] == images[..n];
      ZipSizeGrows(init, n);
    } else {
      assert images[..n] == images;
    }
  }

  // --- facts about the pieces -----------------------------------------------------------------

  lemma {:induction false} CardsOnly(cards: Option<Id> -> Card, deck: seq<SlideWrite>)
    ensures AsWrites(WithCards(cards, deck)) == deck
  {
    if deck != [] {
      var n := |deck| - 1;
      CardsOnly(cards, deck[..n]);
      var w := deck[n];
      AsWritesAppend(WithCards(cards, deck[..n]), [Slide(w.kind, w.storyId, w.text, w.clipped, cards(w.storyId))]);
      assert deck == deck[..n] + [w];
    }
  }

  /** Loading gives back what is stored; only the card is looked up. */
  lemma LoadReturnsTheDeck(articles: map<Id, Feed.Row>, deck: seq<SlideWrite>, settings: Settings)
    requires Rank.Validated(settings.feed.weights)
    ensures AsWrites(LoadDeck(articles, deck, settings)) == deck
  {
    CardsOnly(CardIndex(articles, settings), deck);
  }

  ghost predicate Keyed(articles: map<Id, Feed.Row>) {
    forall k :: k in articles ==> articles[k].article.id == k
  }

  function CountId(stories: seq<Feed.Story>, id: Id): nat {
    if stories == [] then 0 else (if stories[0].row.article.id == id then 1 else 0) + CountId(stories[1..], id)
  }

  lemma {:induction false} InsertKeepsCount(x: Feed.Story, s: seq<Feed.Story>, id: Id)
    ensures CountId(Insert(Feed.BestFirst, x, s), id) == CountId(s, id) + if x.row.article.id == id then 1 else 0
    ensures |Insert(Feed.BestFirst, x, s)| == |s| + 1
  {
    if s == [] || Feed.BestFirst(x, s[0]) {
      assert ([x] + s)[1..] == s;
    } else {
      InsertKeepsCount(x, s[1..], id);
    }
  }

  lemma {:induction false} SortKeepsCount(s: seq<Feed.Story>, id: Id)
    ensures CountId(Sort(Feed.BestFirst, s), id) == CountId(s, id)
    ensures |Sort(Feed.BestFirst, s)| == |s|
  {
    if s != [] {
      SortKeepsCount(s[1..], id);
      InsertKeepsCount(s[0], Sort(Feed.BestFirst, s[1..]), id);
    }
  }

  lemma {:induction false} ProjectedOnce(articles: map<Id, Feed.Row>, ids: seq<Id>, settings: Settings, id: Id)
    requires Rank.Validated(settings.feed.weights) && Keyed(articles)
    requires forall i, j :: 0 <= i < j < |ids| ==> ids[i] != ids[j]
    ensures CountId(Project(articles, ids, settings), id) == if id in ids && id in articles then 1 else 0
    ensures |Project(articles, ids, settings)| <= |ids|
  {
    if ids != [] {
      var rest := Project(articles, ids[1..], settings);
      ProjectedOnce(articles, ids[1..], settings, id);
      if ids[0] in articles {
        var first := Feed.Project(articles[ids[0]], settings.feed);
        assert Project(articles, ids, settings) == [first] + rest;
        assert ([first] + rest)[1..] == rest;
      } else {
        assert [] + rest == rest;
      }
    }
  }

  /** What a lookup yields: every known id that was asked for, once, at most a carousel's worth. */
  lemma ResolvedOnce(s: Server, ids: seq<Id>, settings: Settings, id: Id)
    requires Rank.Validated(settings.feed.weights) && Keyed(s.articles) && Resolve(s, ids, settings).Ok?
    ensures var stories := Resolve(s, ids, settings).value.stories;
            && 1 <= |stories| <= CAROUSEL_MAX_STORIES
            && CountId(stories, id) == if id in ids && id in s.articles then 1 else 0
  {
    var wanted := Dedupe(ids);
    ProjectedOnce(s.articles, wanted, settings, id);
    SortKeepsCount(Project(s.articles, wanted, settings), id);
  }

  ghost predicate MakesStories(make: Feed.Story -> Slide) {
    forall s :: make(s).kind == Story && make(s).storyId == Some(s.row.article.id)
  }

  lemma {:induction false} MadeCounts(make: Feed.Story -> Slide, stories: seq<Feed.Story>, id: Id)
    requires MakesStories(make)
    ensures var w := AsWrites(Made(make, stories));
            && |w| == |stories|
            && Count(w, Names(id)) == CountId(stories, id)
            && Count(w, IsBracket()) == 0
            && Count(w, IsStory()) == |stories|
  {
    if stories != [] {
      MadeCounts(make, stories[1..], id);
      assert AsWrites(Made(make, stories))[1..] == AsWrites(Made(make, stories[1..]));
    }
  }

  lemma StorySlideCounts(stories: seq<Feed.Story>, settings: Settings, id: Id)
    requires Rank.Validated(settings.feed.weights)
    ensures var w := AsWrites(StorySlides(stories, settings));
            && |w| == |stories|
            && Count(w, Names(id)) == CountId(stories, id)
            && Count(w, IsBracket()) == 0
            && Count(w, IsStory()) == |stories|
  {
    MadeCounts(SlideMaker(settings), stories, id);
  }

  lemma {:induction false} NotYetCounts(stories: seq<Feed.Story>, already: set<Id>, id: Id)
    ensures CountId(NotYet(stories, already), id) == if id in already then 0 else CountId(stories, id)
    ensures |NotYet(stories, already)| <= |stories|
  {
    if stories != [] {
      var rest := NotYet(stories[1..], already);
      NotYetCounts(stories[1..], already, id);
      if stories[0].row.article.id in already {
        assert [] + rest == rest;
      } else {
        assert ([stories[0]] + rest)[1..] == rest;
      }
    }
  }

  lemma {:induction false} StoriesAndBrackets(deck: seq<SlideWrite>)
    ensures |deck| == Count(deck, IsStory()) + Count(deck, IsBracket())
  {
    if deck != [] {
      StoriesAndBrackets(deck[1..]);
    }
  }

  // --- decks the server builds are good -------------------------------------------------------

  lemma BuiltDeckIsGood(stories: seq<Feed.Story>, city: int, settings: Settings)
    requires Rank.Validated(settings.feed.weights) && 1 <= |stories| <= CAROUSEL_MAX_STORIES
    requires forall id :: CountId(stories, id) <= 1
    ensures Good(AsWrites(BuildDeck(stories, city, settings)))
    ensures |BuildDeck(stories, city, settings)| == |stories| + 2
    ensures forall id :: id in StoryIds(AsWrites(BuildDeck(stories, city, settings))) <==> CountId(stories, id) > 0
  {
    var deck := BuildDeck(stories, city, settings);
    var (intro, cta) := BracketSlides(settings.cityName(city), settings.dateLabel(Newest(stories)));
    var middle := StorySlides(stories, settings);
    assert deck == [intro] + middle + [cta];
    AsWritesAppend([intro] + middle, [cta]);
    AsWritesAppend([intro], middle);
    assert AsWrites([intro]) == [AsWrite(intro)] && AsWrites([cta]) == [AsWrite(cta)];
    StorySlideCounts(stories, settings, "");
    BracketedCount(AsWrite(intro), AsWrites(middle), AsWrite(cta), IsBracket());
    forall id
      ensures Count(AsWrites(deck), Names(id)) == CountId(stories, id) <= 1
      ensures id in StoryIds(AsWrites(deck)) <==> CountId(stories, id) > 0
    {
      StorySlideCounts(stories, settings, id);
      BracketedCount(AsWrite(intro), AsWrites(middle), AsWrite(cta), Names(id));
      CountNames(AsWrites(deck), id);
    }
  }

  lemma BracketedCount(a: SlideWrite, middle: seq<SlideWrite>, b: SlideWrite, p: SlideWrite -> bool)
    ensures Count([a] + middle + [b], p) == (if p(a) then 1 else 0) + Count(middle, p) + if p(b) then 1 else 0
  {
    CountMiddle([a], middle, [b], p);
    CountOne(a, p);
    CountOne(b, p);
  }

  lemma InsertedCounts(deck: seq<SlideWrite>, middle: seq<SlideWrite>, i: nat, p: SlideWrite -> bool)
    requires i <= |deck|
    ensures Count(deck[..i] + middle + deck[i..], p) == Count(deck, p) + Count(middle, p)
  {
    assert deck == deck[..i] + deck[i..];
    CountMiddle(deck[..i], middle, deck[i..], p);
    CountAppend(deck[..i], deck[i..], p);
  }

  /** What adding does to the articles on a deck, and how often each is there. */
  lemma InsertedArticles(deck: seq<SlideWrite>, added: seq<Feed.Story>, settings: Settings, id: Id)
    requires Rank.Validated(settings.feed.weights)
    ensures var r := InsertStories(deck, added, settings);
            && Count(r, Names(id)) == Count(deck, Names(id)) + CountId(added, id)
            && (id in StoryIds(r) <==> id in StoryIds(deck) || CountId(added, id) > 0)
  {
    StorySlideCounts(added, settings, id);
    InsertedCounts(deck, AsWrites(StorySlides(added, settings)), FirstCta(deck), Names(id));
    CountNames(deck, id);
    CountNames(InsertStories(deck, added, settings), id);
  }

  /** Adding under the cap to a good deck keeps it good. */
  lemma InsertKeepsGood(deck: seq<SlideWrite>, added: seq<Feed.Story>, settings: Settings)
    requires Rank.Validated(settings.feed.weights) && Good(deck)
    requires Count(deck, IsStory()) + |added| <= CAROUSEL_MAX_STORIES
    requires forall id :: CountId(added, id) <= 1 && (id in StoryIds(deck) ==> CountId(added, id) == 0)
    ensures var r := InsertStories(deck, added, settings);
            Good(r) && |r| == |deck| + |added|
  {
    StorySlideCounts(added, settings, "");
    StoriesAndBrackets(deck);
    InsertedCounts(deck, AsWrites(StorySlides(added, settings)), FirstCta(deck), IsBracket());
    forall id ensures Count(InsertStories(deck, added, settings), Names(id)) <= 1 {
      InsertedArticles(deck, added, settings, id);
      CountNames(deck, id);
    }
  }
}

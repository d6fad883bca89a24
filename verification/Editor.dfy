/**
 The whole editing loop: browser tabs running slides.js, the carousel endpoints, and the network
 between them.

 Requests overlap at their awaits: each has read what its `Write` says, and changes the tables only
 when it commits. A PUT, once issued, may reach the server at any later time, in any order and more
 than once; a response may be loaded into any tab, at any later time. Meanwhile the classifier rates
 articles and the rank weights may be changed. Any event sequence is a run; an event that does not
 fit the state changes nothing.
 */
module Editor {
  import opened Common
  import opened Deck
  import opened SlidesStore
  import opened Carousels
  import Autosave
  import Feed
  import Rank

  /** A deck the server has sent, on its way to `load`. */
  datatype Reply = Reply(id: int, slides: seq<Slide>)

  datatype World = World(
    settings: Settings,
    server: Server,
    writes: seq<Write>,
    replies: seq<Reply>,
    tabs: seq<Tab>,
    puts: seq<Put>)

  datatype Request =
    | CreateRequest(ids: seq<Id>, sort: Option<string>)
    | AddRequest(id: int, ids: seq<Id>, sort: Option<string>)
    | PutRequest(k: nat)

  /** What a request does next. `Loads` is the answer of `load_deck`, ties in any order. */
  datatype Action = Proceeds | Loads(listing: seq<SlideRow>) | Commits | Fails

  datatype Event =
    | Begins(request: Request)
    | Acts(i: nat, action: Action)
    | Reads(id: int, listing: seq<SlideRow>)
    | Deletes(id: int)
    | Downloads(id: int, images: seq<Image>)
    | ArticleArrives(row: Feed.Row)
    | ArticleRated(article: Id, category: Option<string>, dimensions: Rank.Columns)
    | SettingsChange(settings: Settings)
    | TabOpens
    | InTab(t: nat, e: Autosave.Event)

  ghost predicate Configured(w: World) {
    Rank.Validated(w.settings.feed.weights)
  }

  function Initial(settings: Settings): World {
    World(settings, Server(map[], map[], 0, 0, []), [], [], [], [])
  }

  /** The rows a query for the slides of `id` finds. */
  function SlideTable(s: Server, id: int): set<SlideRow> {
    if id in s.carousels then s.carousels[id].rows else {}
  }

  function Start(w: World, r: Request): Write
    requires Rank.Validated(w.settings.feed.weights)
  {
    match r
    case CreateRequest(ids, sort) => StartCreate(w.server, ids, sort, w.settings)
    case AddRequest(id, ids, sort) => StartAdd(w.server, id, ids, sort)
    case PutRequest(k) =>
      if k < |w.puts| then StartPut(w.server, w.puts[k].id, w.puts[k].body) else Refused(Unprocessable)
  }

  ghost function Advance(s: Server, w: Write, action: Action, settings: Settings): (Server, Write)
    requires Rank.Validated(settings.feed.weights)
  {
    match action
    case Proceeds =>
      (s, if w.AddGot? then ResolveAdd(s, w, settings) else if w.PutGot? then CheckPut(s, w) else w)
    case Loads(listing) =>
      (s, if w.AddResolved? && IsListing(SlideTable(s, w.id), listing) then LoadAdd(Slides(listing), w, settings)
          else w)
    case Commits =>
      if w.Creating? then CommitCreate(s, w) else if w.Ready? then CommitSave(s, w) else (s, w)
    case Fails =>
      (s, if w.Done? then w else Refused(Failed))
  }

  /** The classifier writes its verdict; the headline and the owner stay. */
  function Rated(row: Feed.Row, category: Option<string>, dimensions: Rank.Columns): Feed.Row {
    row.(article := row.article.(category := category, dimensions := dimensions))
  }

  ghost function Next(w: World, e: Event): World
    requires Configured(w)
    ensures Configured(Next(w, e))
  {
    match e
    case Begins(request) => w.(writes := w.writes + [Start(w, request)])
    case Acts(i, action) =>
      if i < |w.writes| then
        var (s, write) := Advance(w.server, w.writes[i], action, w.settings);
        w.(server := s, writes := w.writes[i := write])
      else w
    case Reads(id, listing) =>
      if id in w.server.carousels && IsListing(w.server.carousels[id].rows, listing)
      then w.(replies := w.replies + [Reply(id, LoadDeck(w.server.articles, Slides(listing), w.settings))])
      else w
    case Deletes(id) => w.(server := Delete(w.server, id).0)
    case Downloads(id, images) => w.(server := Zip(w.server, id, images, w.settings))
    case ArticleArrives(row) =>
      if row.article.id in w.server.articles then w
      else w.(server := w.server.(articles := w.server.articles[row.article.id := row]))
    case ArticleRated(a, category, dimensions) =>
      if a !in w.server.articles then w
      else
        var row := Rated(w.server.articles[a], category, dimensions);
        w.(server := w.server.(articles := w.server.articles[a := row]))
    case SettingsChange(settings) => if Rank.Validated(settings.feed.weights) then w.(settings := settings) else w
    case TabOpens => w.(tabs := w.tabs + [EMPTY_TAB])
    case InTab(t, e) =>
      if t >= |w.tabs| || (e.Loaded? && Reply(e.id, e.slides) !in w.replies) then w
      else
        var s := Autosave.Next(Autosave.State(w.tabs[t], w.puts), e);
        w.(tabs := w.tabs[t := s.tab], puts := s.puts)
  }

  ghost function Run(w: World, events: seq<Event>): World
    requires Configured(w)
    ensures Configured(Run(w, events))
  {
    if events == [] then w else Next(Run(w, events[..|events| - 1]), events[|events| - 1])
  }

  // --- what is in order in every state --------------------------------------------------------

  /** The carousel a request in progress will write to, if it exists already. */
  function Target(w: Write): Option<int> {
    match w
    case AddGot(id, _, _, _) => Some(id)
    case AddResolved(id, _, _, _, _) => Some(id)
    case PutGot(id, _, _) => Some(id)
    case Ready(id, _, _, _, _, _) => Some(id)
    case _ => None
  }

  /** What a lookup guarantees about the stories a request carries. */
  ghost predicate StoriesFit(w: Write) {
    && (w.Creating? ==> Good(w.deck) && forall a :: a in StoryIds(w.deck) ==> CountId(w.stories, a) > 0)
    && (w.AddResolved? ==> forall a :: CountId(w.stories, a) <= 1)
  }

  ghost predicate Assigned(s: Server, id: Option<int>) {
    id.Some? ==> id.value < s.nextId
  }

  ghost predicate Tidy(s: Server) {
    && Keyed(s.articles)
    && forall id :: id in s.carousels ==> id < s.nextId && FreshIds(s.carousels[id].rows, s.nextRow)
  }

  /** Ids in use were assigned, row ids are fresh, and requests carry stories as looked up. */
  ghost predicate Ordered(w: World) {
    && Configured(w)
    && Tidy(w.server)
    && (forall i :: 0 <= i < |w.writes| ==> StoriesFit(w.writes[i]) && Assigned(w.server, Target(w.writes[i])))
    && (forall i :: 0 <= i < |w.replies| ==> Assigned(w.server, Some(w.replies[i].id)))
    && (forall k :: 0 <= k < |w.puts| ==> Assigned(w.server, Some(w.puts[k].id)))
    && (forall t :: 0 <= t < |w.tabs| ==>
          Assigned(w.server, w.tabs[t].carouselId) && Assigned(w.server, w.tabs[t].storage.id))
  }

  lemma StartFits(w: World, r: Request)
    requires Ordered(w)
    ensures StoriesFit(Start(w, r)) && Assigned(w.server, Target(Start(w, r)))
  {
    match r
    case CreateRequest(ids, sort) => CreateFits(w.server, ids, sort, w.settings);
    case AddRequest(_, _, _) =>
    case PutRequest(_) =>
  }

  lemma CreateFits(s: Server, ids: seq<Id>, sort: Option<string>, settings: Settings)
    requires Rank.Validated(settings.feed.weights) && Keyed(s.articles)
    ensures StoriesFit(StartCreate(s, ids, sort, settings)) && Target(StartCreate(s, ids, sort, settings)) == None
  {
    if StartCreate(s, ids, sort, settings).Creating? {
      var resolved := Resolve(s, ids, settings).value;
      forall id ensures CountId(resolved.stories, id) <= 1 {
        ResolvedOnce(s, ids, settings, id);
      }
      ResolvedOnce(s, ids, settings, "");
      BuiltDeckIsGood(resolved.stories, resolved.city.value, settings);
    }
  }

  lemma AdvanceFits(s: Server, w: Write, action: Action, settings: Settings)
    requires Rank.Validated(settings.feed.weights) && Tidy(s) && StoriesFit(w) && Assigned(s, Target(w))
    ensures var (s2, w2) := Advance(s, w, action, settings);
            StoriesFit(w2) && Assigned(s, Target(w2))
  {
    if action.Proceeds? && w.AddGot? {
      if Resolve(s, w.ids, settings).Ok? {
        forall a ensures CountId(Resolve(s, w.ids, settings).value.stories, a) <= 1 {
          ResolvedOnce(s, w.ids, settings, a);
        }
      }
    }
  }

  lemma CommitStaysTidy(s: Server, w: Write)
    requires Tidy(s)
    ensures w.Creating? ==> Tidy(CommitCreate(s, w).0) && s.nextId <= CommitCreate(s, w).0.nextId
    ensures w.Ready? ==> Tidy(CommitSave(s, w).0) && s.nextId <= CommitSave(s, w).0.nextId
  {
  }

  lemma ActKeepsOrder(w: World, i: nat, action: Action)
    requires Ordered(w) && i < |w.writes|
    ensures Ordered(Next(w, Acts(i, action)))
  {
    AdvanceFits(w.server, w.writes[i], action, w.settings);
    CommitStaysTidy(w.server, w.writes[i]);
  }

  lemma NextKeepsOrder(w: World, e: Event)
    requires Ordered(w)
    ensures Ordered(Next(w, e))
  {
    match e
    case Begins(request) => StartFits(w, request);
    case Acts(i, action) =>
      if i < |w.writes| {
        ActKeepsOrder(w, i, action);
      }
    case _ => RestKeepsOrder(w, e);
  }

  lemma RestKeepsOrder(w: World, e: Event)
    requires Ordered(w) && !e.Begins? && !e.Acts?
    ensures Ordered(Next(w, e))
  {
    if e.InTab? {
      TabKeepsOrder(w, e.t, e.e);
    }
  }

  lemma TabKeepsOrder(w: World, t: nat, e: Autosave.Event)
    requires Ordered(w)
    ensures Ordered(Next(w, InTab(t, e)))
  {
    if t < |w.tabs| && (e.Loaded? ==> Reply(e.id, e.slides) in w.replies) {
      match e
      case Loaded(id, slides, ok) =>
        var i :| 0 <= i < |w.replies| && w.replies[i] == Reply(id, slides);
      case _ =>
    }
  }

  lemma {:induction false} RunKeepsOrder(w: World, events: seq<Event>)
    requires Ordered(w)
    ensures Ordered(Run(w, events))
  {
    if events != [] {
      RunKeepsOrder(w, events[..|events| - 1]);
      NextKeepsOrder(Run(w, events[..|events| - 1]), events[|events| - 1]);
    }
  }

  // --- decks on their way ---------------------------------------------------------------------

  /** Every deck travelling under carousel `id` satisfies `ok`. */
  ghost predicate Travelling(w: World, id: int, ok: seq<SlideWrite> -> bool) {
    && (forall i :: 0 <= i < |w.replies| && w.replies[i].id == id ==> ok(AsWrites(w.replies[i].slides)))
    && (forall k :: 0 <= k < |w.puts| && w.puts[k].id == id ==> ok(w.puts[k].body))
    && (forall i :: 0 <= i < |w.writes| && w.writes[i].PutGot? && w.writes[i].id == id ==> ok(w.writes[i].body))
    && (forall t :: 0 <= t < |w.tabs| && w.tabs[t].carouselId == Some(id) ==> ok(AsWrites(w.tabs[t].deck)))
    && (forall t :: 0 <= t < |w.tabs| && w.tabs[t].storage.id == Some(id) ==> ok(AsWrites(w.tabs[t].storage.deck)))
  }

  /** The browser keeps `ok`. */
  ghost predicate KeptByEdits(ok: seq<SlideWrite> -> bool) {
    && (forall deck, e :: ok(AsWrites(deck)) ==> ok(AsWrites(ApplyEdit(deck, e))))
    && (forall slides :: ok(AsWrites(slides)) ==> ok(AsWrites(CleanAll(slides))))
  }

  lemma TabKeepsTravelling(w: World, t: nat, e: Autosave.Event, id: int, ok: seq<SlideWrite> -> bool)
    requires Configured(w) && Travelling(w, id, ok) && KeptByEdits(ok)
    ensures Travelling(Next(w, InTab(t, e)), id, ok)
  {
    if t < |w.tabs| && (e.Loaded? ==> Reply(e.id, e.slides) in w.replies) {
      match e
      case Loaded(other, slides, _) =>
        var i :| 0 <= i < |w.replies| && w.replies[i] == Reply(other, slides);
        assert other == id ==> ok(AsWrites(CleanAll(slides)));
      case Edited(edit, _) =>
        assert w.tabs[t].carouselId == Some(id) ==> ok(AsWrites(ApplyEdit(w.tabs[t].deck, edit)));
      case Reloaded =>
        assert w.tabs[t].storage.id == Some(id) ==> ok(AsWrites(CleanAll(w.tabs[t].storage.deck)));
      case _ =>
    }
  }

  lemma ActKeepsTravelling(w: World, i: nat, action: Action, id: int, ok: seq<SlideWrite> -> bool)
    requires Configured(w) && Travelling(w, id, ok)
    ensures Travelling(Next(w, Acts(i, action)), id, ok)
  {
    if i < |w.writes| {
      var write := Advance(w.server, w.writes[i], action, w.settings).1;
      assert write.PutGot? ==> write == w.writes[i];
    }
  }

  /** Requests do not change what travels, but for the answer to a read. */
  lemma RestKeepsTravelling(w: World, e: Event, id: int, ok: seq<SlideWrite> -> bool)
    requires Configured(w) && Travelling(w, id, ok) && !e.InTab? && !e.Acts?
    requires e.Reads? && e.id == id && id in w.server.carousels && IsListing(w.server.carousels[id].rows, e.listing) ==>
               ok(Slides(e.listing))
    ensures Travelling(Next(w, e), id, ok)
  {
    if e.Reads? {
      LoadReturnsTheDeck(w.server.articles, Slides(e.listing), w.settings);
    }
  }

  lemma NextKeepsTravelling(w: World, e: Event, id: int, ok: seq<SlideWrite> -> bool)
    requires Configured(w) && Travelling(w, id, ok) && KeptByEdits(ok)
    requires e.Reads? && e.id == id && id in w.server.carousels && IsListing(w.server.carousels[id].rows, e.listing) ==>
               ok(Slides(e.listing))
    ensures Travelling(Next(w, e), id, ok)
  {
    if e.InTab? {
      TabKeepsTravelling(w, e.t, e.e, id, ok);
    } else if e.Acts? {
      ActKeepsTravelling(w, e.i, e.action, id, ok);
    } else {
      RestKeepsTravelling(w, e, id, ok);
    }
  }

  /** Nothing travels under an id not assigned yet. */
  lemma NothingTravels(w: World, id: int, ok: seq<SlideWrite> -> bool)
    requires Ordered(w) && id >= w.server.nextId
    ensures Travelling(w, id, ok)
    ensures forall i :: 0 <= i < |w.writes| ==> Target(w.writes[i]) != Some(id)
  {
    forall i | 0 <= i < |w.writes| ensures Target(w.writes[i]) != Some(id) {
      assert Assigned(w.server, Target(w.writes[i]));
    }
  }
}

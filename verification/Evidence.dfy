/**
 The selection log over every run of the editing loop, overlapping writes, ratings and changes of the
 weights included.
 */
module Evidence {
  import opened Common
  import opened Deck
  import opened SlidesStore
  import opened Carousels
  import opened Editor
  import DeckSafety
  import Feed
  import Rank

  // --- the log itself -------------------------------------------------------------------------

  /** What a selection row says apart from which carousel it is linked to. */
  function Frozen(s: Selection): Selection {
    s.(carouselId := None)
  }

  /** `log2` keeps every row of `log`; a row may only have lost its link. */
  ghost predicate Preserves(log: seq<Selection>, log2: seq<Selection>) {
    && |log| <= |log2|
    && forall i :: 0 <= i < |log| ==>
         Frozen(log2[i]) == Frozen(log[i]) && log2[i].carouselId in {log[i].carouselId, None}
  }

  /** The rows an event appends: one for each story its commit puts on a deck. */
  function Appended(w: World, e: Event): seq<Selection> {
    if e.Acts? && e.action.Commits? && e.i < |w.writes| then
      var write := w.writes[e.i];
      if write.Creating? then Picks(write.stories, write.sort, w.server.nextId)
      else if write.Ready? && write.id in w.server.carousels then Picks(write.added, write.sort, write.id)
      else []
    else []
  }

  /**
   Only the commit of a create or an add writes to the log: it appends. Only a delete changes rows
   already there, and only by unlinking those of the carousel deleted. A PUT appends nothing.
   */
  lemma SelectionLogStep(w: World, e: Event)
    requires Ordered(w)
    ensures var before, after := w.server.selections, Next(w, e).server.selections;
            after == (if e.Deletes? && e.id in w.server.carousels then Unlink(before, e.id)
                      else before + Appended(w, e))
  {
    var before := w.server.selections;
    if e.Acts? {
      if e.i < |w.writes| {
        ActLogs(w, e.i, e.action);
      }
    } else {
      assert Appended(w, e) == [] && before + [] == before;
    }
  }

  lemma ActLogs(w: World, i: nat, action: Action)
    requires Ordered(w) && i < |w.writes|
    ensures Next(w, Acts(i, action)).server.selections == w.server.selections + Appended(w, Acts(i, action))
  {
    assert w.server.selections + [] == w.server.selections;
  }

  lemma {:induction false} PicksLength(stories: seq<Feed.Story>, sort: Option<string>, id: int)
    ensures |Picks(stories, sort, id)| == |stories|
  {
    if stories != [] {
      PicksLength(stories[..|stories| - 1], sort, id);
    }
  }

  lemma PreservesTrans(a: seq<Selection>, b: seq<Selection>, c: seq<Selection>)
    requires Preserves(a, b) && Preserves(b, c)
    ensures Preserves(a, c)
  {
    forall i | 0 <= i < |a| ensures Frozen(c[i]) == Frozen(a[i]) && c[i].carouselId in {a[i].carouselId, None} {
      assert Frozen(b[i]) == Frozen(a[i]) && Frozen(c[i]) == Frozen(b[i]);
    }
  }

  /**
   Over any run, articles being rated again and weights changing meanwhile, nothing recorded about a
   pick is lost or rewritten; at most its link is gone.
   */
  lemma {:induction false} EvidenceIsAppendOnly(w: World, events: seq<Event>)
    requires Ordered(w)
    ensures Ordered(Run(w, events))
    ensures Preserves(w.server.selections, Run(w, events).server.selections)
  {
    if events != [] {
      var n := |events| - 1;
      EvidenceIsAppendOnly(w, events[..n]);
      var before := Run(w, events[..n]);
      NextKeepsOrder(before, events[n]);
      SelectionLogStep(before, events[n]);
      PreservesTrans(w.server.selections, before.server.selections, Next(before, events[n]).server.selections);
    }
  }

  // --- every article on a deck was picked for it ----------------------------------------------

  /** A selection row says `article` was picked into carousel `id`. */
  ghost predicate Picked(selections: seq<Selection>, id: int, article: Id) {
    exists i :: 0 <= i < |selections| && selections[i].carouselId == Some(id) && selections[i].articleId == article
  }

  ghost predicate AllPicked(selections: seq<Selection>, id: int, deck: seq<SlideWrite>) {
    forall a :: a in StoryIds(deck) ==> Picked(selections, id, a)
  }

  ghost function IsPicked(selections: seq<Selection>, id: int): seq<SlideWrite> -> bool {
    deck => AllPicked(selections, id, deck)
  }

  ghost predicate RowsPicked(selections: seq<Selection>, id: int, rows: set<SlideRow>) {
    forall r :: r in rows && r.slide.storyId.Some? ==> Picked(selections, id, r.slide.storyId.value)
  }

  /** An article a request will commit was picked, or is being picked by that request. */
  ghost predicate ReadyPicked(selections: seq<Selection>, id: int, w: Write) {
    w.Ready? && w.id == id ==>
      forall a :: a in StoryIds(w.deck) ==> Picked(selections, id, a) || CountId(w.added, a) > 0
  }

  /** While carousel `id` exists, every article stored for it or on its way to it has a row in the log. */
  ghost predicate CoveredFor(w: World, id: int) {
    id in w.server.carousels ==>
      && RowsPicked(w.server.selections, id, w.server.carousels[id].rows)
      && Travelling(w, id, IsPicked(w.server.selections, id))
      && forall i :: 0 <= i < |w.writes| ==> ReadyPicked(w.server.selections, id, w.writes[i])
  }

  lemma EditsKeepPicked(selections: seq<Selection>, id: int)
    ensures KeptByEdits(IsPicked(selections, id))
  {
    forall deck, e | AllPicked(selections, id, AsWrites(deck))
      ensures AllPicked(selections, id, AsWrites(ApplyEdit(deck, e)))
    {
      EditBringsNoArticle(deck, e);
    }
    forall slides | AllPicked(selections, id, AsWrites(slides))
      ensures AllPicked(selections, id, AsWrites(CleanAll(slides)))
    {
      CleanKeepsArticles(slides);
    }
  }

  /** What was picked into a carousel that still exists stays picked. */
  ghost predicate StaysPicked(before: seq<Selection>, after: seq<Selection>, id: int) {
    forall a :: Picked(before, id, a) ==> Picked(after, id, a)
  }

  lemma AppendKeepsPicked(before: seq<Selection>, more: seq<Selection>, id: int)
    ensures StaysPicked(before, before + more, id)
  {
    forall a | Picked(before, id, a) ensures Picked(before + more, id, a) {
      var i :| 0 <= i < |before| && before[i].carouselId == Some(id) && before[i].articleId == a;
      assert (before + more)[i] == before[i];
    }
  }

  lemma UnlinkKeepsPicked(before: seq<Selection>, other: int, id: int)
    requires other != id
    ensures StaysPicked(before, Unlink(before, other), id)
  {
    forall a | Picked(before, id, a) ensures Picked(Unlink(before, other), id, a) {
      var i :| 0 <= i < |before| && before[i].carouselId == Some(id) && before[i].articleId == a;
      assert Unlink(before, other)[i] == before[i];
    }
  }

  lemma StepKeepsPicked(w: World, e: Event, id: int)
    requires Ordered(w) && id in Next(w, e).server.carousels
    ensures StaysPicked(w.server.selections, Next(w, e).server.selections, id)
  {
    SelectionLogStep(w, e);
    if e.Deletes? && e.id in w.server.carousels {
      UnlinkKeepsPicked(w.server.selections, e.id, id);
    } else {
      AppendKeepsPicked(w.server.selections, Appended(w, e), id);
    }
  }

  lemma {:induction false} CountIdSnoc(stories: seq<Feed.Story>, last: Feed.Story, a: Id)
    ensures CountId(stories + [last], a) == CountId(stories, a) + if last.row.article.id == a then 1 else 0
  {
    if stories == [] {
      assert stories + [last] == [last];
    } else {
      assert (stories + [last])[1..] == stories[1..] + [last];
      CountIdSnoc(stories[1..], last, a);
    }
  }

  lemma {:induction false} PicksPick(
      before: seq<Selection>, stories: seq<Feed.Story>, sort: Option<string>, id: int, a: Id)
    requires CountId(stories, a) > 0
    ensures Picked(before + Picks(stories, sort, id), id, a)
  {
    var n := |stories| - 1;
    var init := stories[..n];
    var rows := before + Picks(stories, sort, id);
    if stories[n].row.article.id == a {
      assert rows[|rows| - 1] == Pick(stories[n], sort, id);
    } else {
      CountIdSnoc(init, stories[n], a);
      assert stories == init + [stories[n]];
      PicksPick(before, init, sort, id, a);
      AppendKeepsPicked(before + Picks(init, sort, id), [Pick(stories[n], sort, id)], id);
      assert rows == before + Picks(init, sort, id) + [Pick(stories[n], sort, id)];
    }
  }

  lemma NewRowsPicked(selections: seq<Selection>, id: int, deck: seq<SlideWrite>, n: nat)
    requires AllPicked(selections, id, deck)
    ensures RowsPicked(selections, id, SetOf(NewRows(deck, n)))
  {
    forall r | r in SetOf(NewRows(deck, n)) && r.slide.storyId.Some?
      ensures Picked(selections, id, r.slide.storyId.value)
    {
      var i :| 0 <= i < |deck| && NewRows(deck, n)[i] == r;
      assert deck[i] in deck;
    }
  }

  /** The rows after a commit: those left and those added, overlap or not, are all of picked articles. */
  lemma CommitIsCovered(w: World, e: Event, id: int)
    requires Ordered(w) && CoveredFor(w, id) && DeckSafety.CommitsSave(w, e, id)
    ensures RowsPicked(Next(w, e).server.selections, id, Next(w, e).server.carousels[id].rows)
  {
    var write, after := w.writes[e.i], Next(w, e).server.selections;
    SelectionLogStep(w, e);
    StepKeepsPicked(w, e, id);
    assert ReadyPicked(w.server.selections, id, write);
    forall a | a in StoryIds(write.deck) ensures Picked(after, id, a) {
      if CountId(write.added, a) > 0 {
        PicksPick(w.server.selections, write.added, write.sort, id, a);
      }
    }
    NewRowsPicked(after, id, write.deck, w.server.nextRow);
  }

  lemma CreateIsCovered(w: World, e: Event, id: int)
    requires Ordered(w) && DeckSafety.CommitsCreate(w, e, id)
    ensures RowsPicked(Next(w, e).server.selections, id, Next(w, e).server.carousels[id].rows)
  {
    var write := w.writes[e.i];
    SelectionLogStep(w, e);
    assert StoriesFit(write);
    forall a | a in StoryIds(write.deck) ensures Picked(Next(w, e).server.selections, id, a) {
      PicksPick(w.server.selections, write.stories, write.sort, id, a);
    }
    NewRowsPicked(Next(w, e).server.selections, id, write.deck, w.server.nextRow);
  }

  lemma RowsStayCovered(w: World, e: Event, id: int)
    requires Ordered(w) && CoveredFor(w, id) && id in Next(w, e).server.carousels
    ensures RowsPicked(Next(w, e).server.selections, id, Next(w, e).server.carousels[id].rows)
  {
    if DeckSafety.CommitsSave(w, e, id) {
      CommitIsCovered(w, e, id);
    } else if DeckSafety.CommitsCreate(w, e, id) {
      CreateIsCovered(w, e, id);
    } else {
      DeckSafety.RowsStay(w, e, id);
      StepKeepsPicked(w, e, id);
    }
  }

  lemma ListingPicked(selections: seq<Selection>, id: int, rows: set<SlideRow>, listing: seq<SlideRow>)
    requires RowsPicked(selections, id, rows) && IsListing(rows, listing)
    ensures AllPicked(selections, id, Slides(listing))
  {
    forall a | a in StoryIds(Slides(listing)) ensures Picked(selections, id, a) {
      var i :| 0 <= i < |listing| && listing[i].slide.storyId == Some(a);
      assert listing[i] in SetOf(listing);
    }
  }

  lemma LoadedAddIsPicked(w: World, i: nat, listing: seq<SlideRow>, id: int)
    requires Ordered(w) && CoveredFor(w, id) && i < |w.writes| && id in w.server.carousels
    requires w.writes[i].AddResolved? && w.writes[i].id == id && IsListing(w.server.carousels[id].rows, listing)
    ensures ReadyPicked(w.server.selections, id, LoadAdd(Slides(listing), w.writes[i], w.settings))
  {
    var before := Slides(listing);
    ListingPicked(w.server.selections, id, w.server.carousels[id].rows, listing);
    forall a {
      InsertedArticles(before, NotYet(w.writes[i].stories, StoryIds(before)), w.settings, a);
    }
  }

  lemma ActKeepsReady(w: World, i: nat, action: Action, id: int)
    requires Ordered(w) && CoveredFor(w, id) && i < |w.writes| && id in w.server.carousels
    ensures ReadyPicked(w.server.selections, id, Advance(w.server, w.writes[i], action, w.settings).1)
  {
    var write := w.writes[i];
    assert ReadyPicked(w.server.selections, id, write);
    match action
    case Loads(listing) =>
      if write.AddResolved? && write.id == id && IsListing(w.server.carousels[id].rows, listing) {
        LoadedAddIsPicked(w, i, listing, id);
      }
    case _ =>
  }

  lemma TravelsOn(w: World, id: int, before: seq<Selection>, after: seq<Selection>)
    requires Travelling(w, id, IsPicked(before, id)) && StaysPicked(before, after, id)
    ensures Travelling(w, id, IsPicked(after, id))
  {
    assert forall deck :: IsPicked(before, id)(deck) ==> IsPicked(after, id)(deck);
  }

  /** Nothing was on its way to a carousel that did not exist. */
  lemma BornCovered(w: World, e: Event)
    requires Ordered(w) && DeckSafety.CommitsCreate(w, e, w.server.nextId)
    ensures CoveredFor(Next(w, e), w.server.nextId)
  {
    var id := w.server.nextId;
    var after := Next(w, e).server.selections;
    CreateIsCovered(w, e, id);
    EditsKeepPicked(after, id);
    NothingTravels(w, id, IsPicked(after, id));
    NextKeepsTravelling(w, e, id, IsPicked(after, id));
  }

  lemma NextKeepsCovered(w: World, e: Event, id: int)
    requires Ordered(w) && CoveredFor(w, id)
    ensures CoveredFor(Next(w, e), id)
  {
    if id in Next(w, e).server.carousels {
      if DeckSafety.CommitsCreate(w, e, id) {
        BornCovered(w, e);
      } else {
        LiveStaysCovered(w, e, id);
      }
    }
  }

  lemma LiveStaysCovered(w: World, e: Event, id: int)
    requires Ordered(w) && CoveredFor(w, id) && id in Next(w, e).server.carousels
    requires !DeckSafety.CommitsCreate(w, e, id)
    ensures CoveredFor(Next(w, e), id)
  {
    var before, after := w.server.selections, Next(w, e).server.selections;
    assert id in w.server.carousels by {
      if !DeckSafety.CommitsSave(w, e, id) {
        DeckSafety.RowsStay(w, e, id);
      }
    }
    RowsStayCovered(w, e, id);
    StepKeepsPicked(w, e, id);
    EditsKeepPicked(before, id);
    if e.Reads? && e.id == id && IsListing(w.server.carousels[id].rows, e.listing) {
      ListingPicked(before, id, w.server.carousels[id].rows, e.listing);
    }
    NextKeepsTravelling(w, e, id, IsPicked(before, id));
    TravelsOn(Next(w, e), id, before, after);
    ReadyStayPicked(w, e, id);
  }

  lemma ReadyStayPicked(w: World, e: Event, id: int)
    requires Ordered(w) && CoveredFor(w, id) && id in w.server.carousels
    requires StaysPicked(w.server.selections, Next(w, e).server.selections, id)
    ensures forall i :: 0 <= i < |Next(w, e).writes| ==>
              ReadyPicked(Next(w, e).server.selections, id, Next(w, e).writes[i])
  {
    var w2 := Next(w, e);
    forall i | 0 <= i < |w2.writes| ensures ReadyPicked(w2.server.selections, id, w2.writes[i]) {
      if i < |w.writes| {
        assert ReadyPicked(w.server.selections, id, w.writes[i]);
        if e.Acts? && e.i == i {
          ActKeepsReady(w, i, e.action, id);
        }
      }
    }
  }

  /**
   Over every run, overlapping writes included: every article on the deck of a carousel that exists,
   in its rows, on screen, in a tab's storage or in flight, has a selection row for that carousel.
   */
  lemma {:induction false} EvidenceCoversDecks(settings: Settings, events: seq<Event>, id: int)
    requires Configured(Initial(settings))
    ensures Ordered(Run(Initial(settings), events)) && CoveredFor(Run(Initial(settings), events), id)
  {
    if events != [] {
      var n := |events| - 1;
      EvidenceCoversDecks(settings, events[..n], id);
      NextKeepsOrder(Run(Initial(settings), events[..n]), events[n]);
      NextKeepsCovered(Run(Initial(settings), events[..n]), events[n], id);
    }
  }

  // --- drafts and downloads -------------------------------------------------------------------

  /** Carousel `id` is never reopened, and once downloaded never a draft again. */
  ghost predicate KeepsStatus(s: Server, s2: Server, id: int) {
    && s.nextId <= s2.nextId
    && (id in s2.carousels ==> id in s.carousels && (s.carousels[id].downloaded ==> s2.carousels[id].downloaded))
  }

  lemma ActKeepsStatus(w: World, i: nat, action: Action, id: int)
    requires Configured(w) && i < |w.writes| && id < w.server.nextId
    ensures var s2 := Advance(w.server, w.writes[i], action, w.settings).0;
            && KeepsStatus(w.server, s2, id)
            && (id in w.server.carousels ==>
                  id in s2.carousels && s2.carousels[id].downloaded == w.server.carousels[id].downloaded)
  {
  }

  lemma StepKeepsStatus(w: World, e: Event, id: int)
    requires Configured(w) && id < w.server.nextId
    ensures KeepsStatus(w.server, Next(w, e).server, id)
  {
    if e.Acts? && e.i < |w.writes| {
      ActKeepsStatus(w, e.i, e.action, id);
    }
  }

  /** Over any run: no autosave, add or create turns a downloaded carousel back into a draft. */
  lemma {:induction false} DownloadedStaysDownloaded(w: World, events: seq<Event>, id: int)
    requires Configured(w) && id < w.server.nextId
    ensures KeepsStatus(w.server, Run(w, events).server, id)
  {
    if events != [] {
      var n := |events| - 1;
      DownloadedStaysDownloaded(w, events[..n], id);
      StepKeepsStatus(Run(w, events[..n]), events[n], id);
    }
  }

  /** A draft becomes a download exactly through a zip of that very carousel that was built in full. */
  lemma OnlyAZipDownloads(w: World, e: Event, id: int)
    requires Configured(w) && id < w.server.nextId
    requires id in w.server.carousels && !w.server.carousels[id].downloaded
    ensures var after := Next(w, e).server.carousels;
            id in after && after[id].downloaded <==>
              && e.Downloads? && e.id == id && 1 <= |e.images| <= MAX_SLIDES
              && Zips(e.images, w.settings.zipMaxTotalBytes)
  {
    if e.Acts? && e.i < |w.writes| {
      ActKeepsStatus(w, e.i, e.action, id);
    }
  }
}

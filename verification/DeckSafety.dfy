/**
 What the rows of one carousel look like over every run of the editing loop: exactly the deck last
 saved as long as no two writes of that carousel overlap, and what an overlap leaves behind.
 */
module DeckSafety {
  import opened Common
  import opened Deck
  import opened SlidesStore
  import opened Carousels
  import opened Editor

  // --- what a commit does to the rows ---------------------------------------------------------

  /** Event `e` commits a save of carousel `id`. */
  predicate CommitsSave(w: World, e: Event, id: int) {
    && e.Acts? && e.action.Commits? && e.i < |w.writes|
    && w.writes[e.i].Ready? && w.writes[e.i].id == id && id in w.server.carousels
  }

  /** Event `e` commits the create that makes carousel `id`. */
  predicate CommitsCreate(w: World, e: Event, id: int) {
    e.Acts? && e.action.Commits? && e.i < |w.writes| && w.writes[e.i].Creating? && id == w.server.nextId
  }

  /** Some rows of carousel `id` were committed after this save loaded them, and survive it. */
  predicate LeavesRows(w: World, e: Event, id: int) {
    CommitsSave(w, e, id) && !(w.server.carousels[id].rows <= w.writes[e.i].held)
  }

  /**
   After a save has committed, a load returns the deck saved, at positions 0, 1, 2, ..., exactly when
   the save removed every row that was there.
   */
  lemma CommitReloadsIff(w: World, e: Event, id: int, listing: seq<SlideRow>)
    requires Ordered(w) && CommitsSave(w, e, id)
    requires IsListing(SlideTable(Next(w, e).server, id), listing)
    ensures (Slides(listing) == w.writes[e.i].deck && forall i :: 0 <= i < |listing| ==> listing[i].position == i)
       <==> !LeavesRows(w, e, id)
  {
    SaveThenLoadIff(w.server.carousels[id].rows, w.writes[e.i].held, w.writes[e.i].deck, w.server.nextRow, listing);
  }

  /** The deck then has the slides that were left, and the ones saved. */
  lemma CommittedSize(w: World, e: Event, id: int)
    requires Ordered(w) && CommitsSave(w, e, id)
    ensures |SlideTable(Next(w, e).server, id)|
         == |w.server.carousels[id].rows - w.writes[e.i].held| + |w.writes[e.i].deck|
  {
    SavedSize(w.server.carousels[id].rows, w.writes[e.i].held, w.writes[e.i].deck, w.server.nextRow);
  }

  /** The rows of a carousel change only by its own create, save and delete. */
  lemma RowsStay(w: World, e: Event, id: int)
    requires Ordered(w) && !CommitsSave(w, e, id) && !CommitsCreate(w, e, id)
    ensures id in Next(w, e).server.carousels ==>
              id in w.server.carousels && Next(w, e).server.carousels[id].rows == w.server.carousels[id].rows
  {
    if e.Acts? && e.i < |w.writes| {
      ActLeavesRows(w, e.i, e.action, id);
    }
  }

  lemma ActLeavesRows(w: World, i: nat, action: Action, id: int)
    requires Ordered(w) && i < |w.writes|
    requires !CommitsSave(w, Acts(i, action), id) && !CommitsCreate(w, Acts(i, action), id)
    ensures var s := Advance(w.server, w.writes[i], action, w.settings).0;
            id in s.carousels ==> id in w.server.carousels && s.carousels[id].rows == w.server.carousels[id].rows
  {
  }

  // --- runs in which every save of a carousel removes what was there --------------------------

  ghost predicate Undisturbed(w: World, events: seq<Event>, id: int)
    requires Configured(w)
  {
    events != [] ==>
      var init := events[..|events| - 1];
      Undisturbed(w, init, id) && !LeavesRows(Run(w, init), events[|events| - 1], id)
  }

  /** The deck carousel `id` should hold after `e`, if it should hold `deck` before. */
  function Saved(w: World, e: Event, id: int, deck: seq<SlideWrite>): seq<SlideWrite> {
    if CommitsSave(w, e, id) || CommitsCreate(w, e, id) then w.writes[e.i].deck else deck
  }

  /** The deck of the last create or save of carousel `id` that committed. */
  ghost function LastSaved(w: World, events: seq<Event>, id: int): seq<SlideWrite>
    requires Configured(w)
  {
    if events == [] then []
    else
      var init := events[..|events| - 1];
      Saved(Run(w, init), events[|events| - 1], id, LastSaved(w, init, id))
  }

  ghost function IsGood(): seq<SlideWrite> -> bool {
    deck => Good(deck)
  }

  /** Carousel `id` holds exactly `deck`, and that and every deck on its way under the id is good. */
  ghost predicate DecksFor(w: World, id: int, deck: seq<SlideWrite>) {
    && (id in w.server.carousels ==> StoredAs(w.server.carousels[id].rows, deck) && Good(deck))
    && Travelling(w, id, IsGood())
    && forall i :: 0 <= i < |w.writes| && w.writes[i].Ready? && w.writes[i].id == id ==> Good(w.writes[i].deck)
  }

  lemma EditsKeepGood()
    ensures KeptByEdits(IsGood())
  {
    forall deck, e | Good(AsWrites(deck)) ensures Good(AsWrites(ApplyEdit(deck, e))) {
      EditKeepsGood(deck, e);
    }
    forall slides | Good(AsWrites(slides)) ensures Good(AsWrites(CleanAll(slides))) {
      CleanKeepsGood(slides);
    }
  }

  /** The deck an add loads is good, so the one it will commit is. */
  lemma LoadedAddIsGood(w: World, i: nat, listing: seq<SlideRow>, id: int, deck: seq<SlideWrite>)
    requires Ordered(w) && DecksFor(w, id, deck) && i < |w.writes|
    requires w.writes[i].AddResolved? && w.writes[i].id == id && IsListing(SlideTable(w.server, id), listing)
    ensures var write := LoadAdd(Slides(listing), w.writes[i], w.settings);
            write.Ready? ==> Good(write.deck)
  {
    var before, stories := Slides(listing), w.writes[i].stories;
    ListingIsGood(w, id, deck, listing);
    assert StoriesFit(w.writes[i]);
    forall a ensures CountId(NotYet(stories, StoryIds(before)), a) <= 1 {
      NotYetCounts(stories, StoryIds(before), a);
    }
    forall a | a in StoryIds(before) ensures CountId(NotYet(stories, StoryIds(before)), a) == 0 {
      NotYetCounts(stories, StoryIds(before), a);
    }
    if LoadAdd(before, w.writes[i], w.settings).Ready? {
      InsertKeepsGood(before, NotYet(stories, StoryIds(before)), w.settings);
    }
  }

  lemma ListingIsGood(w: World, id: int, deck: seq<SlideWrite>, listing: seq<SlideRow>)
    requires DecksFor(w, id, deck) && IsListing(SlideTable(w.server, id), listing)
    ensures Good(Slides(listing))
  {
    if id in w.server.carousels {
      StoredDeckReloads(w.server.carousels[id].rows, deck, listing);
    } else {
      ListingSize(listing);
    }
  }

  lemma ReadyStaysGood(w: World, i: nat, action: Action, id: int, deck: seq<SlideWrite>)
    requires Ordered(w) && DecksFor(w, id, deck) && i < |w.writes|
    ensures var write := Advance(w.server, w.writes[i], action, w.settings).1;
            write.Ready? && write.id == id ==> Good(write.deck)
  {
    var write := w.writes[i];
    if write.AddResolved? && write.id == id && action.Loads? && IsListing(SlideTable(w.server, id), action.listing) {
      LoadedAddIsGood(w, i, action.listing, id, deck);
    }
  }

  lemma RowsAreAsSaved(w: World, e: Event, id: int, deck: seq<SlideWrite>)
    requires Ordered(w) && DecksFor(w, id, deck) && !LeavesRows(w, e, id)
    ensures id in Next(w, e).server.carousels ==>
              StoredAs(Next(w, e).server.carousels[id].rows, Saved(w, e, id, deck)) && Good(Saved(w, e, id, deck))
  {
    if CommitsSave(w, e, id) {
      CleanSaveStores(w.server.carousels[id].rows, w.writes[e.i].held, w.writes[e.i].deck, w.server.nextRow);
    } else if CommitsCreate(w, e, id) {
      assert StoriesFit(w.writes[e.i]);
    } else {
      RowsStay(w, e, id);
    }
  }

  lemma NextKeepsDecks(w: World, e: Event, id: int, deck: seq<SlideWrite>)
    requires Ordered(w) && DecksFor(w, id, deck) && !LeavesRows(w, e, id)
    ensures DecksFor(Next(w, e), id, Saved(w, e, id, deck))
  {
    EditsKeepGood();
    RowsAreAsSaved(w, e, id, deck);
    if e.Reads? && e.id == id && id in w.server.carousels && IsListing(w.server.carousels[id].rows, e.listing) {
      ListingIsGood(w, id, deck, e.listing);
    }
    NextKeepsTravelling(w, e, id, IsGood());
    if e.Acts? && e.i < |w.writes| {
      ReadyStaysGood(w, e.i, e.action, id, deck);
    }
  }

  lemma {:induction false} RunKeepsDecks(settings: Settings, events: seq<Event>, id: int)
    requires Configured(Initial(settings)) && Undisturbed(Initial(settings), events, id)
    ensures Ordered(Run(Initial(settings), events))
    ensures DecksFor(Run(Initial(settings), events), id, LastSaved(Initial(settings), events, id))
  {
    if events != [] {
      var n := |events| - 1;
      RunKeepsDecks(settings, events[..n], id);
      var before := Run(Initial(settings), events[..n]);
      NextKeepsOrder(before, events[n]);
      NextKeepsDecks(before, events[n], id, LastSaved(Initial(settings), events[..n], id));
    }
  }

  /**
   Over every run in which no save of carousel `id` left rows behind, whatever else overlaps: a load
   returns the deck last saved, at positions 0, 1, 2, ...; that deck, and every deck on screen, in a
   tab's storage or in flight under the id, has at most ten slides, two of them brackets at most, and
   no article twice.
   */
  lemma DecksStaySound(settings: Settings, events: seq<Event>, id: int, listing: seq<SlideRow>)
    requires Configured(Initial(settings)) && Undisturbed(Initial(settings), events, id)
    ensures var w, deck := Run(Initial(settings), events), LastSaved(Initial(settings), events, id);
            && (id in w.server.carousels && IsListing(w.server.carousels[id].rows, listing) ==>
                  && Slides(listing) == deck && Good(deck)
                  && forall i :: 0 <= i < |listing| ==> listing[i].position == i)
            && (forall i :: 0 <= i < |w.replies| && w.replies[i].id == id ==> Good(AsWrites(w.replies[i].slides)))
            && (forall k :: 0 <= k < |w.puts| && w.puts[k].id == id ==> Good(w.puts[k].body))
            && (forall t :: 0 <= t < |w.tabs| && w.tabs[t].carouselId == Some(id) ==> Good(AsWrites(w.tabs[t].deck)))
            && (forall t :: 0 <= t < |w.tabs| && w.tabs[t].storage.id == Some(id) ==>
                  Good(AsWrites(w.tabs[t].storage.deck)))
  {
    RunKeepsDecks(settings, events, id);
    var w, deck := Run(Initial(settings), events), LastSaved(Initial(settings), events, id);
    if id in w.server.carousels && IsListing(w.server.carousels[id].rows, listing) {
      StoredDeckReloads(w.server.carousels[id].rows, deck, listing);
    }
  }

  // --- no two writes at once is enough --------------------------------------------------------

  /** At most one request that will write to carousel `id` is in progress. */
  ghost predicate OneWriter(w: World, id: int) {
    forall i, j :: 0 <= i < j < |w.writes| && Target(w.writes[i]) == Some(id) ==> Target(w.writes[j]) != Some(id)
  }

  ghost predicate NeverOverlaps(w: World, events: seq<Event>, id: int)
    requires Configured(w)
  {
    OneWriter(Run(w, events), id) && (events != [] ==> NeverOverlaps(w, events[..|events| - 1], id))
  }

  /** Whoever is about to write to carousel `id` has loaded the rows that are there. */
  ghost predicate HeldIsCurrent(w: World, id: int) {
    id in w.server.carousels ==>
      forall i :: 0 <= i < |w.writes| && Target(w.writes[i]) == Some(id) ==>
        Held(w.writes[i]) == w.server.carousels[id].rows
  }

  function Held(w: Write): set<SlideRow>
    requires Target(w).Some?
  {
    w.held
  }

  lemma ActKeepsHeld(w: World, i: nat, action: Action, id: int)
    requires Ordered(w) && OneWriter(w, id) && HeldIsCurrent(w, id) && i < |w.writes|
    ensures HeldIsCurrent(Next(w, Acts(i, action)), id)
  {
    var e := Acts(i, action);
    if CommitsCreate(w, e, id) {
      NothingTravels(w, id, IsGood());
    } else if !CommitsSave(w, e, id) {
      RowsStay(w, e, id);
    }
  }

  lemma NextKeepsHeld(w: World, e: Event, id: int)
    requires Ordered(w) && OneWriter(w, id) && HeldIsCurrent(w, id)
    ensures HeldIsCurrent(Next(w, e), id)
    ensures !LeavesRows(w, e, id)
  {
    if e.Acts? {
      if e.i < |w.writes| {
        ActKeepsHeld(w, e.i, e.action, id);
      }
    } else {
      RowsStay(w, e, id);
    }
  }

  /** When no two requests that write to a carousel are in progress at once, none leaves rows behind. */
  lemma {:induction false} NoOverlapIsUndisturbed(settings: Settings, events: seq<Event>, id: int)
    requires Configured(Initial(settings)) && NeverOverlaps(Initial(settings), events, id)
    ensures Undisturbed(Initial(settings), events, id)
    ensures Ordered(Run(Initial(settings), events)) && HeldIsCurrent(Run(Initial(settings), events), id)
  {
    if events != [] {
      var n := |events| - 1;
      NoOverlapIsUndisturbed(settings, events[..n], id);
      var before := Run(Initial(settings), events[..n]);
      NextKeepsOrder(before, events[n]);
      NextKeepsHeld(before, events[n], id);
    }
  }

  // --- what an overlap does -------------------------------------------------------------------

  lemma CommittedRows(s: Server, w: Write)
    requires w.Ready? && w.id in s.carousels
    ensures var s2 := CommitSave(s, w).0;
            && w.id in s2.carousels && s2.nextRow == s.nextRow + |w.deck|
            && s2.carousels[w.id].rows == SaveDeck(s.carousels[w.id].rows, w.held, w.deck, s.nextRow)
  {
  }

  /** The rows of two decks saved one after the other, neither removing the other's. */
  function BothRows(first: seq<SlideWrite>, second: seq<SlideWrite>, next: nat): set<SlideRow> {
    SetOf(NewRows(first, next)) + SetOf(NewRows(second, next + |first|))
  }

  lemma TwoCommits(s: Server, a: Write, b: Write)
    requires a.Ready? && b.Ready? && a.id == b.id && a.id in s.carousels && FreshIds(s.carousels[a.id].rows, s.nextRow)
    requires a.held == b.held == s.carousels[a.id].rows
    ensures var s2 := CommitSave(CommitSave(s, a).0, b).0;
            && a.id in s2.carousels && s2.carousels[a.id].rows == BothRows(a.deck, b.deck, s.nextRow)
            && |s2.carousels[a.id].rows| == |a.deck| + |b.deck|
  {
    hide CommitSave, SaveDeck, SetOf, NewRows;
    var s1 := CommitSave(s, a).0;
    CommittedRows(s, a);
    CommittedRows(s1, b);
    BothDecksLand(s.carousels[a.id].rows, a.deck, b.deck, s.nextRow);
  }

  lemma TooLongIsNotGood(rows: set<SlideRow>, listing: seq<SlideRow>)
    requires IsListing(rows, listing) && |rows| > MAX_SLIDES
    ensures !Good(Slides(listing))
  {
    ListingSize(listing);
  }

  lemma TwoEvents(w: World, i: nat, j: nat, id: int)
    requires Ordered(w) && i < |w.writes| && j < |w.writes| && i != j
    requires CommitsSave(w, Acts(i, Commits), id) && CommitsSave(w, Acts(j, Commits), id)
    ensures Next(Next(w, Acts(i, Commits)), Acts(j, Commits)).server
         == CommitSave(CommitSave(w.server, w.writes[i]).0, w.writes[j]).0
  {
    hide CommitSave;
    assert Next(w, Acts(i, Commits)).writes[j] == w.writes[j];
  }

  /** Two saves about to commit that loaded the same rows: afterwards both decks are in the table. */
  lemma OverlappingSavesBothLand(w: World, i: nat, j: nat, id: int, listing: seq<SlideRow>)
    requires Ordered(w) && i < |w.writes| && j < |w.writes| && i != j
    requires CommitsSave(w, Acts(i, Commits), id) && CommitsSave(w, Acts(j, Commits), id)
    requires w.writes[i].held == w.writes[j].held == w.server.carousels[id].rows
    ensures var rows := SlideTable(Next(Next(w, Acts(i, Commits)), Acts(j, Commits)).server, id);
            var first, second := w.writes[i].deck, w.writes[j].deck;
            && rows == BothRows(first, second, w.server.nextRow)
            && (IsListing(rows, listing) && |first| + |second| > MAX_SLIDES ==> !Good(Slides(listing)))
  {
    hide CommitSave, Next, BothRows, Good;
    TwoEvents(w, i, j, id);
    TwoCommits(w.server, w.writes[i], w.writes[j]);
    var rows := SlideTable(Next(Next(w, Acts(i, Commits)), Acts(j, Commits)).server, id);
    if IsListing(rows, listing) && |w.writes[i].deck| + |w.writes[j].deck| > MAX_SLIDES {
      TooLongIsNotGood(rows, listing);
    }
  }

  /** Any two saves of one carousel that the server accepts can overlap so. */
  lemma OverlapsHappen(w: World, k: nat, l: nat)
    requires Ordered(w) && k < |w.puts| && l < |w.puts|
    requires w.puts[k].id == w.puts[l].id && w.puts[k].id in w.server.carousels
    requires WellFormed(w.puts[k].body) && StoryIds(w.puts[k].body) <= w.server.articles.Keys
    requires WellFormed(w.puts[l].body) && StoryIds(w.puts[l].body) <= w.server.articles.Keys
    ensures var i, id := |w.writes|, w.puts[k].id;
            var w2 := Next(Next(Next(Next(w, Begins(PutRequest(k))), Begins(PutRequest(l))), Acts(i, Proceeds)),
                           Acts(i + 1, Proceeds));
            && Ordered(w2) && w2.server == w.server
            && CommitsSave(w2, Acts(i, Commits), id) && CommitsSave(w2, Acts(i + 1, Commits), id)
            && w2.writes[i].deck == w.puts[k].body && w2.writes[i + 1].deck == w.puts[l].body
            && w2.writes[i].held == w2.writes[i + 1].held == w.server.carousels[id].rows
  {
    var i := |w.writes|;
    var a := Next(w, Begins(PutRequest(k)));
    NextKeepsOrder(w, Begins(PutRequest(k)));
    var b := Next(a, Begins(PutRequest(l)));
    NextKeepsOrder(a, Begins(PutRequest(l)));
    var c := Next(b, Acts(i, Proceeds));
    NextKeepsOrder(b, Acts(i, Proceeds));
    NextKeepsOrder(c, Acts(i + 1, Proceeds));
  }
}

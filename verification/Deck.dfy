/**
 Slides and decks: what the canvas edits, what an autosave carries, and how a deck is stored as rows
 (app/schemas/carousel.py, `save_deck` and `load_deck` of app/services/carousel.py).
 */
module Deck {
  import opened Common

  type Id = string

  datatype Kind = Intro | Story | Cta

  /** What the inspector shows about the article behind a slide; never stored. */
  datatype Card = Card(sourceName: Option<string>, url: Option<string>, category: Option<string>, score: Option<real>)

  datatype Slide = Slide(kind: Kind, storyId: Option<Id>, text: string, clipped: bool, card: Card)

  datatype SlideWrite = SlideWrite(kind: Kind, storyId: Option<Id>, text: string, clipped: bool)

  const CAROUSEL_MAX_STORIES: nat := 8
  const MAX_SLIDES: nat := 10
  const TEXT_MAX: nat := 120

  const BLANK_CARD: Card := Card(None, None, None, None)

  function AsWrite(s: Slide): SlideWrite {
    SlideWrite(s.kind, s.storyId, s.text, s.clipped)
  }

  function AsWrites(deck: seq<Slide>): (r: seq<SlideWrite>)
    ensures |r| == |deck|
    ensures forall i :: 0 <= i < |deck| ==> r[i] == AsWrite(deck[i])
  {
    seq(|deck|, i requires 0 <= i < |deck| => AsWrite(deck[i]))
  }

  // --- what a good deck is --------------------------------------------------------------------

  function Count(deck: seq<SlideWrite>, p: SlideWrite -> bool): nat {
    if deck == [] then 0 else (if p(deck[0]) then 1 else 0) + Count(deck[1..], p)
  }

  function IsBracket(): SlideWrite -> bool {
    (s: SlideWrite) => s.kind != Story
  }

  function Names(id: Id): SlideWrite -> bool {
    (s: SlideWrite) => s.storyId == Some(id)
  }

  function StoryIds(deck: seq<SlideWrite>): set<Id> {
    set s | s in deck && s.storyId.Some? :: s.storyId.value
  }

  /** A deck the zip endpoint takes, with no article on it twice. */
  ghost predicate Good(deck: seq<SlideWrite>) {
    && |deck| <= MAX_SLIDES
    && Count(deck, IsBracket()) <= 2
    && forall id :: Count(deck, Names(id)) <= 1
  }

  lemma {:induction false} CountAppend(a: seq<SlideWrite>, b: seq<SlideWrite>, p: SlideWrite -> bool)
    ensures Count(a + b, p) == Count(a, p) + Count(b, p)
  {
    if a == [] {
      assert a + b == b;
    } else {
      assert (a + b)[1..] == a[1..] + b;
      CountAppend(a[1..], b, p);
    }
  }

  lemma CountOne(s: SlideWrite, p: SlideWrite -> bool)
    ensures Count([s], p) == if p(s) then 1 else 0
  {
    assert [s][1..] == [];
  }

  lemma {:induction false} CountNames(deck: seq<SlideWrite>, id: Id)
    ensures Count(deck, Names(id)) > 0 <==> id in StoryIds(deck)
  {
    if deck != [] {
      CountNames(deck[1..], id);
      assert deck == [deck[0]] + deck[1..];
    }
  }

  /** Good slides `a + b` with `m` put in between, counted piece by piece. */
  lemma CountMiddle(a: seq<SlideWrite>, m: seq<SlideWrite>, b: seq<SlideWrite>, p: SlideWrite -> bool)
    ensures Count(a + m + b, p) == Count(a, p) + Count(m, p) + Count(b, p)
  {
    CountAppend(a, m, p);
    CountAppend(a + m, b, p);
  }

  lemma AsWritesAppend(a: seq<Slide>, b: seq<Slide>)
    ensures AsWrites(a + b) == AsWrites(a) + AsWrites(b)
  {
  }

  lemma AsWritesThree(a: seq<Slide>, s: Slide, b: seq<Slide>)
    ensures AsWrites(a + [s] + b) == AsWrites(a) + [AsWrite(s)] + AsWrites(b)
  {
    AsWritesAppend(a + [s], b);
    AsWritesAppend(a, [s]);
    assert AsWrites([s]) == [AsWrite(s)];
  }

  // --- storage --------------------------------------------------------------------------------

  /** A row of carousel_slides of one carousel. */
  datatype SlideRow = SlideRow(rowId: nat, position: nat, slide: SlideWrite)

  /** The rows `save_deck` builds: positions dense from 0. Row ids are assigned from `nextId` up. */
  function NewRows(deck: seq<SlideWrite>, nextId: nat): (rows: seq<SlideRow>)
    ensures |rows| == |deck|
    ensures forall i :: 0 <= i < |deck| ==> rows[i] == SlideRow(nextId + i, i, deck[i])
  {
    seq(|deck|, i requires 0 <= i < |deck| => SlideRow(nextId + i, i, deck[i]))
  }

  function SetOf(rows: seq<SlideRow>): set<SlideRow> {
    set r | r in rows
  }

  /** Replacing the collection deletes the rows the request loaded, `held`, and inserts the new ones. */
  function SaveDeck(table: set<SlideRow>, held: set<SlideRow>, deck: seq<SlideWrite>, nextId: nat): set<SlideRow> {
    (table - held) + SetOf(NewRows(deck, nextId))
  }

  /** `SELECT ... ORDER BY position`: each row once, positions ascending, ties in any order. */
  ghost predicate IsListing(table: set<SlideRow>, listing: seq<SlideRow>) {
    && SetOf(listing) == table
    && (forall i, j :: 0 <= i < j < |listing| ==> listing[i] != listing[j])
    && (forall i, j :: 0 <= i < j < |listing| ==> listing[i].position <= listing[j].position)
  }

  function Slides(listing: seq<SlideRow>): (r: seq<SlideWrite>)
    ensures |r| == |listing|
    ensures forall i :: 0 <= i < |listing| ==> r[i] == listing[i].slide
  {
    seq(|listing|, i requires 0 <= i < |listing| => listing[i].slide)
  }

  ghost predicate FreshIds(table: set<SlideRow>, nextId: nat) {
    forall r :: r in table ==> r.rowId < nextId
  }

  lemma {:induction false} ListingSize(listing: seq<SlideRow>)
    requires forall i, j :: 0 <= i < j < |listing| ==> listing[i] != listing[j]
    ensures |SetOf(listing)| == |listing|
  {
    if listing != [] {
      var n := |listing| - 1;
      assert listing == listing[..n] + [listing[n]];
      ListingSize(listing[..n]);
      assert SetOf(listing) == SetOf(listing[..n]) + {listing[n]};
      assert listing[n] !in SetOf(listing[..n]);
    }
  }

  /** A listing of exactly the saved rows has row `i` at place `i`: positions start no later and never tie. */
  lemma {:induction false} ListingOfSavedRows(deck: seq<SlideWrite>, nextId: nat, listing: seq<SlideRow>, i: nat)
    requires IsListing(SetOf(NewRows(deck, nextId)), listing) && i < |listing|
    ensures |listing| == |deck| && listing[i] == NewRows(deck, nextId)[i]
  {
    var rows := NewRows(deck, nextId);
    ListingSize(listing);
    ListingSize(rows);
    assert listing[i] in SetOf(listing) && listing[i] in rows;
    var p := listing[i].position;
    assert listing[i] == rows[p];
    PositionsAscend(rows, listing, i);
    PositionsLeaveRoom(rows, listing, i);
  }

  lemma {:induction false} PositionsAscend(rows: seq<SlideRow>, listing: seq<SlideRow>, i: nat)
    requires forall k :: 0 <= k < |rows| ==> rows[k].position == k
    requires IsListing(SetOf(rows), listing) && i < |listing|
    ensures listing[i].position >= i
    decreases i
  {
    assert listing[i] in SetOf(rows);
    if i > 0 {
      PositionsAscend(rows, listing, i - 1);
      assert listing[i - 1] in SetOf(rows);
      assert listing[i - 1] == rows[listing[i - 1].position] && listing[i] == rows[listing[i].position];
    }
  }

  lemma {:induction false} PositionsLeaveRoom(rows: seq<SlideRow>, listing: seq<SlideRow>, i: nat)
    requires forall k :: 0 <= k < |rows| ==> rows[k].position == k
    requires IsListing(SetOf(rows), listing) && |listing| == |rows| && i < |listing|
    ensures listing[i].position <= i
    decreases |listing| - i
  {
    assert listing[i] in SetOf(rows);
    if i + 1 < |listing| {
      PositionsLeaveRoom(rows, listing, i + 1);
      assert listing[i + 1] in SetOf(rows);
      assert listing[i] == rows[listing[i].position] && listing[i + 1] == rows[listing[i + 1].position];
    }
  }

  /**
   Loading after a save returns the deck that was saved, at positions 0, 1, 2, ..., exactly when the
   save deleted everything that was there: when no other save of this carousel committed rows
   between this request's load and its commit.
   */
  lemma SaveThenLoadIff(
      table: set<SlideRow>, held: set<SlideRow>, deck: seq<SlideWrite>, nextId: nat, listing: seq<SlideRow>)
    requires FreshIds(table, nextId) && IsListing(SaveDeck(table, held, deck, nextId), listing)
    ensures (Slides(listing) == deck && forall i :: 0 <= i < |listing| ==> listing[i].position == i)
       <==> table <= held
  {
    var rows := NewRows(deck, nextId);
    var left := table - held;
    ListingSize(listing);
    ListingSize(rows);
    if table <= held {
      assert left == {};
      assert SaveDeck(table, held, deck, nextId) == SetOf(rows);
      forall i | 0 <= i < |listing| ensures listing[i] == rows[i] {
        ListingOfSavedRows(deck, nextId, listing, i);
      }
    } else {
      var r :| r in table && r !in held;
      assert r in left;
      forall x | x in left ensures x !in SetOf(rows) {
        assert x.rowId < nextId;
      }
      assert |left + SetOf(rows)| == |left| + |SetOf(rows)|;
      assert |left| > 0;
      assert |Slides(listing)| > |deck|;
    }
  }

  /** The table holds exactly the rows some save of `deck` built. */
  ghost predicate StoredAs(table: set<SlideRow>, deck: seq<SlideWrite>) {
    exists n: nat :: table == SetOf(NewRows(deck, n))
  }

  lemma CleanSaveStores(table: set<SlideRow>, held: set<SlideRow>, deck: seq<SlideWrite>, nextId: nat)
    requires table <= held
    ensures StoredAs(SaveDeck(table, held, deck, nextId), deck)
  {
    assert SaveDeck(table, held, deck, nextId) == SetOf(NewRows(deck, nextId));
  }

  /** However the database orders ties, a load returns the deck, at positions 0, 1, 2, ... */
  lemma StoredDeckReloads(table: set<SlideRow>, deck: seq<SlideWrite>, listing: seq<SlideRow>)
    requires StoredAs(table, deck) && IsListing(table, listing)
    ensures Slides(listing) == deck && forall i :: 0 <= i < |listing| ==> listing[i].position == i
  {
    var n: nat :| table == SetOf(NewRows(deck, n));
    ListingSize(listing);
    ListingSize(NewRows(deck, n));
    forall i | 0 <= i < |listing| ensures listing[i] == NewRows(deck, n)[i] {
      ListingOfSavedRows(deck, n, listing, i);
    }
  }

  /** A save leaves the rows it did not hold, and its own. */
  lemma SavedSize(table: set<SlideRow>, held: set<SlideRow>, deck: seq<SlideWrite>, nextId: nat)
    requires FreshIds(table, nextId)
    ensures |SaveDeck(table, held, deck, nextId)| == |table - held| + |deck|
  {
    var rows := NewRows(deck, nextId);
    ListingSize(rows);
    forall r | r in table - held ensures r !in SetOf(rows) {
      assert r.rowId < nextId;
    }
    assert table - held !! SetOf(rows);
  }

  /** Two overlapping saves leave both decks in the table. */
  lemma BothDecksLand(before: set<SlideRow>, first: seq<SlideWrite>, second: seq<SlideWrite>, nextId: nat)
    requires FreshIds(before, nextId)
    ensures var once := SaveDeck(before, before, first, nextId);
            var twice := SaveDeck(once, before, second, nextId + |first|);
            twice == SetOf(NewRows(first, nextId)) + SetOf(NewRows(second, nextId + |first|))
            && |twice| == |first| + |second|
  {
    var a, b := NewRows(first, nextId), NewRows(second, nextId + |first|);
    ListingSize(a);
    ListingSize(b);
    forall r | r in SetOf(a) ensures r !in before && r !in SetOf(b) {
    }
    assert SetOf(a) !! SetOf(b);
    var once := SaveDeck(before, before, first, nextId);
    assert once == SetOf(a);
    assert once - before == SetOf(a);
    assert |SetOf(a) + SetOf(b)| == |SetOf(a)| + |SetOf(b)|;
  }
}

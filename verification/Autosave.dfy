/**
 Autosave safety of app/static/js/slides.js, over every run of one tab: what a PUT may carry, and
 that no edit is left without a save on the way.
 */
module Autosave {
  import opened Common
  import opened Deck
  import opened SlidesStore

  datatype Event =
    | Loaded(id: int, slides: seq<Slide>, ok: bool)
    | Edited(edit: Edit, ok: bool)
    | Cleared(ok: bool)
    | Fired
    | Replied(id: int, now: int)
    | Reloaded

  /** The tab and every PUT it has issued, oldest first. */
  datatype State = State(tab: Tab, puts: seq<Put>)

  function Next(s: State, e: Event): State {
    match e
    case Loaded(id, slides, ok) => s.(tab := LoadTab(s.tab, id, slides, ok))
    case Edited(edit, ok) => s.(tab := EditTab(s.tab, edit, ok))
    case Cleared(ok) => s.(tab := ClearTab(s.tab, ok))
    case Fired => if CanSave(s.tab) then State(s.tab.(timer := false), s.puts + [SavePut(s.tab)]) else s
    case Replied(id, now) => s.(tab := ReplyTab(s.tab, id, now))
    case Reloaded => s.(tab := ReloadTab(s.tab))
  }

  function Run(s: State, events: seq<Event>): State {
    if events == [] then s else Next(Run(s, events[..|events| - 1]), events[|events| - 1])
  }

  const START: State := State(EMPTY_TAB, [])

  // --- a PUT carries the deck of the carousel it is addressed to ------------------------------

  /**
   `deck` is what some `load` of carousel `id` in this run delivered, changed by edits made after it
   in the order they were made.
   */
  ghost predicate Descends(events: seq<Event>, id: int, deck: seq<Slide>) {
    events != [] &&
    var n := |events| - 1;
    || Descends(events[..n], id, deck)
    || (events[n].Loaded? && events[n].id == id && deck == CleanAll(events[n].slides))
    || (events[n].Edited? && exists d :: Descends(events[..n], id, d) && deck == ApplyEdit(d, events[n].edit))
  }

  ghost predicate Owned(events: seq<Event>, id: Option<int>, deck: seq<Slide>) {
    id.Some? ==> Descends(events, id.value, deck)
  }

  ghost predicate Carries(events: seq<Event>, put: Put) {
    exists d :: Descends(events, put.id, d) && put.body == AsWrites(d)
  }

  ghost predicate Paired(events: seq<Event>, s: State) {
    && Owned(events, s.tab.carouselId, s.tab.deck)
    && Owned(events, s.tab.storage.id, s.tab.storage.deck)
    && IsClean(s.tab.storage.deck) && IsClean(s.tab.deck)
    && (s.tab.timer ==> s.tab.carouselId.Some?)
    && forall k :: 0 <= k < |s.puts| ==> Carries(events, s.puts[k])
  }

  ghost predicate IsClean(deck: seq<Slide>) {
    CleanAll(deck) == deck
  }

  lemma EditKeepsClean(deck: seq<Slide>, e: Edit)
    requires IsClean(deck)
    ensures IsClean(ApplyEdit(deck, e))
  {
    var after := ApplyEdit(deck, e);
    forall i | 0 <= i < |after| ensures Clean(after[i]) == after[i] {
      if Takes(deck, e) && e.SetText? && i == e.index.i {
      } else {
        assert after[i] == BLANK || after[i] in deck;
        if after[i] != BLANK {
          var j :| 0 <= j < |deck| && deck[j] == after[i];
          assert CleanAll(deck)[j] == deck[j];
        }
      }
    }
  }

  lemma CarriesLonger(events: seq<Event>, e: Event, put: Put)
    requires Carries(events, put)
    ensures Carries(events + [e], put)
  {
    assert (events + [e])[..|events|] == events;
  }

  lemma NextKeepsPaired(events: seq<Event>, s: State, e: Event)
    requires Paired(events, s)
    ensures Paired(events + [e], Next(s, e))
  {
    var s', longer := Next(s, e), events + [e];
    assert longer[..|events|] == events;
    forall k | 0 <= k < |s.puts| ensures Carries(longer, s.puts[k]) {
      CarriesLonger(events, e, s.puts[k]);
    }
    match e
    case Loaded(id, slides, ok) =>
      CleanTwice(slides);
    case Edited(edit, ok) =>
      EditKeepsClean(s.tab.deck, edit);
    case Cleared(ok) =>
      assert CleanAll([]) == [];
    case Fired =>
    case Replied(id, now) =>
    case Reloaded =>
  }

  lemma CleanTwice(slides: seq<Slide>)
    ensures IsClean(CleanAll(slides))
  {
    assert forall i :: 0 <= i < |slides| ==> Clean(Clean(slides[i])) == Clean(slides[i]);
  }

  /**
   In every run, each PUT carries a deck that came from a load of the very carousel it is addressed
   to, through edits made since; so does the deck on screen, and the copy a page reload brings back.
   */
  lemma {:induction false} PutsGoWhereTheyBelong(events: seq<Event>)
    ensures Paired(events, Run(START, events))
  {
    if events == [] {
      assert CleanAll([]) == [];
    } else {
      var n := |events| - 1;
      PutsGoWhereTheyBelong(events[..n]);
      NextKeepsPaired(events[..n], Run(START, events[..n]), events[n]);
      assert events[..n] + [events[n]] == events;
    }
  }

  // --- what happens to one edit ---------------------------------------------------------------

  /** The tab before event `n` of a run. */
  function TabAt(events: seq<Event>, n: nat): Tab
    requires n <= |events|
  {
    Run(START, events[..n]).tab
  }

  lemma TabSteps(events: seq<Event>, n: nat)
    requires n < |events|
    ensures Run(START, events[..n + 1]) == Next(Run(START, events[..n]), events[n])
  {
    assert events[..n + 1][..n] == events[..n];
  }

  /** Event `m` is an edit that changes the deck, and the deck belongs to a carousel. */
  predicate Accepted(events: seq<Event>, m: nat)
    requires m < |events|
  {
    events[m].Edited? && Takes(TabAt(events, m).deck, events[m].edit) && TabAt(events, m).carouselId.Some?
  }

  /** Event `k` replaces the deck: a load, a page reload, or a clear with something to clear. */
  predicate Replaces(events: seq<Event>, k: nat)
    requires k < |events|
  {
    events[k].Loaded? || events[k].Reloaded? || (events[k].Cleared? && TabAt(events, k).deck != [])
  }

  /** Event `k` ends the wait for the timer: it fires, or the deck is replaced. */
  predicate Stops(events: seq<Event>, k: nat)
    requires k < |events|
  {
    events[k].Fired? || Replaces(events, k)
  }

  /** No event after `m` and before `n` ended the wait. */
  ghost predicate Waits(events: seq<Event>, m: nat, n: nat)
    requires n <= |events|
  {
    forall k: nat :: m < k < n ==> !Stops(events, k)
  }

  /** An edit before `n` is still waiting for the timer. */
  ghost predicate Unsaved(events: seq<Event>, n: nat)
    requires n <= |events|
  {
    exists m: nat :: m < n && Accepted(events, m) && Waits(events, m, n)
  }

  /**
   In every run, a save is pending exactly while an edit made under a carousel has met no firing and
   no replacement of the deck since.
   */
  lemma {:induction false} TimerIff(events: seq<Event>, n: nat)
    requires n <= |events|
    ensures TabAt(events, n).timer <==> Unsaved(events, n)
    ensures TabAt(events, n).timer ==> CanSave(TabAt(events, n))
  {
    if n > 0 {
      var p := n - 1;
      TimerIff(events, p);
      TabSteps(events, p);
      if Accepted(events, p) {
        assert Waits(events, p, n);
      } else if !Stops(events, p) {
        if Unsaved(events, p) {
          var m: nat :| m < p && Accepted(events, m) && Waits(events, m, p);
          assert Waits(events, m, n);
        }
        if Unsaved(events, n) {
          var m: nat :| m < n && Accepted(events, m) && Waits(events, m, n);
          assert Waits(events, m, p);
        }
      }
    }
  }

  function Replay(deck: seq<Slide>, edits: seq<Edit>): seq<Slide> {
    if edits == [] then deck else ApplyEdit(Replay(deck, edits[..|edits| - 1]), edits[|edits| - 1])
  }

  lemma ReplayOneMore(deck: seq<Slide>, edits: seq<Edit>, e: Edit)
    ensures Replay(deck, edits + [e]) == ApplyEdit(Replay(deck, edits), e)
  {
    assert (edits + [e])[..|edits|] == edits;
  }

  /**
   Where the work up to edit `m` is, just before event `n`: the edits made on top of it in the deck
   on screen and in the copy in storage, or None where it is gone.
   */
  datatype Trace = Trace(screen: Option<seq<Edit>>, stored: Option<seq<Edit>>)

  function Copied(ok: bool, screen: Option<seq<Edit>>, stored: Option<seq<Edit>>): Trace {
    Trace(screen, if ok then screen else stored)
  }

  function NextTrace(t: Trace, tab: Tab, e: Event): Trace {
    match e
    case Loaded(_, _, ok) => Copied(ok, None, t.stored)
    case Edited(edit, ok) =>
      if !Takes(tab.deck, edit) then t
      else Copied(ok, if t.screen.Some? then Some(t.screen.value + [edit]) else None, t.stored)
    case Cleared(ok) => if tab.deck == [] then t else Copied(ok, None, t.stored)
    case Fired => t
    case Replied(_, _) => t
    case Reloaded => Trace(t.stored, t.stored)
  }

  function TraceAt(events: seq<Event>, m: nat, n: nat): Trace
    requires m < n <= |events| && events[m].Edited?
  {
    if n == m + 1 then Copied(events[m].ok, Some([]), None)
    else NextTrace(TraceAt(events, m, n - 1), TabAt(events, n - 1), events[n - 1])
  }

  /** What a trace since the moment of tab `base` says is so of `now`: the decks, and the id they go with. */
  ghost predicate Tells(t: Trace, base: Tab, now: Tab) {
    && (t.screen.Some? ==> now.deck == Replay(base.deck, t.screen.value) && now.carouselId == base.carouselId)
    && (t.stored.Some? ==>
          now.storage.deck == Replay(base.deck, t.stored.value) && now.storage.id == base.carouselId)
  }

  lemma EditTells(t: Trace, base: Tab, s: State, edit: Edit, ok: bool)
    requires Tells(t, base, s.tab)
    ensures Tells(NextTrace(t, s.tab, Edited(edit, ok)), base, Next(s, Edited(edit, ok)).tab)
  {
    if t.screen.Some? {
      ReplayOneMore(base.deck, t.screen.value, edit);
    }
  }

  lemma NextTells(t: Trace, base: Tab, s: State, e: Event)
    requires Tells(t, base, s.tab) && IsClean(s.tab.storage.deck)
    ensures Tells(NextTrace(t, s.tab, e), base, Next(s, e).tab)
  {
    match e
    case Edited(edit, ok) => EditTells(t, base, s, edit, ok);
    case _ =>
  }

  lemma DecksAreClean(events: seq<Event>, n: nat)
    requires n <= |events|
    ensures IsClean(TabAt(events, n).deck) && IsClean(TabAt(events, n).storage.deck)
  {
    PutsGoWhereTheyBelong(events[..n]);
  }

  lemma TraceStarts(events: seq<Event>, m: nat)
    requires m < |events| && Accepted(events, m)
    ensures Tells(TraceAt(events, m, m + 1), TabAt(events, m + 1), TabAt(events, m + 1))
  {
    TabSteps(events, m);
  }

  lemma {:induction false} TraceIsTrue(events: seq<Event>, m: nat, n: nat)
    requires m < n <= |events| && Accepted(events, m)
    ensures Tells(TraceAt(events, m, n), TabAt(events, m + 1), TabAt(events, n))
  {
    hide Tells, Next, NextTrace;
    if n == m + 1 {
      TraceStarts(events, m);
    } else {
      TraceIsTrue(events, m, n - 1);
      DecksAreClean(events, n - 1);
      TabSteps(events, n - 1);
      NextTells(TraceAt(events, m, n - 1), TabAt(events, m + 1), Run(START, events[..n - 1]), events[n - 1]);
    }
  }

  /** A save that goes out after edit `m` carries it: the deck sent is the one then, with later edits. */
  ghost predicate SentBy(events: seq<Event>, m: nat, j: nat)
    requires j < |events|
  {
    m < j && events[m].Edited? && events[j].Fired? && TabAt(events, j).timer && TraceAt(events, m, j).screen.Some?
  }

  lemma SentMeansPut(events: seq<Event>, m: nat, j: nat)
    requires j < |events| && m < j && Accepted(events, m) && SentBy(events, m, j)
    ensures var before, after := Run(START, events[..j]), Run(START, events[..j + 1]);
            var edited := TabAt(events, m + 1);
            && edited.carouselId.Some?
            && after.puts == before.puts + [Put(edited.carouselId.value,
                                                AsWrites(Replay(edited.deck, TraceAt(events, m, j).screen.value)))]
  {
    TabSteps(events, j);
    TabSteps(events, m);
    TraceIsTrue(events, m, j);
    TimerIff(events, j);
  }

  /** The deck is not replaced from event `from` up to event `n`. */
  ghost predicate Untouched(events: seq<Event>, from: nat, n: nat)
    requires n <= |events|
  {
    forall k: nat :: from <= k < n ==> !Replaces(events, k)
  }

  lemma WaitsUntouched(events: seq<Event>, m: nat, n: nat)
    requires n <= |events| && Waits(events, m, n)
    ensures Untouched(events, m + 1, n)
  {
    forall k: nat | m + 1 <= k < n ensures !Replaces(events, k) {
      assert !Stops(events, k);
    }
  }

  /** As long as nothing replaces the deck it has the edit. */
  lemma {:induction false} StaysOnScreen(events: seq<Event>, m: nat, from: nat, n: nat)
    requires m < from <= n <= |events| && events[m].Edited? && TraceAt(events, m, from).screen.Some?
    requires Untouched(events, from, n)
    ensures TraceAt(events, m, n).screen.Some?
    decreases n
  {
    if from < n {
      assert !Replaces(events, n - 1);
      StaysOnScreen(events, m, from, n - 1);
    }
  }

  /** Some edit at or after `m`, of a deck that has edit `m`, meets a firing before any replacement. */
  ghost predicate Fires(events: seq<Event>, m: nat, l: nat, j: nat)
    requires m < |events| && events[m].Edited?
  {
    && m <= l < j < |events| && Accepted(events, l)
    && TraceAt(events, m, l + 1).screen.Some? && Waits(events, l, j) && events[j].Fired?
  }

  /**
   An edit is sent exactly when the timer fires with no load, page reload or clear of slides since
   it, or since a later edit of a deck that still had it (a page reload may have brought it back).
   */
  lemma EditIsSentIff(events: seq<Event>, m: nat)
    requires m < |events| && Accepted(events, m)
    ensures (exists j: nat :: j < |events| && SentBy(events, m, j))
       <==> (exists l: nat, j: nat :: Fires(events, m, l, j))
  {
    if j: nat :| j < |events| && SentBy(events, m, j) {
      SentFires(events, m, j);
    }
    if l: nat, j: nat :| Fires(events, m, l, j) {
      FiringSends(events, m, l, j);
    }
  }

  lemma FiringSends(events: seq<Event>, m: nat, l: nat, j: nat)
    requires m < |events| && events[m].Edited? && Fires(events, m, l, j)
    ensures SentBy(events, m, j)
  {
    hide TabAt, Next, NextTrace;
    TimerIff(events, j);
    assert Unsaved(events, j);
    WaitsUntouched(events, l, j);
    StaysOnScreen(events, m, l + 1, j);
  }

  lemma SentFires(events: seq<Event>, m: nat, j: nat)
    requires m < j < |events| && Accepted(events, m) && SentBy(events, m, j)
    ensures exists l: nat :: Fires(events, m, l, j)
  {
    hide TabAt, Next, NextTrace;
    TimerIff(events, j);
    var l: nat :| l < j && Accepted(events, l) && Waits(events, l, j);
    if m <= l {
      WaitsUntouched(events, l, j);
      WasOnScreen(events, m, l + 1, j);
      assert Fires(events, m, l, j);
    } else {
      assert Waits(events, m, j);
      assert Fires(events, m, m, j);
    }
  }

  /** With nothing replacing the deck in between, it had the edit before if it has it now. */
  lemma {:induction false} WasOnScreen(events: seq<Event>, m: nat, from: nat, n: nat)
    requires m < from <= n <= |events| && events[m].Edited? && TraceAt(events, m, n).screen.Some?
    requires Untouched(events, from, n)
    ensures TraceAt(events, m, from).screen.Some?
    decreases n
  {
    if from < n {
      assert !Replaces(events, n - 1);
      WasOnScreen(events, m, from, n - 1);
    }
  }

  /**
   Without page reloads the rule is simple: an edit is lost exactly when a load or a clear of slides
   comes before the timer fires, or it has not fired yet.
   */
  lemma EditIsLostIff(events: seq<Event>, m: nat)
    requires m < |events| && Accepted(events, m)
    requires forall k :: m < k < |events| ==> !events[k].Reloaded?
    ensures !(exists j: nat :: j < |events| && SentBy(events, m, j))
       <==> forall j: nat :: m < j < |events| && events[j].Fired? ==> !Waits(events, m, j)
  {
    if j: nat :| j < |events| && SentBy(events, m, j) {
      NeverReplaced(events, m, j);
      FirstFiring(events, m, j);
    }
    if j: nat :| m < j < |events| && events[j].Fired? && Waits(events, m, j) {
      assert Fires(events, m, m, j);
      EditIsSentIff(events, m);
    }
  }

  lemma {:induction false} NeverReplaced(events: seq<Event>, m: nat, n: nat)
    requires m < n <= |events| && events[m].Edited? && TraceAt(events, m, n).screen.Some?
    requires forall k :: m < k < |events| ==> !events[k].Reloaded?
    ensures Untouched(events, m + 1, n)
  {
    if n > m + 1 {
      assert TraceAt(events, m, n - 1).screen.Some?;
      NeverReplaced(events, m, n - 1);
    }
  }

  lemma {:induction false} FirstFiring(events: seq<Event>, m: nat, j: nat)
    requires m < j < |events| && events[j].Fired?
    requires Untouched(events, m + 1, j)
    ensures exists f: nat :: m < f <= j && events[f].Fired? && Waits(events, m, f)
    decreases j
  {
    if k: nat :| m < k < j && events[k].Fired? {
      FirstFiring(events, m, k);
    } else {
      assert Waits(events, m, j);
    }
  }

  /** Where the edit still is, there is no id to save it under. */
  ghost predicate Unowned(t: Trace, tab: Tab) {
    && (t.screen.Some? ==> !tab.timer && tab.carouselId.None?)
    && (t.stored.Some? ==> tab.storage.id.None?)
  }

  lemma NextStaysUnowned(t: Trace, s: State, e: Event)
    requires Unowned(t, s.tab)
    ensures Unowned(NextTrace(t, s.tab, e), Next(s, e).tab)
  {
  }

  lemma UnownedAtFirst(events: seq<Event>, m: nat)
    requires m < |events| && events[m].Edited? && TabAt(events, m).carouselId.None?
    requires Takes(TabAt(events, m).deck, events[m].edit)
    ensures Unowned(TraceAt(events, m, m + 1), TabAt(events, m + 1))
  {
    TimerIff(events, m);
    TabSteps(events, m);
  }

  /** An edit to a deck that belongs to no carousel is on no deck that is ever sent. */
  lemma {:induction false} UnownedEditIsNeverSent(events: seq<Event>, m: nat, n: nat)
    requires m < n <= |events| && events[m].Edited? && TabAt(events, m).carouselId.None?
    requires Takes(TabAt(events, m).deck, events[m].edit)
    ensures Unowned(TraceAt(events, m, n), TabAt(events, n))
    ensures n < |events| ==> !SentBy(events, m, n)
  {
    if n == m + 1 {
      UnownedAtFirst(events, m);
    } else {
      hide NextTrace, Next;
      UnownedEditIsNeverSent(events, m, n - 1);
      TabSteps(events, n - 1);
      NextStaysUnowned(TraceAt(events, m, n - 1), Run(START, events[..n - 1]), events[n - 1]);
    }
  }

  // --- from a load on -------------------------------------------------------------------------

  function Edits(events: seq<Event>): seq<Edit> {
    if events == [] then []
    else Edits(events[..|events| - 1]) + if events[|events| - 1].Edited? then [events[|events| - 1].edit] else []
  }

  /** Some edit was accepted. */
  predicate Dirty(deck: seq<Slide>, edits: seq<Edit>) {
    edits != []
    && (Dirty(deck, edits[..|edits| - 1]) || Takes(Replay(deck, edits[..|edits| - 1]), edits[|edits| - 1]))
  }

  /** Nothing replaces the deck: the editor types, timers fire, replies come in, an empty deck is cleared. */
  predicate Editing(s: State, events: seq<Event>) {
    events != [] ==>
      var init, e := events[..|events| - 1], events[|events| - 1];
      Editing(s, init) && (e.Edited? || e.Fired? || e.Replied? || (e.Cleared? && Run(s, init).tab.deck == []))
  }

  /** A PUT of what the deck was after some number of the edits. */
  ghost predicate IsSnapshot(put: Put, id: int, base: seq<Slide>, edits: seq<Edit>) {
    exists n: nat | n <= |edits| :: put == Put(id, AsWrites(Replay(base, edits[..n])))
  }

  ghost predicate Snapshots(puts: seq<Put>, id: int, base: seq<Slide>, edits: seq<Edit>) {
    forall k :: 0 <= k < |puts| ==> IsSnapshot(puts[k], id, base, edits)
  }

  ghost predicate Covered(s0: State, s: State, id: int, base: seq<Slide>, edits: seq<Edit>) {
    && s.tab.carouselId == Some(id)
    && s.tab.deck == Replay(base, edits)
    && s0.puts <= s.puts
    && Snapshots(s.puts[|s0.puts|..], id, base, edits)
    && (Dirty(base, edits) ==>
          || s.tab.timer
          || (|s.puts| > |s0.puts| && s.puts[|s.puts| - 1] == Put(id, AsWrites(s.tab.deck))))
  }

  lemma SnapshotLonger(put: Put, id: int, base: seq<Slide>, edits: seq<Edit>, more: seq<Edit>)
    requires IsSnapshot(put, id, base, edits)
    ensures IsSnapshot(put, id, base, edits + more)
  {
    var n: nat :| n <= |edits| && put == Put(id, AsWrites(Replay(base, edits[..n])));
    assert (edits + more)[..n] == edits[..n];
  }

  lemma SnapshotsLonger(puts: seq<Put>, id: int, base: seq<Slide>, edits: seq<Edit>, more: seq<Edit>)
    requires Snapshots(puts, id, base, edits)
    ensures Snapshots(puts, id, base, edits + more)
  {
    forall k | 0 <= k < |puts| ensures IsSnapshot(puts[k], id, base, edits + more) {
      SnapshotLonger(puts[k], id, base, edits, more);
    }
  }

  lemma EditInTab(t: Tab, e: Edit, ok: bool)
    ensures var t2 := EditTab(t, e, ok);
            && t2.deck == ApplyEdit(t.deck, e)
            && t2.carouselId == t.carouselId
            && t2.timer == (t.timer || (Takes(t.deck, e) && t.carouselId.Some?))
            && (!Takes(t.deck, e) ==> t2 == t)
  {
  }

  lemma OneMoreEdit(base: seq<Slide>, edits: seq<Edit>, e: Edit)
    ensures Dirty(base, edits + [e]) <==> Dirty(base, edits) || Takes(Replay(base, edits), e)
  {
    assert (edits + [e])[..|edits|] == edits;
  }

  lemma EditKeepsCovered(s0: State, s: State, id: int, base: seq<Slide>, edits: seq<Edit>, e: Edit, ok: bool)
    requires Covered(s0, s, id, base, edits)
    ensures Covered(s0, Next(s, Edited(e, ok)), id, base, edits + [e])
  {
    OneMoreEdit(base, edits, e);
    ReplayOneMore(base, edits, e);
    EditInTab(s.tab, e, ok);
    SnapshotsLonger(s.puts[|s0.puts|..], id, base, edits, [e]);
  }

  lemma FireKeepsCovered(s0: State, s: State, id: int, base: seq<Slide>, edits: seq<Edit>)
    requires Covered(s0, s, id, base, edits)
    ensures Covered(s0, Next(s, Fired), id, base, edits)
  {
    assert edits[..|edits|] == edits;
    if CanSave(s.tab) {
      assert IsSnapshot(SavePut(s.tab), id, base, edits);
      assert (s.puts + [SavePut(s.tab)])[|s0.puts|..] == s.puts[|s0.puts|..] + [SavePut(s.tab)];
    }
  }

  /**
   From a load on, while nothing replaces the deck: the deck is the loaded one with every edit
   replayed; each PUT is the deck as it stood after some number of those edits, addressed to the
   loaded carousel; and once an edit was accepted, either a save is pending or the last PUT carries
   every edit there has been.
   */
  lemma {:induction false} EveryEditIsCovered(s: State, id: int, slides: seq<Slide>, ok: bool, events: seq<Event>)
    requires Editing(Next(s, Loaded(id, slides, ok)), events)
    ensures var s0 := Next(s, Loaded(id, slides, ok));
            Covered(s0, Run(s0, events), id, CleanAll(slides), Edits(events))
  {
    var s0, base := Next(s, Loaded(id, slides, ok)), CleanAll(slides);
    if events != [] {
      var n := |events| - 1;
      var init, e := events[..n], events[n];
      EveryEditIsCovered(s, id, slides, ok, init);
      var before := Run(s0, init);
      assert Edits(init) + [] == Edits(init);
      match e
      case Edited(edit, accepted) => EditKeepsCovered(s0, before, id, base, Edits(init), edit, accepted);
      case Fired => FireKeepsCovered(s0, before, id, base, Edits(init));
      case _ =>
    }
  }

  /** A page reload drops the timer: an edit just made may wait for the next one to be saved. */
  lemma ReloadDropsTheTimer(id: int, s: Slide)
    ensures var st := Run(START, [Loaded(id, [s], true), Edited(SetText(At(0), "new"), true), Reloaded]);
            st.puts == [] && !st.tab.timer && |st.tab.deck| == 1 && st.tab.deck[0].text == "new"
  {
    var e := [Loaded(id, [s], true), Edited(SetText(At(0), "new"), true), Reloaded];
    assert e[..2][..1] == [e[0]] && e[..2][..1][..0] == [];
    assert Run(START, e[..1]) == Next(START, e[0]);
    assert Run(START, e[..2]) == Next(Next(START, e[0]), e[1]);
  }

  /** And the next one does save it, if storage took it: the reload brought the edit back. */
  lemma ReloadMayBringItBack(id: int, s: Slide)
    ensures var e := [Loaded(id, [s], true), Edited(SetText(At(0), "new"), true), Reloaded, Edited(Add, true), Fired];
            SentBy(e, 1, 4)
  {
    var e := [Loaded(id, [s], true), Edited(SetText(At(0), "new"), true), Reloaded, Edited(Add, true), Fired];
    assert e[..0] == [];
    TabSteps(e, 0);
    TabSteps(e, 1);
    TabSteps(e, 2);
    TabSteps(e, 3);
    assert TraceAt(e, 1, 2) == Trace(Some([]), Some([]));
    assert TraceAt(e, 1, 3) == Trace(Some([]), Some([]));
    assert TraceAt(e, 1, 4).screen.Some?;
  }

  /** `clear` forgets the carousel exactly when there is a slide to clear: an emptied deck keeps its id. */
  lemma ClearKeepsTheIdOfAnEmptiedDeck(t: Tab, ok: bool)
    ensures ClearTab(t, ok).carouselId == None <==> t.carouselId == None || t.deck != []
    ensures t.deck == [] ==> ClearTab(t, ok) == t
  {
  }

  /** Event `j` is the server's answer to a save of the deck on screen. */
  predicate Stamps(events: seq<Event>, j: nat, now: int)
    requires j < |events|
  {
    events[j].Replied? && events[j].now == now && TabAt(events, j).carouselId == Some(events[j].id)
  }

  /** Nothing after `j` and before `n` started the time stamp over. */
  ghost predicate StampStands(events: seq<Event>, j: nat, n: nat)
    requires n <= |events|
  {
    forall k: nat :: j < k < n ==> !events[k].Loaded? && !events[k].Reloaded?
  }

  /** The header says "saved" exactly since an answer for the carousel on screen, and with that answer's time. */
  lemma {:induction false} SavedMeansAnswered(events: seq<Event>, n: nat)
    requires n <= |events|
    ensures var saved := TabAt(events, n).savedAt;
            && (saved.Some? ==> exists j: nat :: j < n && Stamps(events, j, saved.value) && StampStands(events, j, n))
            && (saved.None? ==> forall j: nat, now :: j < n && Stamps(events, j, now) ==> !StampStands(events, j, n))
  {
    if n > 0 {
      var p := n - 1;
      SavedMeansAnswered(events, p);
      TabSteps(events, p);
      var before, saved := TabAt(events, p).savedAt, TabAt(events, n).savedAt;
      if saved.Some? && saved != before {
        assert Stamps(events, p, saved.value) && StampStands(events, p, n);
      } else if saved.Some? {
        if events[p].Replied? && TabAt(events, p).carouselId == Some(events[p].id) {
          assert Stamps(events, p, saved.value) && StampStands(events, p, n);
        } else {
          var j: nat :| j < p && Stamps(events, j, saved.value) && StampStands(events, j, p);
          assert StampStands(events, j, n);
        }
      } else {
        forall j: nat, now | j < n && Stamps(events, j, now) ensures !StampStands(events, j, n) {
          if StampStands(events, j, n) && j < p {
            assert StampStands(events, j, p);
          }
        }
      }
    }
  }
}

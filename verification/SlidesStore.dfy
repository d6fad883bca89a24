/**
 app/static/js/slides.js: the deck in one browser tab and the debounced autosave behind it.

 Time is reduced to its order: a timer is pending or not, and fires or is cleared. Each write to
 sessionStorage may be refused (`ok` is false), as the code allows.
 */
module SlidesStore {
  import opened Common
  import opened Deck

  /** What sessionStorage holds once this module has written it. */
  datatype Stored = Stored(id: Option<int>, deck: seq<Slide>)

  /**
   What it may hold at page load: nothing that parses to an object with an array of slides, or one,
   whose entries may be empty and whose id need not be a number.
   */
  datatype Raw = Corrupt | Found(id: Option<int>, entries: seq<Option<Slide>>)

  datatype Tab = Tab(
    deck: seq<Slide>,
    carouselId: Option<int>,
    timer: bool,
    savedAt: Option<int>,
    storage: Stored)

  /** A PUT on its way to the server. */
  datatype Put = Put(id: int, body: seq<SlideWrite>)

  /** A number handed to an array operation: an integer, one strictly between `i` and `i + 1`, or NaN. */
  datatype Index = At(i: int) | Between(i: int) | NaN

  datatype Edit =
    | Add
    | SetText(index: Index, text: string)
    | Remove(index: Index)
    | Move(from: Index, to: Index)

  const EMPTY_TAB: Tab := Tab([], None, false, None, Stored(None, []))

  // --- the deck operations --------------------------------------------------------------------

  function ClipText(text: string): string {
    if |text| <= TEXT_MAX then text else text[..TEXT_MAX]
  }

  function Clean(s: Slide): Slide {
    s.(text := ClipText(s.text))
  }

  function CleanAll(slides: seq<Slide>): (r: seq<Slide>)
    ensures |r| == |slides|
    ensures forall i :: 0 <= i < |slides| ==> r[i] == Clean(slides[i])
  {
    seq(|slides|, i requires 0 <= i < |slides| => Clean(slides[i]))
  }

  const BLANK: Slide := Slide(Story, None, "", false, BLANK_CARD)

  function Without(deck: seq<Slide>, i: nat): seq<Slide>
    requires i < |deck|
  {
    deck[..i] + deck[i + 1..]
  }

  /**
   Whether the operation goes through to `persist`. `splice` truncates a fraction, and takes NaN for
   0; indexing with either finds nothing.
   */
  predicate Takes(deck: seq<Slide>, e: Edit) {
    match e
    case Add => |deck| < MAX_SLIDES
    case SetText(index, _) => index.At? && 0 <= index.i < |deck|
    case Remove(index) => index.NaN? || 0 <= index.i < |deck|
    case Move(from, to) =>
      from.At? && to.At? && from != to && 0 <= from.i < |deck| && 0 <= to.i < |deck|
  }

  function ApplyEdit(deck: seq<Slide>, e: Edit): seq<Slide> {
    if !Takes(deck, e) then deck
    else match e
      case Add => deck + [BLANK]
      case SetText(index, text) => deck[index.i := deck[index.i].(text := ClipText(text), clipped := false)]
      case Remove(index) =>
        if !index.NaN? then Without(deck, index.i) else if deck == [] then deck else deck[1..]
      case Move(from, to) =>
        var rest := Without(deck, from.i);
        rest[..to.i] + [deck[from.i]] + rest[to.i..]
  }

  // --- the tab --------------------------------------------------------------------------------

  function Store(t: Tab, ok: bool): Tab {
    if ok then t.(storage := Stored(t.carouselId, t.deck)) else t
  }

  /** `persist`: the write-through cache, then the debounce. */
  function Persist(t: Tab, ok: bool): Tab {
    var t' := Store(t, ok);
    if t'.carouselId.None? then t' else t'.(timer := true)
  }

  function EditTab(t: Tab, e: Edit, ok: bool): Tab {
    if Takes(t.deck, e) then Persist(t.(deck := ApplyEdit(t.deck, e)), ok) else t
  }

  function LoadTab(t: Tab, id: int, slides: seq<Slide>, ok: bool): Tab {
    Store(t.(deck := CleanAll(slides), carouselId := Some(id), timer := false, savedAt := None), ok)
  }

  function ClearTab(t: Tab, ok: bool): Tab {
    if t.deck == [] then t
    else Persist(t.(deck := [], carouselId := None, timer := false), ok)
  }

  function ReplyTab(t: Tab, id: int, now: int): Tab {
    if t.carouselId == Some(id) then t.(savedAt := Some(now)) else t
  }

  /** A page reload: module state starts over from sessionStorage. */
  function ReloadTab(t: Tab): Tab {
    Tab(CleanAll(t.storage.deck), t.storage.id, false, None, t.storage)
  }

  /** `filter(Boolean)`. */
  function Present(entries: seq<Option<Slide>>): seq<Slide> {
    if entries == [] then []
    else Present(entries[..|entries| - 1])
         + if entries[|entries| - 1].Some? then [entries[|entries| - 1].value] else []
  }

  /** What a page load makes of it. */
  function Readable(raw: Raw): Stored {
    match raw
    case Corrupt => Stored(None, [])
    case Found(id, entries) => Stored(id, Present(entries))
  }

  predicate CanSave(t: Tab) {
    t.timer && t.carouselId.Some?
  }

  function SavePut(t: Tab): Put
    requires CanSave(t)
  {
    Put(t.carouselId.value, AsWrites(t.deck))
  }

  /** The module's variables and its exported functions. */
  class SlidesModule {
    var deck: seq<Slide>
    var carouselId: Option<int>
    var saveTimer: bool
    var savedAt: Option<int>
    var storage: Stored

    constructor (raw: Raw)
      ensures State() == ReloadTab(Tab([], None, false, None, Readable(raw)))
    {
      deck, carouselId, saveTimer, savedAt := [], None, false, None;
      storage := Readable(raw);
      new;
      match raw
      case Corrupt =>
        assert CleanAll([]) == [];
      case Found(id, entries) =>
        var kept := [];
        for i := 0 to |entries|
          invariant kept == Present(entries[..i])
          invariant State() == Tab([], None, false, None, Readable(raw))
        {
          assert entries[..i + 1][..i] == entries[..i];
          if entries[i].Some? {
            kept := kept + [entries[i].value];
          } else {
            assert kept + [] == kept;
          }
        }
        assert entries[..|entries|] == entries;
        deck, carouselId := CleanAll(kept), id;
    }

    function State(): Tab
      reads this
    {
      Tab(deck, carouselId, saveTimer, savedAt, storage)
    }

    method PersistDeck(ok: bool)
      modifies this`storage, this`saveTimer
      ensures State() == Persist(old(State()), ok)
    {
      if ok {
        storage := Stored(carouselId, deck);
      }
      ScheduleSave();
    }

    method ScheduleSave()
      modifies this`saveTimer
      ensures saveTimer == (old(saveTimer) || carouselId.Some?)
    {
      if carouselId.None? {
        return;
      }
      saveTimer := false;
      saveTimer := true;
    }

    /** The timer fires: what goes on the wire. */
    method Save() returns (put: Put)
      requires CanSave(State())
      modifies this`saveTimer
      ensures put == SavePut(old(State()))
      ensures State() == old(State()).(timer := false)
    {
      saveTimer := false;
      put := Put(carouselId.value, AsWrites(deck));
    }

    method OnSaved(id: int, now: int)
      modifies this`savedAt
      ensures State() == ReplyTab(old(State()), id, now)
    {
      if carouselId == Some(id) {
        savedAt := Some(now);
      }
    }

    method Load(id: int, slides: seq<Slide>, ok: bool)
      modifies this
      ensures State() == LoadTab(old(State()), id, slides, ok)
    {
      saveTimer := false;
      carouselId := Some(id);
      deck := CleanAll(slides);
      savedAt := None;
      if ok {
        storage := Stored(carouselId, deck);
      }
    }

    method Clear(ok: bool)
      modifies this
      ensures State() == ClearTab(old(State()), ok)
    {
      if |deck| == 0 {
        return;
      }
      saveTimer := false;
      deck := [];
      carouselId := None;
      PersistDeck(ok);
    }

    method AddSlide(ok: bool) returns (index: Option<nat>)
      modifies this
      ensures State() == EditTab(old(State()), Add, ok)
      ensures index.None? <==> |old(deck)| >= MAX_SLIDES
      ensures index.Some? ==> index.value == |deck| - 1 && deck[index.value] == BLANK
    {
      if |deck| >= MAX_SLIDES {
        return None;
      }
      deck := deck + [BLANK];
      PersistDeck(ok);
      return Some(|deck| - 1);
    }

    method SetSlideText(index: Index, text: string, ok: bool)
      modifies this
      ensures State() == EditTab(old(State()), SetText(index, text), ok)
    {
      if !index.At? || index.i < 0 || index.i >= |deck| {
        return;
      }
      var slide := deck[index.i];
      deck := deck[index.i := slide.(text := ClipText(text), clipped := false)];
      PersistDeck(ok);
    }

    method RemoveSlide(index: Index, ok: bool)
      modifies this
      ensures State() == EditTab(old(State()), Remove(index), ok)
    {
      if index.NaN? {
        if deck != [] {
          deck := deck[1..];
        }
      } else {
        if index.i < 0 || index.i >= |deck| {
          return;
        }
        deck := deck[..index.i] + deck[index.i + 1..];
      }
      PersistDeck(ok);
    }

    method MoveSlide(from: Index, to: Index, ok: bool)
      modifies this
      ensures State() == EditTab(old(State()), Move(from, to), ok)
    {
      if !from.At? || !to.At? || from.i == to.i {
        return;
      }
      if from.i < 0 || from.i >= |deck| || to.i < 0 || to.i >= |deck| {
        return;
      }
      var slide := deck[from.i];
      deck := deck[..from.i] + deck[from.i + 1..];
      deck := deck[..to.i] + [slide] + deck[to.i..];
      PersistDeck(ok);
    }
  }

  // --- what an edit does ----------------------------------------------------------------------

  /** A move takes one slide to its new place and leaves the others in the order they had. */
  lemma MoveReads(deck: seq<Slide>, from: nat, to: nat)
    requires from < |deck| && to < |deck|
    ensures var after := ApplyEdit(deck, Move(At(from), At(to)));
            && |after| == |deck| && after[to] == deck[from]
            && Without(after, to) == Without(deck, from)
  {
  }

  /** The same, place by place: the slides between the two places close up towards the one left. */
  lemma MoveShifts(deck: seq<Slide>, from: nat, to: nat, k: nat)
    requires from < |deck| && to < |deck| && k < |deck|
    ensures var after := ApplyEdit(deck, Move(At(from), At(to)));
            && |after| == |deck|
            && (k == to ==> after[k] == deck[from])
            && (from <= k < to ==> after[k] == deck[k + 1])
            && (to < k <= from ==> after[k] == deck[k - 1])
            && (k < from && k < to ==> after[k] == deck[k])
            && (k > from && k > to ==> after[k] == deck[k])
  {
    MoveReads(deck, from, to);
    var after, rest := ApplyEdit(deck, Move(At(from), At(to))), Without(deck, from);
    hide ApplyEdit;
    assert k != to ==> after[k] == Without(after, to)[if k < to then k else k - 1];
  }

  /** The place a removal takes effect at: a fraction is cut down to an integer, NaN is 0. */
  function Place(index: Index): int {
    match index
    case At(i) => i
    case Between(i) => i
    case NaN => 0
  }

  /** A removal takes out the slide at its place; those behind it move up, the others stay. */
  lemma RemoveShifts(deck: seq<Slide>, index: Index)
    requires 0 <= Place(index) < |deck|
    ensures var after, i := ApplyEdit(deck, Remove(index)), Place(index);
            && |after| == |deck| - 1
            && (forall k :: 0 <= k < i ==> after[k] == deck[k])
            && (forall k :: i <= k < |after| ==> after[k] == deck[k + 1])
  {
  }

  /** Rewriting a slide leaves every other one, and of that one everything but the text and the badge. */
  lemma SetTextReads(deck: seq<Slide>, i: nat, text: string)
    requires i < |deck|
    ensures var after := ApplyEdit(deck, SetText(At(i), text));
            && |after| == |deck|
            && (forall k :: 0 <= k < |deck| && k != i ==> after[k] == deck[k])
            && after[i].kind == deck[i].kind && after[i].storyId == deck[i].storyId && after[i].card == deck[i].card
            && !after[i].clipped
            && after[i].text <= text && |after[i].text| == if |text| < 120 then |text| else 120
  {
  }

  /** Adding puts one blank story slide, of no article, behind the others. */
  lemma AddReads(deck: seq<Slide>)
    requires |deck| < MAX_SLIDES
    ensures var after := ApplyEdit(deck, Add);
            && |after| == |deck| + 1 && after[..|deck|] == deck
            && after[|deck|] == Slide(Story, None, "", false, Card(None, None, None, None))
  {
  }

  /** The edits that do nothing at all: no slide changes, nothing is stored and no save is scheduled. */
  ghost predicate OutOfPlace(deck: seq<Slide>, e: Edit) {
    match e
    case Add => |deck| >= MAX_SLIDES
    case SetText(index, _) => forall i: nat :: i < |deck| ==> index != At(i)
    case Remove(index) => !index.NaN? && !(0 <= Place(index) < |deck|)
    case Move(from, to) =>
      from == to || forall i: nat, j: nat :: i < |deck| && j < |deck| ==> from != At(i) || to != At(j)
  }

  /** Any other edit leaves its deck on screen and in storage, and a save pending if there is an id. */
  lemma EditReachesTheTab(t: Tab, e: Edit, ok: bool)
    ensures OutOfPlace(t.deck, e) ==> ApplyEdit(t.deck, e) == t.deck && EditTab(t, e, ok) == t
    ensures !OutOfPlace(t.deck, e) ==>
              var t' := EditTab(t, e, ok);
              && t'.deck == ApplyEdit(t.deck, e) && t'.carouselId == t.carouselId && t'.savedAt == t.savedAt
              && t'.timer == (t.timer || t.carouselId.Some?)
              && t'.storage == if ok then Stored(t.carouselId, t'.deck) else t.storage
  {
  }

  /** `remove` has no integer check: a deck loses a slide nobody named exactly so. No caller does this. */
  lemma RemovesUnnamedIff(deck: seq<Slide>, index: Index)
    ensures var named := index.At? && 0 <= index.i < |deck|;
            ApplyEdit(deck, Remove(index)) != deck && !named
            <==> (index.NaN? && deck != []) || (index.Between? && 0 <= index.i < |deck|)
  {
    if Takes(deck, Remove(index)) && deck != [] {
      assert |ApplyEdit(deck, Remove(index))| == |deck| - 1;
    }
  }

  /** A slide is fixed by its place and the rest of the deck. */
  lemma SameWithout(a: seq<Slide>, b: seq<Slide>, i: nat)
    requires i < |a| && |a| == |b| && a[i] == b[i] && Without(a, i) == Without(b, i)
    ensures a == b
  {
    assert a == Without(a, i)[..i] + [a[i]] + Without(a, i)[i..];
    assert b == Without(b, i)[..i] + [b[i]] + Without(b, i)[i..];
  }

  /** Moving a slide back undoes the move; removing the slide just added undoes the add. */
  lemma EditsUndone(deck: seq<Slide>, from: nat, to: nat)
    ensures from < |deck| && to < |deck| ==>
              ApplyEdit(ApplyEdit(deck, Move(At(from), At(to))), Move(At(to), At(from))) == deck
    ensures |deck| < MAX_SLIDES ==> ApplyEdit(ApplyEdit(deck, Add), Remove(At(|deck|))) == deck
  {
    if from < |deck| && to < |deck| {
      var after := ApplyEdit(deck, Move(At(from), At(to)));
      MoveReads(deck, from, to);
      MoveReads(after, to, from);
      SameWithout(ApplyEdit(after, Move(At(to), At(from))), deck, from);
    }
  }

  // --- edits keep a deck good -----------------------------------------------------------------

  /** Removing a slide takes its own count away, wherever it stood. */
  lemma CountWithout(deck: seq<Slide>, i: nat, p: SlideWrite -> bool)
    requires i < |deck|
    ensures Count(AsWrites(deck), p)
         == Count(AsWrites(Without(deck, i)), p) + if p(AsWrite(deck[i])) then 1 else 0
  {
    var a, b := deck[..i], deck[i + 1..];
    assert deck == a + [deck[i]] + b;
    AsWritesThree(a, deck[i], b);
    AsWritesAppend(a, b);
    CountMiddle(AsWrites(a), [AsWrite(deck[i])], AsWrites(b), p);
    CountAppend(AsWrites(a), AsWrites(b), p);
    CountOne(AsWrite(deck[i]), p);
  }

  lemma CountInserted(rest: seq<Slide>, to: nat, s: Slide, p: SlideWrite -> bool)
    requires to <= |rest|
    ensures Count(AsWrites(rest[..to] + [s] + rest[to..]), p)
         == Count(AsWrites(rest), p) + if p(AsWrite(s)) then 1 else 0
  {
    var deck := rest[..to] + [s] + rest[to..];
    assert Without(deck, to) == rest;
    CountWithout(deck, to, p);
  }

  /** No edit adds an article or a bracket slide; the count of each kind of slide only falls, blanks aside. */
  lemma EditCounts(deck: seq<Slide>, e: Edit, p: SlideWrite -> bool)
    requires forall s: SlideWrite, text, clipped :: p(s) == p(s.(text := text, clipped := clipped))
    requires !p(AsWrite(BLANK))
    ensures Count(AsWrites(ApplyEdit(deck, e)), p) <= Count(AsWrites(deck), p)
    ensures e.Move? ==> Count(AsWrites(ApplyEdit(deck, e)), p) == Count(AsWrites(deck), p)
  {
    if Takes(deck, e) {
      match e
      case Add =>
        CountInserted(deck, |deck|, BLANK, p);
        assert deck[..|deck|] + [BLANK] + deck[|deck|..] == deck + [BLANK];
      case SetText(index, text) =>
        var i := index.i;
        var after := ApplyEdit(deck, e);
        assert Without(after, i) == Without(deck, i);
        CountWithout(deck, i, p);
        CountWithout(after, i, p);
        var s := AsWrite(deck[i]);
        assert AsWrite(after[i]) == s.(text := ClipText(text), clipped := false);
      case Remove(index) =>
        if !index.NaN? {
          CountWithout(deck, index.i, p);
        } else if deck != [] {
          assert Without(deck, 0) == deck[1..];
          CountWithout(deck, 0, p);
        }
      case Move(from, to) =>
        CountWithout(deck, from.i, p);
        CountInserted(Without(deck, from.i), to.i, deck[from.i], p);
    }
  }

  lemma EditKeepsGood(deck: seq<Slide>, e: Edit)
    requires Good(AsWrites(deck))
    ensures Good(AsWrites(ApplyEdit(deck, e)))
  {
    EditCounts(deck, e, IsBracket());
    forall id ensures Count(AsWrites(ApplyEdit(deck, e)), Names(id)) <= 1 {
      EditCounts(deck, e, Names(id));
    }
  }

  lemma EditBringsNoArticle(deck: seq<Slide>, e: Edit)
    ensures StoryIds(AsWrites(ApplyEdit(deck, e))) <= StoryIds(AsWrites(deck))
  {
    forall id | id in StoryIds(AsWrites(ApplyEdit(deck, e))) ensures id in StoryIds(AsWrites(deck)) {
      EditCounts(deck, e, Names(id));
      CountNames(AsWrites(deck), id);
      CountNames(AsWrites(ApplyEdit(deck, e)), id);
    }
  }

  lemma {:induction false} CountCleaned(slides: seq<Slide>, p: SlideWrite -> bool)
    requires forall s: SlideWrite, text, clipped :: p(s) == p(s.(text := text, clipped := clipped))
    ensures Count(AsWrites(CleanAll(slides)), p) == Count(AsWrites(slides), p)
  {
    if slides != [] {
      assert AsWrites(slides)[1..] == AsWrites(slides[1..]);
      assert AsWrites(CleanAll(slides))[1..] == AsWrites(CleanAll(slides[1..]));
      var s := AsWrite(slides[0]);
      assert AsWrites(CleanAll(slides))[0] == s.(text := ClipText(s.text), clipped := s.clipped);
      CountCleaned(slides[1..], p);
    }
  }

  lemma CleanKeepsGood(slides: seq<Slide>)
    requires Good(AsWrites(slides))
    ensures Good(AsWrites(CleanAll(slides)))
  {
    CountCleaned(slides, IsBracket());
    forall id ensures Count(AsWrites(CleanAll(slides)), Names(id)) <= 1 {
      CountCleaned(slides, Names(id));
    }
  }

  lemma CleanKeepsArticles(slides: seq<Slide>)
    ensures StoryIds(AsWrites(CleanAll(slides))) == StoryIds(AsWrites(slides))
  {
    forall id ensures id in StoryIds(AsWrites(CleanAll(slides))) <==> id in StoryIds(AsWrites(slides)) {
      CountCleaned(slides, Names(id));
      CountNames(AsWrites(slides), id);
      CountNames(AsWrites(CleanAll(slides)), id);
    }
  }

  // --- loading and clearing -------------------------------------------------------------------

  /** A load puts another deck on screen: id and slides at once, texts cut to the box, nothing left to save. */
  lemma LoadReads(t: Tab, id: int, slides: seq<Slide>, ok: bool)
    ensures var t' := LoadTab(t, id, slides, ok);
            && t'.carouselId == Some(id) && !t'.timer && t'.savedAt.None?
            && t'.storage == (if ok then Stored(Some(id), t'.deck) else t.storage)
            && |t'.deck| == |slides|
            && forall i :: 0 <= i < |slides| ==>
                 && t'.deck[i].text <= slides[i].text
                 && |t'.deck[i].text| == (if |slides[i].text| < 120 then |slides[i].text| else 120)
                 && t'.deck[i].(text := "") == slides[i].(text := "")
  {
  }

  lemma {:induction false} PresentAppends(a: seq<Option<Slide>>, b: seq<Option<Slide>>)
    ensures Present(a + b) == Present(a) + Present(b)
    decreases |b|
  {
    if b == [] {
      assert a + b == a;
    } else {
      assert (a + b)[..|a + b| - 1] == a + b[..|b| - 1];
      PresentAppends(a, b[..|b| - 1]);
    }
  }

  lemma {:induction false} PresentKeepsAll(slides: seq<Slide>, entries: seq<Option<Slide>>)
    requires |entries| == |slides| && forall i :: 0 <= i < |slides| ==> entries[i] == Some(slides[i])
    ensures Present(entries) == slides
  {
    if slides != [] {
      PresentKeepsAll(slides[..|slides| - 1], entries[..|slides| - 1]);
    }
  }

  /** A page load skips an empty entry of what was stored, and only that: slides come back in their order. */
  lemma ReloadSkipsEmptyEntries(
      id: Option<int>, before: seq<Option<Slide>>, after: seq<Option<Slide>>, slides: seq<Slide>,
      entries: seq<Option<Slide>>)
    requires |entries| == |slides| && forall i :: 0 <= i < |slides| ==> entries[i] == Some(slides[i])
    ensures Readable(Found(id, before + [None] + after)) == Readable(Found(id, before + after))
    ensures Readable(Found(id, entries)) == Stored(id, slides)
  {
    var none: seq<Option<Slide>> := [None];
    PresentAppends(before, none);
    PresentAppends(before + none, after);
    PresentAppends(before, after);
    assert Present(before) + [] == Present(before);
    assert none[..0] == [] && Present(none) == [];
    PresentKeepsAll(slides, entries);
  }
}

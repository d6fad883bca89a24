/**
 app/static/js/slide-canvas.js: `wrap`, the greedy line breaker of the slide renderer.

 The canvas' `measureText` is the parameter `measure`; `/\s/` is the parameter `space`.
 */
module SlideCanvas {

  type Measure = string -> real

  /** `text.split("\n")`. */
  function Paragraphs(text: string): (ps: seq<string>)
    ensures ps != []
  {
    if text == "" then [""]
    else
      var rest := Paragraphs(text[1..]);
      if text[0] == '\n' then [""] + rest else [[text[0]] + rest[0]] + rest[1..]
  }

  /** The length of the run of characters other than whitespace at the start of `s`. */
  function WordLength(space: char -> bool, s: string): (n: nat)
    ensures n <= |s|
  {
    if s == "" || space(s[0]) then 0 else 1 + WordLength(space, s[1..])
  }

  /** `paragraph.split(/\s+/).filter(Boolean)`. */
  function Words(space: char -> bool, s: string): seq<string>
    decreases |s|
  {
    if s == "" then []
    else if space(s[0]) then Words(space, s[1..])
    else
      var n := WordLength(space, s);
      [s[..n]] + Words(space, s[n..])
  }

  function Join(words: seq<string>): string {
    if words == [] then ""
    else if |words| == 1 then words[0]
    else Join(words[..|words| - 1]) + " " + words[|words| - 1]
  }

  predicate Fits(measure: Measure, maxWidth: real, words: seq<string>) {
    measure(Join(words)) <= maxWidth
  }

  /** The lines still to come when `words[i..k]` is on the current line. */
  function Fill(measure: Measure, maxWidth: real, words: seq<string>, i: nat, k: nat): (lines: seq<seq<string>>)
    requires i < k <= |words|
    ensures lines != []
    decreases |words| - k
  {
    if k == |words| then [words[i..k]]
    else if Fits(measure, maxWidth, words[i..k + 1]) then Fill(measure, maxWidth, words, i, k + 1)
    else [words[i..k]] + Fill(measure, maxWidth, words, k, k + 1)
  }

  function Render(lines: seq<seq<string>>): (r: seq<string>)
    ensures |r| == |lines|
    ensures forall i :: 0 <= i < |lines| ==> r[i] == Join(lines[i])
  {
    seq(|lines|, i requires 0 <= i < |lines| => Join(lines[i]))
  }

  /** What one paragraph becomes. An empty paragraph keeps its line. */
  function WrapParagraph(measure: Measure, maxWidth: real, words: seq<string>): seq<string> {
    if words == [] then [""] else Render(Fill(measure, maxWidth, words, 0, 1))
  }

  function Painter(measure: Measure, maxWidth: real, space: char -> bool): string -> seq<string> {
    (paragraph: string) => WrapParagraph(measure, maxWidth, Words(space, paragraph))
  }

  function Paint(painter: string -> seq<string>, ps: seq<string>): seq<string> {
    if ps == [] then [] else Paint(painter, ps[..|ps| - 1]) + painter(ps[|ps| - 1])
  }

  /** What the whole text becomes: paragraph after paragraph. */
  function WrapText(measure: Measure, maxWidth: real, space: char -> bool, text: string): seq<string> {
    Paint(Painter(measure, maxWidth, space), Paragraphs(text))
  }

  /** What is still drawn once `words[start..k]` is on the current line. */
  function Rest(measure: Measure, maxWidth: real, words: seq<string>, start: nat, k: nat): seq<string>
    requires start < k <= |words|
  {
    Render(Fill(measure, maxWidth, words, start, k))
  }

  lemma RestSteps(measure: Measure, maxWidth: real, words: seq<string>, start: nat, k: nat, line: string)
    requires start < k <= |words| && line == Join(words[start..k])
    ensures k == |words| ==> Rest(measure, maxWidth, words, start, k) == [line]
    ensures k < |words| ==>
              var candidate := line + " " + words[k];
              candidate == Join(words[start..k + 1]) && words[k] == Join(words[k..k + 1])
              && Rest(measure, maxWidth, words, start, k)
                 == if measure(candidate) <= maxWidth then Rest(measure, maxWidth, words, start, k + 1)
                    else [line] + Rest(measure, maxWidth, words, k, k + 1)
  {
    if k < |words| {
      JoinMore(words, start, k);
      assert words[k..k + 1] == [words[k]];
      RenderCons(words[start..k], Fill(measure, maxWidth, words, k, k + 1));
    }
  }

  /** The inner loop of `wrap`: a paragraph with words in it, added to what is drawn. */
  method WrapWords(measure: Measure, words: seq<string>, maxWidth: real, drawn: seq<string>)
    returns (lines: seq<string>)
    requires words != []
    ensures lines == drawn + WrapParagraph(measure, maxWidth, words)
  {
    lines := drawn;
    var line := words[0];
    ghost var start := 0;
    assert words[0..1] == [words[0]];
    ghost var target := drawn + Rest(measure, maxWidth, words, 0, 1);
    for k := 1 to |words|
      invariant 0 <= start < k && line == Join(words[start..k])
      invariant lines + Rest(measure, maxWidth, words, start, k) == target
    {
      var candidate := line + " " + words[k];
      RestSteps(measure, maxWidth, words, start, k, line);
      if measure(candidate) <= maxWidth {
        line := candidate;
      } else {
        lines := lines + [line];
        line := words[k];
        start := k;
      }
    }
    RestSteps(measure, maxWidth, words, start, |words|, line);
    lines := lines + [line];
  }

  method Wrap(measure: Measure, space: char -> bool, text: string, maxWidth: real) returns (lines: seq<string>)
    ensures lines == WrapText(measure, maxWidth, space, text)
  {
    lines := [];
    var paragraphs := Paragraphs(text);
    ghost var painter := Painter(measure, maxWidth, space);
    for p := 0 to |paragraphs|
      invariant lines == Paint(painter, paragraphs[..p])
    {
      PaintOne(painter, paragraphs, p);
      var words := Words(space, paragraphs[p]);
      if |words| == 0 {
        lines := lines + [""];
      } else {
        lines := WrapWords(measure, words, maxWidth, lines);
      }
    }
    assert paragraphs[..|paragraphs|] == paragraphs;
  }

  lemma PaintOne(painter: string -> seq<string>, ps: seq<string>, p: nat)
    requires p < |ps|
    ensures Paint(painter, ps[..p + 1]) == Paint(painter, ps[..p]) + painter(ps[p])
  {
    assert ps[..p + 1][..p] == ps[..p];
  }

  lemma JoinMore(words: seq<string>, i: nat, k: nat)
    requires i < k < |words|
    ensures Join(words[i..k + 1]) == Join(words[i..k]) + " " + words[k]
  {
    var longer := words[i..k + 1];
    assert longer[..|longer| - 1] == words[i..k];
  }

  lemma RenderCons(line: seq<string>, rest: seq<seq<string>>)
    ensures Render([line] + rest) == [Join(line)] + Render(rest)
  {
  }

  // --- what a layout is, and that the greedy one is a layout ----------------------------------

  function Concat(lines: seq<seq<string>>): seq<string> {
    if lines == [] then [] else lines[0] + Concat(lines[1..])
  }

  /** A way to break `words` into lines, none empty, in which every line of two or more words fits. */
  ghost predicate IsLayout(measure: Measure, maxWidth: real, words: seq<string>, lines: seq<seq<string>>) {
    && Concat(lines) == words
    && forall i :: 0 <= i < |lines| ==> lines[i] != [] && (|lines[i]| >= 2 ==> Fits(measure, maxWidth, lines[i]))
  }

  lemma {:induction false} FillIsALayout(measure: Measure, maxWidth: real, words: seq<string>, i: nat, k: nat)
    requires i < k <= |words|
    requires k - i >= 2 ==> Fits(measure, maxWidth, words[i..k])
    ensures IsLayout(measure, maxWidth, words[i..], Fill(measure, maxWidth, words, i, k))
    decreases |words| - k
  {
    if k == |words| {
      assert words[i..k] == words[i..];
      assert Concat([words[i..]]) == words[i..] + Concat([]);
    } else if Fits(measure, maxWidth, words[i..k + 1]) {
      FillIsALayout(measure, maxWidth, words, i, k + 1);
    } else {
      FillIsALayout(measure, maxWidth, words, k, k + 1);
      assert words[i..k] + words[k..] == words[i..];
    }
  }

  // --- optimality -----------------------------------------------------------------------------

  /** No contiguous part of the text is wider than the text around it. */
  ghost predicate SubRunsAreNarrower(measure: Measure, words: seq<string>) {
    forall a: nat, b: nat, c: nat, d: nat | a <= b < c <= d <= |words| :: Narrower(measure, words, a, b, c, d)
  }

  ghost predicate Narrower(measure: Measure, words: seq<string>, a: nat, b: nat, c: nat, d: nat)
    requires a <= b < c <= d <= |words|
  {
    measure(Join(words[b..c])) <= measure(Join(words[a..d]))
  }

  lemma PartFits(measure: Measure, maxWidth: real, words: seq<string>, a: nat, b: nat, c: nat, d: nat)
    requires SubRunsAreNarrower(measure, words)
    requires a <= b < c <= d <= |words| && Fits(measure, maxWidth, words[a..d])
    ensures Fits(measure, maxWidth, words[b..c])
  {
    assert Narrower(measure, words, a, b, c, d);
  }

  /**
   Greedy stays ahead: started anywhere at or after the point another layout has reached, it needs
   no more lines than that layout has left.
   */
  lemma {:induction false} StaysAhead(
      measure: Measure, maxWidth: real, words: seq<string>, s: nat, other: seq<seq<string>>, i: nat, k: nat)
    requires s <= i < k <= |words|
    requires SubRunsAreNarrower(measure, words)
    requires IsLayout(measure, maxWidth, words[s..], other)
    ensures |Fill(measure, maxWidth, words, i, k)| <= |other|
    decreases |words| - k
  {
    assert other != [];
    var e := s + |other[0]|;
    assert words[s..] == other[0] + Concat(other[1..]);
    assert other[0] == words[s..e];
    if k == |words| {
    } else if k < e {
      PartFits(measure, maxWidth, words, s, i, k + 1, e);
      StaysAhead(measure, maxWidth, words, s, other, i, k + 1);
    } else if Fits(measure, maxWidth, words[i..k + 1]) {
      StaysAhead(measure, maxWidth, words, s, other, i, k + 1);
    } else {
      assert words[e..] == words[s..][|other[0]|..] == Concat(other[1..]);
      StaysAhead(measure, maxWidth, words, e, other[1..], k, k + 1);
    }
  }

  /** No other way to break a paragraph so that its lines fit uses fewer lines. */
  lemma WrapIsOptimal(measure: Measure, maxWidth: real, words: seq<string>, other: seq<seq<string>>)
    requires words != [] && SubRunsAreNarrower(measure, words)
    requires IsLayout(measure, maxWidth, words, other)
    ensures |WrapParagraph(measure, maxWidth, words)| <= |other|
  {
    assert words[0..] == words;
    StaysAhead(measure, maxWidth, words, 0, other, 0, 1);
  }

  /** The measure must behave: with a run narrower than its part, greedy can lose. */
  lemma OddMeasuresDefeatGreedy()
    ensures var measure := (s: string) => if |s| == 3 then 2.0 else 1.0;
            && IsLayout(measure, 1.0, ["a", "b", "c"], [["a", "b", "c"]])
            && |WrapParagraph(measure, 1.0, ["a", "b", "c"])| == 3
  {
    var measure := (s: string) => if |s| == 3 then 2.0 else 1.0;
    var w := ["a", "b", "c"];
    assert w[..2] == ["a", "b"] && w[..2][..1] == ["a"];
    assert w[0..2] == ["a", "b"] && w[1..3] == ["b", "c"];
    assert Join(["a", "b"]) == "a b" && Join(["b", "c"]) == "b c" by {
      assert ["a", "b"][..1] == ["a"] && ["b", "c"][..1] == ["b"];
    }
    assert Join(w) == "a b c";
    assert Concat([w]) == w + Concat([]);
  }

  // --- the words on the slide are the words of the text ---------------------------------------

  ghost predicate IsWord(space: char -> bool, w: string) {
    w != "" && forall x :: x in w ==> !space(x)
  }

  ghost predicate AreWords(space: char -> bool, words: seq<string>) {
    forall i :: 0 <= i < |words| ==> IsWord(space, words[i])
  }

  lemma {:induction false} WordLengthIsARun(space: char -> bool, s: string)
    ensures var n := WordLength(space, s);
            && (forall x :: x in s[..n] ==> !space(x))
            && (n < |s| ==> space(s[n]))
  {
    if s != "" && !space(s[0]) {
      WordLengthIsARun(space, s[1..]);
      var n := WordLength(space, s[1..]);
      assert s[..n + 1] == [s[0]] + s[1..][..n];
    }
  }

  lemma {:induction false} WordsAreWords(space: char -> bool, s: string)
    ensures AreWords(space, Words(space, s))
    decreases |s|
  {
    if s != "" {
      if space(s[0]) {
        WordsAreWords(space, s[1..]);
      } else {
        WordLengthIsARun(space, s);
        WordsAreWords(space, s[WordLength(space, s)..]);
      }
    }
  }

  lemma {:induction false} WordsOfWordThen(space: char -> bool, w: string, rest: string)
    requires space(' ') && IsWord(space, w)
    requires rest == "" || space(rest[0])
    ensures WordLength(space, w + rest) == |w|
    ensures Words(space, w + rest) == [w] + Words(space, rest)
  {
    var s := w + rest;
    if |w| > 1 {
      assert s[1..] == w[1..] + rest;
      WordsOfWordThen(space, w[1..], rest);
    } else {
      assert s[1..] == rest;
    }
    assert s[..|w|] == w && s[|w|..] == rest;
    assert s[0] == w[0] && !space(w[0]);
  }

  lemma {:induction false} WordsAppend(space: char -> bool, s: string, w: string)
    requires space(' ') && IsWord(space, w)
    ensures Words(space, s + " " + w) == Words(space, s) + [w]
    decreases |s|
  {
    var all := s + " " + w;
    if s == "" {
      assert all[1..] == w + "";
      WordsOfWordThen(space, w, "");
    } else if space(s[0]) {
      assert all[1..] == s[1..] + " " + w;
      WordsAppend(space, s[1..], w);
    } else {
      var n := WordLength(space, s);
      WordLengthIsARun(space, s);
      assert all == s[..n] + (s[n..] + " " + w);
      WordsOfWordThen(space, s[..n], s[n..] + " " + w);
      WordsAppend(space, s[n..], w);
    }
  }

  lemma {:induction false} WordsOfJoin(space: char -> bool, words: seq<string>)
    requires words != [] && space(' ') && AreWords(space, words)
    ensures Words(space, Join(words)) == words
  {
    if |words| == 1 {
      assert Join(words) == words[0] + "";
      WordsOfWordThen(space, words[0], "");
    } else {
      var init := words[..|words| - 1];
      WordsOfJoin(space, init);
      WordsAppend(space, Join(init), words[|words| - 1]);
    }
  }

  function WordsOfLines(space: char -> bool, lines: seq<string>): seq<string> {
    if lines == [] then [] else Words(space, lines[0]) + WordsOfLines(space, lines[1..])
  }

  lemma {:induction false} RenderKeepsWords(space: char -> bool, lines: seq<seq<string>>)
    requires space(' ') && forall i :: 0 <= i < |lines| ==> lines[i] != [] && AreWords(space, lines[i])
    ensures WordsOfLines(space, Render(lines)) == Concat(lines)
  {
    if lines != [] {
      assert Render(lines)[1..] == Render(lines[1..]);
      WordsOfJoin(space, lines[0]);
      RenderKeepsWords(space, lines[1..]);
    }
  }

  lemma {:induction false} LinesHoldWords(space: char -> bool, lines: seq<seq<string>>)
    requires AreWords(space, Concat(lines))
    ensures forall i :: 0 <= i < |lines| ==> AreWords(space, lines[i])
  {
    if lines != [] {
      var all := Concat(lines);
      assert forall i :: 0 <= i < |lines[0]| ==> lines[0][i] == all[i];
      assert forall i :: 0 <= i < |Concat(lines[1..])| ==> Concat(lines[1..])[i] == all[|lines[0]| + i];
      LinesHoldWords(space, lines[1..]);
    }
  }

  /** Every word of a paragraph is drawn, once, whole and in order. */
  lemma WrapKeepsWords(measure: Measure, maxWidth: real, space: char -> bool, paragraph: string)
    requires space(' ')
    ensures var words := Words(space, paragraph);
            WordsOfLines(space, WrapParagraph(measure, maxWidth, words)) == words
  {
    var words := Words(space, paragraph);
    WordsAreWords(space, paragraph);
    if words == [] {
      assert WordsOfLines(space, [""]) == Words(space, "") + WordsOfLines(space, []);
    } else {
      var lines := Fill(measure, maxWidth, words, 0, 1);
      FillIsALayout(measure, maxWidth, words, 0, 1);
      assert words[0..] == words;
      LinesHoldWords(space, lines);
      RenderKeepsWords(space, lines);
    }
  }

  /** Putting the paragraphs back together. */
  function JoinParagraphs(ps: seq<string>): string
    requires ps != []
  {
    if |ps| == 1 then ps[0] else ps[0] + "\n" + JoinParagraphs(ps[1..])
  }

  lemma {:induction false} ParagraphsRoundTrip(text: string)
    ensures JoinParagraphs(Paragraphs(text)) == text
    ensures forall i :: 0 <= i < |Paragraphs(text)| ==> '\n' !in Paragraphs(text)[i]
  {
    if text != "" {
      ParagraphsRoundTrip(text[1..]);
      var rest := Paragraphs(text[1..]);
      assert text == [text[0]] + text[1..];
      if text[0] == '\n' {
        assert ([""] + rest)[1..] == rest;
      } else {
        assert ([[text[0]] + rest[0]] + rest[1..])[1..] == rest[1..];
      }
    }
  }

  lemma {:induction false} WordsSplitAtSpace(space: char -> bool, s: string, x: char, t: string)
    requires space(x)
    ensures Words(space, s + [x] + t) == Words(space, s) + Words(space, t)
    decreases |s|
  {
    var all := s + [x] + t;
    if s == "" {
      assert all[1..] == t;
    } else if space(s[0]) {
      assert all[1..] == s[1..] + [x] + t;
      WordsSplitAtSpace(space, s[1..], x, t);
    } else {
      var n := WordLength(space, s);
      WordLengthOfPrefix(space, s, [x] + t);
      assert all == s + ([x] + t);
      FirstWordOff(space, s, n);
      FirstWordOff(space, all, n);
      WordsSplitAtSpace(space, s[n..], x, t);
      assert all[..n] == s[..n] && all[n..] == s[n..] + [x] + t;
    }
  }

  lemma FirstWordOff(space: char -> bool, s: string, n: nat)
    requires s != "" && !space(s[0]) && n == WordLength(space, s)
    ensures n > 0 && Words(space, s) == [s[..n]] + Words(space, s[n..])
  {
  }

  lemma {:induction false} WordLengthOfPrefix(space: char -> bool, s: string, t: string)
    requires t != "" && space(t[0])
    ensures WordLength(space, s + t) == WordLength(space, s)
  {
    if s != "" && !space(s[0]) {
      assert (s + t)[1..] == s[1..] + t;
      WordLengthOfPrefix(space, s[1..], t);
    }
  }

  lemma {:induction false} WordsOfLinesAppend(space: char -> bool, a: seq<string>, b: seq<string>)
    ensures WordsOfLines(space, a + b) == WordsOfLines(space, a) + WordsOfLines(space, b)
  {
    if a == [] {
      assert a + b == b;
    } else {
      assert (a + b)[1..] == a[1..] + b;
      WordsOfLinesAppend(space, a[1..], b);
    }
  }

  lemma WordsOfLinesSnoc(space: char -> bool, init: seq<string>, last: string)
    ensures WordsOfLines(space, init + [last]) == WordsOfLines(space, init) + Words(space, last)
  {
    WordsOfLinesAppend(space, init, [last]);
    assert WordsOfLines(space, [last]) == Words(space, last) + WordsOfLines(space, []);
  }

  lemma SameWordsSnoc(space: char -> bool, above: seq<string>, here: seq<string>, init: seq<string>, last: string)
    requires WordsOfLines(space, above) == WordsOfLines(space, init)
    requires WordsOfLines(space, here) == Words(space, last)
    ensures WordsOfLines(space, above + here) == WordsOfLines(space, init + [last])
  {
    WordsOfLinesAppend(space, above, here);
    WordsOfLinesSnoc(space, init, last);
  }

  ghost predicate KeepsWords(space: char -> bool, painter: string -> seq<string>, paragraph: string) {
    WordsOfLines(space, painter(paragraph)) == Words(space, paragraph)
  }

  lemma {:induction false} PaintKeepsWords(space: char -> bool, painter: string -> seq<string>, ps: seq<string>)
    requires forall p :: KeepsWords(space, painter, p)
    ensures WordsOfLines(space, Paint(painter, ps)) == WordsOfLines(space, ps)
  {
    if ps != [] {
      var init, last := ps[..|ps| - 1], ps[|ps| - 1];
      PaintKeepsWords(space, painter, init);
      assert KeepsWords(space, painter, last);
      SameWordsSnoc(space, Paint(painter, init), painter(last), init, last);
      assert ps == init + [last];
    }
  }

  lemma {:induction false} JoinedParagraphWords(space: char -> bool, ps: seq<string>)
    requires space('\n') && ps != []
    ensures Words(space, JoinParagraphs(ps)) == WordsOfLines(space, ps)
  {
    if |ps| == 1 {
      assert WordsOfLines(space, ps[1..]) == [];
    } else {
      JoinedParagraphWords(space, ps[1..]);
      WordsSplitAtSpace(space, ps[0], '\n', JoinParagraphs(ps[1..]));
    }
  }

  /** The whole slide: the words drawn are exactly the words of the text, newlines included. */
  lemma SlideShowsTheText(measure: Measure, maxWidth: real, space: char -> bool, text: string)
    requires space(' ') && space('\n')
    ensures WordsOfLines(space, WrapText(measure, maxWidth, space, text)) == Words(space, text)
  {
    var ps := Paragraphs(text);
    var painter := Painter(measure, maxWidth, space);
    ParagraphsRoundTrip(text);
    forall p ensures KeepsWords(space, painter, p) {
      WrapKeepsWords(measure, maxWidth, space, p);
    }
    PaintKeepsWords(space, painter, ps);
    JoinedParagraphWords(space, ps);
  }

  // --- paragraph by paragraph -----------------------------------------------------------------

  /** No line but the last has room for the word after it. */
  ghost predicate FillsEachLine(measure: Measure, maxWidth: real, lines: seq<seq<string>>) {
    forall i, j :: 0 <= i < j < |lines| && j == i + 1 && lines[j] != []
                   ==> !Fits(measure, maxWidth, lines[i] + [lines[j][0]])
  }

  lemma {:induction false} FillFillsEachLine(measure: Measure, maxWidth: real, words: seq<string>, i: nat, k: nat)
    requires i < k <= |words|
    ensures var lines := Fill(measure, maxWidth, words, i, k);
            && FillsEachLine(measure, maxWidth, lines)
            && lines[0] != [] && lines[0][0] == words[i]
    decreases |words| - k
  {
    if k < |words| {
      if Fits(measure, maxWidth, words[i..k + 1]) {
        FillFillsEachLine(measure, maxWidth, words, i, k + 1);
      } else {
        FillFillsEachLine(measure, maxWidth, words, k, k + 1);
        var rest := Fill(measure, maxWidth, words, k, k + 1);
        var lines := [words[i..k]] + rest;
        assert words[i..k] + [words[k]] == words[i..k + 1];
        forall a, b | 0 <= a < b < |lines| && b == a + 1 && lines[b] != []
          ensures !Fits(measure, maxWidth, lines[a] + [lines[b][0]])
        {
          assert lines[b] == rest[a];
          if a > 0 {
            assert lines[a] == rest[a - 1];
          }
        }
      }
    }
  }

  /** `lines` breaks the words into lines that fit, each as full as can be. */
  ghost predicate IsGreedy(measure: Measure, maxWidth: real, words: seq<string>, lines: seq<seq<string>>) {
    IsLayout(measure, maxWidth, words, lines) && FillsEachLine(measure, maxWidth, lines)
  }

  /** What is drawn for one paragraph, an empty line if it has no words. */
  ghost predicate IsBlock(measure: Measure, maxWidth: real, words: seq<string>, block: seq<string>) {
    if words == [] then block == [""]
    else
      && block != []
      && (exists lines :: IsGreedy(measure, maxWidth, words, lines) && block == Render(lines))
      && (SubRunsAreNarrower(measure, words) ==>
            forall other :: IsLayout(measure, maxWidth, words, other) ==> |block| <= |other|)
  }

  lemma ParagraphIsABlock(measure: Measure, maxWidth: real, words: seq<string>)
    ensures IsBlock(measure, maxWidth, words, WrapParagraph(measure, maxWidth, words))
  {
    if words != [] {
      var lines := Fill(measure, maxWidth, words, 0, 1);
      assert words[0..] == words;
      FillIsALayout(measure, maxWidth, words, 0, 1);
      FillFillsEachLine(measure, maxWidth, words, 0, 1);
      assert IsGreedy(measure, maxWidth, words, lines);
      if SubRunsAreNarrower(measure, words) {
        forall other | IsLayout(measure, maxWidth, words, other)
          ensures |WrapParagraph(measure, maxWidth, words)| <= |other|
        {
          WrapIsOptimal(measure, maxWidth, words, other);
        }
      }
    }
  }

  lemma {:induction false} ConcatSnoc(blocks: seq<seq<string>>, block: seq<string>)
    ensures Concat(blocks + [block]) == Concat(blocks) + block
  {
    if blocks == [] {
      assert blocks + [block] == [block];
      assert Concat([block]) == block + Concat([]);
    } else {
      assert (blocks + [block])[1..] == blocks[1..] + [block];
      ConcatSnoc(blocks[1..], block);
    }
  }

  lemma {:induction false} PaintInBlocks(painter: string -> seq<string>, ps: seq<string>)
    returns (blocks: seq<seq<string>>)
    ensures |blocks| == |ps| && Concat(blocks) == Paint(painter, ps)
    ensures forall i :: 0 <= i < |ps| ==> blocks[i] == painter(ps[i])
  {
    blocks := [];
    if ps != [] {
      var n := |ps| - 1;
      var init := PaintInBlocks(painter, ps[..n]);
      ConcatSnoc(init, painter(ps[n]));
      blocks := init + [painter(ps[n])];
    }
  }

  /**
   The slide, paragraph by paragraph: the pieces of the text between its newlines are drawn one below
   the other, each as a block of its own that breaks its words greedily, in as few lines as any layout
   has; a piece without words keeps one empty line.
   */
  lemma TextIsDrawnInBlocks(measure: Measure, maxWidth: real, space: char -> bool, text: string)
    returns (pieces: seq<string>, blocks: seq<seq<string>>)
    ensures pieces != [] && JoinParagraphs(pieces) == text
    ensures forall i :: 0 <= i < |pieces| ==> '\n' !in pieces[i]
    ensures |blocks| == |pieces| && Concat(blocks) == WrapText(measure, maxWidth, space, text)
    ensures forall i :: 0 <= i < |pieces| ==> IsBlock(measure, maxWidth, Words(space, pieces[i]), blocks[i])
  {
    pieces := Paragraphs(text);
    ParagraphsRoundTrip(text);
    blocks := PaintInBlocks(Painter(measure, maxWidth, space), pieces);
    forall i | 0 <= i < |pieces| ensures IsBlock(measure, maxWidth, Words(space, pieces[i]), blocks[i]) {
      ParagraphIsABlock(measure, maxWidth, Words(space, pieces[i]));
    }
  }

  /** Text and pieces determine each other: there is only one way to cut at the newlines. */
  lemma {:induction false} JoinDetermines(a: seq<string>, b: seq<string>)
    requires a != [] && b != [] && JoinParagraphs(a) == JoinParagraphs(b)
    requires forall i :: 0 <= i < |a| ==> '\n' !in a[i]
    requires forall i :: 0 <= i < |b| ==> '\n' !in b[i]
    ensures a == b
  {
    FirstPiece(a);
    FirstPiece(b);
    FirstReaches(a, b);
    FirstReaches(b, a);
    var text, n := JoinParagraphs(a), |a[0]|;
    assert a[0] == text[..n] && b[0] == text[..n];
    if |a| > 1 {
      assert JoinParagraphs(a[1..]) == text[n + 1..] && JoinParagraphs(b[1..]) == text[n + 1..];
      JoinDetermines(a[1..], b[1..]);
      assert a == [a[0]] + a[1..] && b == [b[0]] + b[1..];
    }
  }

  lemma FirstReaches(a: seq<string>, b: seq<string>)
    requires a != [] && b != [] && JoinParagraphs(a) == JoinParagraphs(b) && '\n' !in b[0]
    ensures |b[0]| <= |a[0]|
  {
    FirstPiece(a);
    FirstPiece(b);
    var text := JoinParagraphs(b);
    forall k | 0 <= k < |b[0]| ensures text[k] != '\n' {
      assert text[k] == b[0][k] && b[0][k] in b[0];
    }
  }

  lemma FirstPiece(ps: seq<string>)
    requires ps != []
    ensures ps[0] <= JoinParagraphs(ps)
    ensures |ps| == 1 <==> |JoinParagraphs(ps)| == |ps[0]|
    ensures |ps| > 1 ==> JoinParagraphs(ps)[|ps[0]|] == '\n'
  {
  }
}

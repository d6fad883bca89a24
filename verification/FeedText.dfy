/**
 What of a feed's text survives app/core/text.py: every word outside a tag, in order, one space apart.
 The words of a text are those `/\s+/` separates, as the slide renderer has them too.
 */
module FeedText {
  import opened Common
  import opened Text
  import DedupeKey
  import SlideCanvas

  function WordsOf(c: CharClasses, s: string): seq<string> {
    SlideCanvas.Words(c.space, s)
  }

  // --- tags and control characters ------------------------------------------------------------

  lemma {:induction false} IndexOfFirst(s: string, x: char, i: nat)
    requires i < |s| && s[i] == x && x !in s[..i]
    ensures IndexOf(s, x) == i
  {
    if i > 0 {
      assert s[..i][0] == s[0] && s[..i][1..] == s[1..][..i - 1];
      IndexOfFirst(s[1..], x, i - 1);
    }
  }

  /** A tag becomes one space; what stands before and after it is kept, and searched for further tags. */
  lemma {:induction false} TagBecomesASpace(before: string, tag: string, after: string)
    requires '<' !in before && '>' !in tag
    ensures SubTags(before + "<" + tag + ">" + after) == before + " " + SubTags(after)
  {
    var s := before + "<" + tag + ">" + after;
    if before == "" {
      var n := |tag| + 1;
      assert s[..n] == "<" + tag;
      IndexOfFirst(s, '>', n);
      assert s[n + 1..] == after;
    } else {
      assert s[1..] == before[1..] + "<" + tag + ">" + after;
      TagBecomesASpace(before[1..], tag, after);
    }
  }

  /** Any text either has no tag, and is kept as it is, or is cut at its first tag. */
  lemma FirstTag(s: string) returns (before: string, tag: string, after: string)
    requires !NoTag(s)
    ensures '<' !in before && '>' !in tag && s == before + "<" + tag + ">" + after
  {
    var i, j :| 0 <= i < j < |s| && s[i] == '<' && s[j] == '>';
    var a := FirstOf(s, '<', i);
    var rest := s[a + 1..];
    var b := FirstOf(rest, '>', j - a - 1);
    before, tag, after := s[..a], rest[..b], rest[b + 1..];
    CutTwice(s, a, b);
  }

  lemma CutTwice(s: string, a: nat, b: nat)
    requires a < |s| && b < |s[a + 1..]| && s[a] == '<' && s[a + 1..][b] == '>'
    ensures var rest := s[a + 1..];
            s == s[..a] + "<" + rest[..b] + ">" + rest[b + 1..]
  {
    var rest := s[a + 1..];
    assert rest == rest[..b] + ">" + rest[b + 1..];
    assert s == s[..a] + "<" + rest;
    assert s[..a] + "<" + (rest[..b] + ">" + rest[b + 1..]) == s[..a] + "<" + rest[..b] + ">" + rest[b + 1..];
  }

  lemma FirstOf(s: string, x: char, i: nat) returns (first: nat)
    requires i < |s| && s[i] == x
    ensures first <= i && s[first] == x && x !in s[..first]
  {
    assert s[i] in s;
    first := IndexOf(s, x);
    forall k | 0 <= k < first ensures s[k] != x {
      assert s[..first][k] == s[k];
    }
  }

  /** Exactly the control characters go, one by one. */
  lemma {:induction false} ControlsGo(c: CharClasses, a: string, x: char, b: string)
    ensures DropControls(c, a + [x] + b)
         == DropControls(c, a) + (if c.control(x) then "" else [x]) + DropControls(c, b)
  {
    var s := a + [x] + b;
    if a == "" {
      assert s[1..] == b;
    } else {
      assert s[1..] == a[1..] + [x] + b;
      ControlsGo(c, a[1..], x, b);
    }
  }

  // --- whitespace -----------------------------------------------------------------------------

  lemma LeadingSpace(c: CharClasses, x: char, s: string)
    requires c.space(x)
    ensures WordsOf(c, [x] + s) == WordsOf(c, s)
  {
    assert ([x] + s)[1..] == s;
  }

  /** One more character before a text starts a word, or lengthens its first one. */
  lemma LeadingLetter(c: CharClasses, x: char, s: string)
    requires !c.space(x)
    ensures s == "" || c.space(s[0]) ==> WordsOf(c, [x] + s) == [[x]] + WordsOf(c, s)
    ensures s != "" && !c.space(s[0]) ==>
              var words := WordsOf(c, s);
              words != [] && WordsOf(c, [x] + s) == [[x] + words[0]] + words[1..]
  {
    var all, n := [x] + s, SlideCanvas.WordLength(c.space, s);
    assert all[1..] == s;
    assert all[..n + 1] == [x] + s[..n] && all[n + 1..] == s[n..];
    if s == "" || c.space(s[0]) {
      assert s[..0] == "" && s[0..] == s;
    }
  }

  lemma {:induction false} LStripKeepsWords(c: CharClasses, s: string)
    ensures WordsOf(c, LStrip(c.space, s)) == WordsOf(c, s)
  {
    if s != "" && c.space(s[0]) {
      LStripKeepsWords(c, s[1..]);
    }
  }

  lemma {:induction false} RStripKeepsWords(c: CharClasses, s: string)
    ensures WordsOf(c, RStrip(c.space, s)) == WordsOf(c, s)
  {
    if s != "" && c.space(s[|s| - 1]) {
      var init, last := s[..|s| - 1], s[|s| - 1];
      RStripKeepsWords(c, init);
      SlideCanvas.WordsSplitAtSpace(c.space, init, last, "");
      assert init + [last] + "" == s;
    }
  }

  lemma SameAfterSpace(c: CharClasses, x: char, s: string, y: char, t: string)
    requires c.space(x) && c.space(y) && WordsOf(c, s) == WordsOf(c, t)
    ensures WordsOf(c, [x] + s) == WordsOf(c, [y] + t)
  {
    LeadingSpace(c, x, s);
    LeadingSpace(c, y, t);
  }

  lemma SameAfterLetter(c: CharClasses, x: char, s: string, t: string)
    requires !c.space(x) && WordsOf(c, s) == WordsOf(c, t)
    requires (s == "" <==> t == "") && (s != "" ==> (c.space(s[0]) <==> c.space(t[0])))
    ensures WordsOf(c, [x] + s) == WordsOf(c, [x] + t)
  {
    LeadingLetter(c, x, s);
    LeadingLetter(c, x, t);
  }

  lemma {:induction false} CollapseKeepsWords(c: CharClasses, s: string)
    requires Sane(c)
    ensures WordsOf(c, Collapse(c, s)) == WordsOf(c, s)
    decreases |s|
  {
    if s != "" {
      var t := AfterRun(c, s);
      CollapseKeepsWords(c, t);
      CollapseFlattens(c, t);
      assert s == [s[0]] + s[1..];
      if c.space(s[0]) {
        LStripKeepsWords(c, s[1..]);
        SameAfterSpace(c, s[0], s[1..], ' ', Collapse(c, t));
      } else {
        SameAfterLetter(c, s[0], t, Collapse(c, t));
      }
    }
  }

  lemma {:induction false} JoinFrom(word: string, words: seq<string>)
    requires words != []
    ensures SlideCanvas.Join([word] + words) == word + " " + SlideCanvas.Join(words)
  {
    var all, n := [word] + words, |words| - 1;
    assert all[..|all| - 1] == [word] + words[..n];
    if n > 0 {
      JoinFrom(word, words[..n]);
    } else {
      assert words[..0] == [] && [word] + words[..0] == [word];
    }
  }

  lemma RestIsFlat(c: CharClasses, s: string, n: nat)
    requires Flat(c, s) && NoEdgeSpace(c, s) && n < |s| && c.space(s[n])
    ensures var rest := s[n + 1..];
            s[n] == ' ' && s[n..] == " " + rest && rest != "" && Flat(c, rest) && NoEdgeSpace(c, rest)
  {
    var rest := s[n + 1..];
    assert rest != "" && !c.space(rest[0]) by {
      assert n + 1 < |s|;
      var x, y := s[n], s[n + 1];
      assert !(c.space(x) && c.space(y));
    }
    FlatSlice(c, s, n + 1, |s|);
    assert s[n + 1..|s|] == rest;
  }

  lemma FirstWord(c: CharClasses, s: string, n: nat)
    requires s != "" && !c.space(s[0]) && n == SlideCanvas.WordLength(c.space, s)
    ensures WordsOf(c, s) == [s[..n]] + WordsOf(c, s[n..])
    ensures n == |s| ==> WordsOf(c, s) == [s]
  {
    if n == |s| {
      assert s[..n] == s;
    }
  }

  lemma FirstWordOfFlatText(c: CharClasses, s: string) returns (n: nat)
    requires Flat(c, s) && NoEdgeSpace(c, s) && s != ""
    ensures n <= |s|
    ensures n == |s| ==> WordsOf(c, s) == [s]
    ensures n < |s| ==>
              var rest := s[n + 1..];
              && s == s[..n] + " " + rest && WordsOf(c, s) == [s[..n]] + WordsOf(c, rest)
              && rest != "" && Flat(c, rest) && NoEdgeSpace(c, rest)
  {
    n := SlideCanvas.WordLength(c.space, s);
    SlideCanvas.WordLengthIsARun(c.space, s);
    FirstWord(c, s, n);
    if n < |s| {
      RestIsFlat(c, s, n);
      LeadingSpace(c, ' ', s[n + 1..]);
      assert s == s[..n] + s[n..];
    }
  }

  /** Text in single spaces is its words, one space apart. */
  lemma {:induction false} FlatTextIsItsWords(c: CharClasses, s: string)
    requires Flat(c, s) && NoEdgeSpace(c, s)
    ensures s == SlideCanvas.Join(WordsOf(c, s))
    ensures s != "" ==> WordsOf(c, s) != []
    decreases |s|
  {
    if s != "" {
      var n := FirstWordOfFlatText(c, s);
      if n < |s| {
        FlatTextIsItsWords(c, s[n + 1..]);
        JoinFrom(s[..n], WordsOf(c, s[n + 1..]));
      }
    }
  }

  // --- the two policies -----------------------------------------------------------------------

  /**
   `strip_markup` spelled out: the words that are left once tags are spaces and control characters are
   gone, all of them, in order, one space apart.
   */
  lemma StripMarkupKeepsTheWords(c: CharClasses, s: string)
    requires Sane(c)
    ensures StripMarkup(c, Some(s)) == SlideCanvas.Join(WordsOf(c, DropControls(c, SubTags(s))))
  {
    var bare := DropControls(c, SubTags(s));
    CollapseKeepsWords(c, bare);
    LStripKeepsWords(c, Collapse(c, bare));
    RStripKeepsWords(c, LStrip(c.space, Collapse(c, bare)));
    StripMarkupGivesProse(c, Some(s));
    FlatTextIsItsWords(c, StripMarkup(c, Some(s)));
  }

  /** A headline counts, for the article key, as the words in it. */
  lemma NormalizedTitleIsItsWords(c: CharClasses, fold: char -> string, title: string)
    requires Sane(c)
    ensures DedupeKey.NormalizeTitle(c, fold, title) == DedupeKey.Fold(fold, SlideCanvas.Join(WordsOf(c, title)))
  {
    var flat := Collapse(c, title);
    CollapseKeepsWords(c, title);
    CollapseFlattens(c, title);
    LStripKeepsWords(c, flat);
    RStripKeepsWords(c, LStrip(c.space, flat));
    var lo, hi := StripIsASlice(c, flat);
    FlatSlice(c, flat, lo, hi);
    StripLeavesNoEdge(c, flat);
    FlatTextIsItsWords(c, Strip(c, flat));
  }
}

/**
 app/core/text.py: feed text on its way into the database and out of it.

 The Unicode tables are a parameter: which characters are whitespace (`\s`, `str.strip`) and which
 have a category starting with "C".
 */
module Text {
  import opened Common

  datatype CharClasses = CharClasses(space: char -> bool, control: char -> bool)

  const LEFT_LOOKALIKE: char := '\U{2039}'
  const RIGHT_LOOKALIKE: char := '\U{203A}'
  const ELLIPSIS: char := '\U{2026}'

  /** What the code relies on in the Unicode tables. */
  ghost predicate Sane(c: CharClasses) {
    && c.space(' ') && !c.control(' ')
    && forall x :: x in ['<', '>', LEFT_LOOKALIKE, RIGHT_LOOKALIKE, ELLIPSIS] ==> !c.space(x) && !c.control(x)
  }

  // --- the regular expressions and string methods ---------------------------------------------

  function IndexOf(s: string, x: char): (i: nat)
    requires x in s
    ensures i < |s| && s[i] == x
    ensures x !in s[..i]
  {
    if s[0] == x then 0 else 1 + IndexOf(s[1..], x)
  }

  /** `re.sub(r"<[^>]*>", " ", s)`: a match runs from a '<' to the first '>' after it. */
  function SubTags(s: string): string {
    if s == "" then ""
    else if s[0] == '<' && '>' in s then " " + SubTags(s[IndexOf(s, '>') + 1..])
    else [s[0]] + SubTags(s[1..])
  }

  function DropControls(c: CharClasses, s: string): string {
    if s == "" then ""
    else (if c.control(s[0]) then "" else [s[0]]) + DropControls(c, s[1..])
  }

  function LStrip(drop: char -> bool, s: string): (r: string)
    ensures |r| <= |s| && r == s[|s| - |r|..]
    ensures r != "" ==> !drop(r[0])
  {
    if s != "" && drop(s[0]) then LStrip(drop, s[1..]) else s
  }

  function RStrip(drop: char -> bool, s: string): (r: string)
    ensures r <= s
    ensures r != "" ==> !drop(r[|r| - 1])
    ensures forall k :: |r| <= k < |s| ==> drop(s[k])
  {
    if s != "" && drop(s[|s| - 1]) then RStrip(drop, s[..|s| - 1]) else s
  }

  function Strip(c: CharClasses, s: string): string {
    RStrip(c.space, LStrip(c.space, s))
  }

  /** What is left of `s` after its first character, or after the whole run of whitespace it starts with. */
  function AfterRun(c: CharClasses, s: string): (r: string)
    requires s != ""
    ensures |r| < |s| && r == s[|s| - |r|..]
    ensures c.space(s[0]) && r != "" ==> !c.space(r[0])
  {
    if c.space(s[0]) then LStrip(c.space, s[1..]) else s[1..]
  }

  /** `re.sub(r"\s+", " ", s)`. */
  function Collapse(c: CharClasses, s: string): string
    decreases |s|
  {
    if s == "" then "" else [if c.space(s[0]) then ' ' else s[0]] + Collapse(c, AfterRun(c, s))
  }

  function Replace1(s: string, x: char, y: char): (r: string)
    ensures |r| == |s|
    ensures forall i :: 0 <= i < |s| ==> r[i] == if s[i] == x then y else s[i]
  {
    seq(|s|, i requires 0 <= i < |s| => if s[i] == x then y else s[i])
  }

  // --- app/core/text.py -----------------------------------------------------------------------

  function StripMarkup(c: CharClasses, value: Option<string>): string {
    match value
    case None => ""
    case Some(s) => Strip(c, Collapse(c, DropControls(c, SubTags(s))))
  }

  /** `text[:n]` in Python, where a negative `n` counts from the end. */
  function Take(s: string, n: int): (r: string)
    ensures r <= s
    ensures n >= 0 ==> |r| == if n < |s| then n else |s|
  {
    if n < 0 then (if |s| + n < 0 then "" else s[..|s| + n])
    else if n < |s| then s[..n] else s
  }

  /** The delimiter substitution: angle brackets become lookalikes. */
  function Disarm(s: string): string {
    Replace1(Replace1(s, '<', LEFT_LOOKALIKE), '>', RIGHT_LOOKALIKE)
  }

  function Shorten(c: CharClasses, text: string, max: int): string {
    if |text| > max then RStrip(c.space, Take(text, max - 1)) + [ELLIPSIS] else text
  }

  function Sanitize(c: CharClasses, value: Option<string>, maxChars: Option<int>): string {
    var text := Disarm(StripMarkup(c, value));
    if maxChars.Some? then Shorten(c, text, maxChars.value) else text
  }

  function BeforeLastSpace(s: string): string {
    if ' ' !in s then s
    else if s[|s| - 1] == ' ' then s[..|s| - 1]
    else BeforeLastSpace(s[..|s| - 1])
  }

  const CLIP_TRIM: string := " ,;:-"

  function Clip(c: CharClasses, value: Option<string>, maxChars: int): (string, bool) {
    CutAtWord(Sanitize(c, value, None), maxChars)
  }

  function CutAtWord(text: string, maxChars: int): (string, bool) {
    if |text| <= maxChars then (text, false)
    else
      var cut := RStrip(x => x in CLIP_TRIM, BeforeLastSpace(Take(text, maxChars)));
      (if cut != "" then cut else Take(text, maxChars), true)
  }

  // --- the normal form ------------------------------------------------------------------------

  /** No '<' has a '>' anywhere after it. */
  ghost predicate NoTag(s: string) {
    forall i, j :: 0 <= i < j < |s| ==> !(s[i] == '<' && s[j] == '>')
  }

  /** Every whitespace character is a single ' ' between two other characters. */
  ghost predicate Flat(c: CharClasses, s: string) {
    && (forall i :: 0 <= i < |s| && c.space(s[i]) ==> s[i] == ' ')
    && (forall i, j :: 0 <= i < j < |s| && j == i + 1 ==> !(c.space(s[i]) && c.space(s[j])))
  }

  ghost predicate NoEdgeSpace(c: CharClasses, s: string) {
    s != "" ==> !c.space(s[0]) && !c.space(s[|s| - 1])
  }

  ghost predicate NoControls(c: CharClasses, s: string) {
    forall x :: x in s ==> !c.control(x)
  }

  /** Text with no markup left in it, on one line, with single spaces. */
  ghost predicate Prose(c: CharClasses, s: string) {
    NoTag(s) && NoControls(c, s) && Flat(c, s) && NoEdgeSpace(c, s)
  }

  // --- each step reaches its part of the normal form, and leaves it alone once there ----------

  lemma NoTagCons(x: char, t: string)
    requires NoTag(t) && (x == '<' ==> '>' !in t)
    ensures NoTag([x] + t)
  {
    var s := [x] + t;
    forall i, j | 0 <= i < j < |s| ensures !(s[i] == '<' && s[j] == '>') {
      assert s[j] == t[j - 1];
    }
  }

  lemma NoTagTail(s: string)
    requires NoTag(s) && s != ""
    ensures NoTag(s[1..]) && (s[0] == '<' ==> '>' !in s)
  {
    forall i, j | 0 <= i < j < |s[1..]| ensures !(s[1..][i] == '<' && s[1..][j] == '>') {
      assert s[1..][i] == s[i + 1] && s[1..][j] == s[j + 1];
    }
  }

  lemma {:induction false} SubTagsMembers(s: string, x: char)
    requires x in SubTags(s) && x != ' '
    ensures x in s
    decreases |s|
  {
    if s != "" {
      if s[0] == '<' && '>' in s {
        SubTagsMembers(s[IndexOf(s, '>') + 1..], x);
      } else if x != s[0] {
        SubTagsMembers(s[1..], x);
      }
    }
  }

  lemma {:induction false} SubTagsRemovesTags(s: string)
    ensures NoTag(SubTags(s))
    decreases |s|
  {
    if s != "" {
      if s[0] == '<' && '>' in s {
        var rest := s[IndexOf(s, '>') + 1..];
        SubTagsRemovesTags(rest);
        NoTagCons(' ', SubTags(rest));
      } else {
        SubTagsRemovesTags(s[1..]);
        if s[0] == '<' && '>' in SubTags(s[1..]) {
          SubTagsMembers(s[1..], '>');
        }
        NoTagCons(s[0], SubTags(s[1..]));
      }
    }
  }

  lemma {:induction false} SubTagsKeepsTagless(s: string)
    requires NoTag(s)
    ensures SubTags(s) == s
  {
    if s != "" {
      NoTagTail(s);
      SubTagsKeepsTagless(s[1..]);
    }
  }

  lemma {:induction false} DropControlsWorks(c: CharClasses, s: string)
    ensures NoControls(c, DropControls(c, s))
    ensures forall x :: x in DropControls(c, s) ==> x in s
    ensures NoTag(s) ==> NoTag(DropControls(c, s))
    ensures NoControls(c, s) ==> DropControls(c, s) == s
  {
    if s != "" {
      var t := s[1..];
      DropControlsWorks(c, t);
      assert s == [s[0]] + t;
      if NoTag(s) {
        NoTagTail(s);
        if !c.control(s[0]) {
          NoTagCons(s[0], DropControls(c, t));
        }
      }
    }
  }

  lemma NoTagSlice(s: string, lo: nat, hi: nat)
    requires NoTag(s) && lo <= hi <= |s|
    ensures NoTag(s[lo..hi])
  {
    var t := s[lo..hi];
    forall i, j | 0 <= i < j < |t| ensures !(t[i] == '<' && t[j] == '>') {
      assert t[i] == s[lo + i] && t[j] == s[lo + j];
    }
  }

  lemma FlatCons(c: CharClasses, x: char, t: string)
    requires Flat(c, t) && (c.space(x) ==> x == ' ' && (t == "" || !c.space(t[0])))
    ensures Flat(c, [x] + t)
  {
    var s := [x] + t;
    forall i | 0 <= i < |s| && c.space(s[i]) ensures s[i] == ' ' {
      assert i > 0 ==> s[i] == t[i - 1];
    }
    forall i, j | 0 <= i < j < |s| && j == i + 1 ensures !(c.space(s[i]) && c.space(s[j])) {
      assert s[j] == t[i];
    }
  }

  lemma {:induction false} CollapseFlattens(c: CharClasses, s: string)
    requires Sane(c)
    ensures Flat(c, Collapse(c, s))
    ensures s != "" ==> Collapse(c, s) != "" && (c.space(Collapse(c, s)[0]) <==> c.space(s[0]))
    decreases |s|
  {
    if s != "" {
      var t := AfterRun(c, s);
      CollapseFlattens(c, t);
      FlatCons(c, if c.space(s[0]) then ' ' else s[0], Collapse(c, t));
    }
  }

  lemma {:induction false} CollapseMembers(c: CharClasses, s: string, x: char)
    requires x in Collapse(c, s) && x != ' '
    ensures x in s
    decreases |s|
  {
    if s != "" && x != s[0] {
      CollapseMembers(c, AfterRun(c, s), x);
    }
  }

  lemma {:induction false} CollapseKeepsNoTag(c: CharClasses, s: string)
    requires NoTag(s)
    ensures NoTag(Collapse(c, s))
    decreases |s|
  {
    if s != "" {
      var t := AfterRun(c, s);
      NoTagSlice(s, |s| - |t|, |s|);
      assert s[|s| - |t|..|s|] == t;
      CollapseKeepsNoTag(c, t);
      NoTagTail(s);
      if '>' in Collapse(c, t) {
        CollapseMembers(c, t, '>');
      }
      NoTagCons(if c.space(s[0]) then ' ' else s[0], Collapse(c, t));
    }
  }

  lemma CollapseKeepsNoControls(c: CharClasses, s: string)
    requires Sane(c) && NoControls(c, s)
    ensures NoControls(c, Collapse(c, s))
  {
    forall x | x in Collapse(c, s) ensures !c.control(x) {
      if x != ' ' {
        CollapseMembers(c, s, x);
      }
    }
  }

  lemma FlatSlice(c: CharClasses, s: string, lo: nat, hi: nat)
    requires Flat(c, s) && lo <= hi <= |s|
    ensures Flat(c, s[lo..hi])
  {
    var t := s[lo..hi];
    forall i | 0 <= i < |t| && c.space(t[i]) ensures t[i] == ' ' {
      assert t[i] == s[lo + i];
    }
    forall i, j | 0 <= i < j < |t| && j == i + 1 ensures !(c.space(t[i]) && c.space(t[j])) {
      assert t[i] == s[lo + i] && t[j] == s[lo + j];
    }
  }

  lemma FlatUncons(c: CharClasses, s: string)
    requires Flat(c, s) && s != ""
    ensures Flat(c, s[1..])
    ensures (c.space(s[0]) ==> s[0] == ' ') && AfterRun(c, s) == s[1..]
  {
    FlatSlice(c, s, 1, |s|);
    assert s[1..|s|] == s[1..];
    if |s| > 1 {
      var x, y := s[0], s[1];
      assert !(c.space(x) && c.space(y));
      assert s[1..][0] == y;
    }
  }

  lemma {:induction false} CollapseKeepsFlat(c: CharClasses, s: string)
    requires Flat(c, s)
    ensures Collapse(c, s) == s
    decreases |s|
  {
    if s != "" {
      FlatUncons(c, s);
      CollapseKeepsFlat(c, s[1..]);
      assert s == [s[0]] + s[1..];
    }
  }

  lemma StripKeepsInner(c: CharClasses, s: string)
    requires NoEdgeSpace(c, s)
    ensures Strip(c, s) == s
  {
    if s != "" {
      assert LStrip(c.space, s) == s;
      assert RStrip(c.space, s) == s;
    }
  }

  lemma StripIsASlice(c: CharClasses, s: string) returns (lo: nat, hi: nat)
    ensures 0 <= lo <= hi <= |s| && Strip(c, s) == s[lo..hi]
  {
    var l := LStrip(c.space, s);
    lo := |s| - |l|;
    hi := lo + |RStrip(c.space, l)|;
    SliceOfSuffix(s, lo, hi);
  }

  lemma StripInventsNothing(c: CharClasses, s: string, x: char)
    requires x !in s
    ensures x !in Strip(c, s)
  {
    var lo, hi := StripIsASlice(c, s);
    assert forall i :: lo <= i < hi ==> s[i] != x;
  }

  lemma SliceOfSuffix(s: string, lo: nat, hi: nat)
    requires lo <= hi <= |s|
    ensures s[lo..][..hi - lo] == s[lo..hi]
  {
  }

  lemma StripLeavesNoEdge(c: CharClasses, s: string)
    ensures NoEdgeSpace(c, Strip(c, s))
  {
    var l := LStrip(c.space, s);
    var r := RStrip(c.space, l);
    if r != "" {
      assert r[0] == l[0];
    }
  }

  lemma StripGivesProse(c: CharClasses, d: string)
    requires NoTag(d) && NoControls(c, d) && Flat(c, d)
    ensures Prose(c, Strip(c, d))
  {
    var lo, hi := StripIsASlice(c, d);
    StripLeavesNoEdge(c, d);
    NoTagSlice(d, lo, hi);
    FlatSlice(c, d, lo, hi);
    assert forall x :: x in d[lo..hi] ==> x in d;
  }

  // --- the policy -----------------------------------------------------------------------------

  /** Whatever the feed sent, what is stored has no tag, no control character and no stray space. */
  lemma StripMarkupGivesProse(c: CharClasses, value: Option<string>)
    requires Sane(c)
    ensures Prose(c, StripMarkup(c, value))
  {
    match value
    case None =>
    case Some(s) =>
      var b := DropControls(c, SubTags(s));
      assert NoTag(b) && NoControls(c, b) by {
        SubTagsRemovesTags(s);
        DropControlsWorks(c, SubTags(s));
      }
      CollapseFlattens(c, b);
      CollapseKeepsNoTag(c, b);
      CollapseKeepsNoControls(c, b);
      StripGivesProse(c, Collapse(c, b));
  }

  /** Exactly the text already in that form comes through unchanged. */
  lemma StripMarkupFixedPoints(c: CharClasses, s: string)
    requires Sane(c)
    ensures StripMarkup(c, Some(s)) == s <==> Prose(c, s)
  {
    StripMarkupGivesProse(c, Some(s));
    if Prose(c, s) {
      SubTagsKeepsTagless(s);
      DropControlsWorks(c, s);
      CollapseKeepsFlat(c, s);
      StripKeepsInner(c, s);
    }
  }

  lemma StripMarkupIdempotent(c: CharClasses, value: Option<string>)
    requires Sane(c)
    ensures StripMarkup(c, Some(StripMarkup(c, value))) == StripMarkup(c, value)
  {
    StripMarkupGivesProse(c, value);
    StripMarkupFixedPoints(c, StripMarkup(c, value));
  }

  lemma DisarmKeepsProse(c: CharClasses, p: string)
    requires Sane(c) && Prose(c, p)
    ensures '<' !in Disarm(p) && '>' !in Disarm(p) && Prose(c, Disarm(p))
  {
    var text := Disarm(p);
    forall i | 0 <= i < |p|
      ensures c.space(text[i]) == c.space(p[i]) && c.control(text[i]) == c.control(p[i])
    {
      assert text[i] == p[i] || p[i] in "<>";
    }
    forall i | 0 <= i < |text| && c.space(text[i]) ensures text[i] == ' ' {
      assert p[i] == ' ';
    }
    forall i, j | 0 <= i < j < |text| && j == i + 1 ensures !(c.space(text[i]) && c.space(text[j])) {
      assert c.space(text[i]) == c.space(p[i]) && c.space(text[j]) == c.space(p[j]);
    }
    forall x | x in text ensures !c.control(x) {
      var i :| 0 <= i < |text| && text[i] == x;
      assert p[i] in p;
    }
  }

  lemma FlatSnoc(c: CharClasses, t: string, x: char)
    requires Flat(c, t) && !c.space(x)
    ensures Flat(c, t + [x])
  {
    var s := t + [x];
    assert forall i :: 0 <= i < |t| ==> s[i] == t[i];
  }

  /** No angle bracket survives `sanitize`, and what is left is still prose. */
  lemma SanitizeNeutralises(c: CharClasses, value: Option<string>, maxChars: Option<int>)
    requires Sane(c)
    ensures var r := Sanitize(c, value, maxChars);
            '<' !in r && '>' !in r && Prose(c, r)
  {
    var text := Disarm(StripMarkup(c, value));
    StripMarkupGivesProse(c, value);
    DisarmKeepsProse(c, StripMarkup(c, value));
    if maxChars.Some? {
      ShortenKeepsProse(c, text, maxChars.value);
    }
  }

  lemma ShortenKeepsProse(c: CharClasses, text: string, max: int)
    requires Sane(c) && Prose(c, text) && '<' !in text && '>' !in text
    ensures '<' !in Shorten(c, text, max) && '>' !in Shorten(c, text, max) && Prose(c, Shorten(c, text, max))
  {
    if |text| > max {
      Truncate(c, text, RStrip(c.space, Take(text, max - 1)));
    }
  }

  lemma Truncate(c: CharClasses, text: string, head: string)
    requires Sane(c) && Prose(c, text) && '<' !in text && '>' !in text && head <= text
    ensures var r := head + [ELLIPSIS];
            '<' !in r && '>' !in r && Prose(c, r)
  {
    FlatSlice(c, text, 0, |head|);
    FlatSnoc(c, head, ELLIPSIS);
    assert forall x :: x in head ==> x in text;
    if head != "" {
      assert head[0] == text[0];
    }
  }

  /** The cap is respected exactly when it is at least 1, or it is 0 and there is no text. */
  lemma SanitizeRespectsCapIff(c: CharClasses, value: Option<string>, max: int)
    ensures |Sanitize(c, value, Some(max))| <= max <==> max >= 1 || (max == 0 && StripMarkup(c, value) == "")
  {
  }

  /** With a cap of 0 Python's `text[:-1]` keeps almost everything. */
  lemma ZeroCapIsNotACap(c: CharClasses)
    requires Sane(c) && !c.space('a') && !c.control('a')
    ensures |Sanitize(c, Some("aaa"), Some(0))| == 3
  {
    var s := "aaa";
    assert Prose(c, s);
    StripMarkupFixedPoints(c, s);
    var text := Disarm(s);
    assert text == s;
    assert Take(text, -1) == "aa";
    assert RStrip(c.space, "aa") == "aa";
  }

  lemma SanitizedComesBackAsText(c: CharClasses, value: Option<string>, maxChars: Option<int>)
    requires Sane(c)
    ensures Disarm(StripMarkup(c, Some(Sanitize(c, value, maxChars)))) == Sanitize(c, value, maxChars)
  {
    var r := Sanitize(c, value, maxChars);
    SanitizeNeutralises(c, value, maxChars);
    StripMarkupFixedPoints(c, r);
    DisarmKeepsPlain(r);
  }

  lemma DisarmKeepsPlain(s: string)
    requires '<' !in s && '>' !in s
    ensures Disarm(s) == s
  {
  }

  lemma {:induction false} RStripTwice(drop: char -> bool, s: string)
    ensures RStrip(drop, RStrip(drop, s)) == RStrip(drop, s)
  {
    if s != "" && drop(s[|s| - 1]) {
      RStripTwice(drop, s[..|s| - 1]);
    }
  }

  lemma StripsToNothing(c: CharClasses, s: string)
    requires s != "" && !c.space(s[0])
    ensures RStrip(c.space, s) != ""
  {
  }

  lemma ShortenTwiceIff(c: CharClasses, text: string, max: int)
    requires text != "" ==> !c.space(text[0])
    ensures var r := Shorten(c, text, max);
            Shorten(c, r, max) == r <==> max >= 0 || |text| <= 1 - max
  {
    if |text| > max && max <= 0 {
      var kept := Take(text, max - 1);
      var head := RStrip(c.space, kept);
      var r := head + [ELLIPSIS];
      if max == 0 {
        assert Take(r, -1) == head;
        RStripTwice(c.space, Take(text, -1));
      } else if |text| > 1 - max {
        assert kept == text[..|text| + max - 1];
        StripsToNothing(c, kept);
        assert |Take(r, max - 1)| < |head|;
      } else {
        assert kept == "" && head == "" && Take(r, max - 1) == "";
      }
    }
  }

  /**
   Running it again changes nothing, exactly as long as the cap is not negative or the text is so
   short that a negative cap leaves only the ellipsis: such a cap counts from the end, so it cuts
   some more every time.
   */
  lemma SanitizeIdempotentIff(c: CharClasses, value: Option<string>, maxChars: Option<int>)
    requires Sane(c)
    ensures var r := Sanitize(c, value, maxChars);
            Sanitize(c, Some(r), maxChars) == r
            <==> maxChars.None? || maxChars.value >= 0 || |StripMarkup(c, value)| <= 1 - maxChars.value
  {
    SanitizedComesBackAsText(c, value, maxChars);
    if maxChars.Some? {
      DisarmedStartsWithAWord(c, value);
      ShortenTwiceIff(c, Disarm(StripMarkup(c, value)), maxChars.value);
    }
  }

  lemma DisarmedStartsWithAWord(c: CharClasses, value: Option<string>)
    requires Sane(c)
    ensures var text := Disarm(StripMarkup(c, value));
            text != "" ==> !c.space(text[0])
  {
    StripMarkupGivesProse(c, value);
    DisarmKeepsProse(c, StripMarkup(c, value));
  }

  /** A text that a cap of -1 shortens again and again. */
  lemma NegativeCapKeepsCutting(c: CharClasses)
    requires Sane(c) && !c.space('a') && !c.control('a')
    ensures var r := Sanitize(c, Some("aaaa"), Some(-1));
            Sanitize(c, Some(r), Some(-1)) != r
  {
    assert Prose(c, "aaaa");
    StripMarkupFixedPoints(c, "aaaa");
    SanitizeIdempotentIff(c, Some("aaaa"), Some(-1));
  }

  lemma {:induction false} BeforeLastSpaceCuts(s: string)
    ensures BeforeLastSpace(s) <= s
    ensures ' ' in s ==>
              var n := |BeforeLastSpace(s)|;
              n < |s| && s[n] == ' ' && ' ' !in s[n + 1..]
    ensures ' ' !in s ==> BeforeLastSpace(s) == s
  {
    if ' ' in s && s[|s| - 1] != ' ' {
      var t := s[..|s| - 1];
      assert s == t + [s[|s| - 1]];
      BeforeLastSpaceCuts(t);
      var n := |BeforeLastSpace(s)|;
      assert s[n + 1..] == t[n + 1..] + [s[|s| - 1]];
    }
  }

  /**
   `r` is `head` without its last word, if `head` has a space (at `b`), and without the punctuation
   before that.
   */
  ghost predicate LosesOneWord(head: string, b: nat, r: string) {
    && |r| <= b <= |head| && r <= head
    && (if b == |head| then ' ' !in head else head[b] == ' ' && ' ' !in head[b + 1..])
    && (forall k :: |r| <= k < b ==> head[k] in CLIP_TRIM)
    && (r != "" ==> r[|r| - 1] !in CLIP_TRIM)
  }

  lemma CutLosesOneWord(head: string)
    ensures LosesOneWord(head, |BeforeLastSpace(head)|, RStrip(x => x in CLIP_TRIM, BeforeLastSpace(head)))
  {
    BeforeLastSpaceCuts(head);
    var b := BeforeLastSpace(head);
    assert forall k :: 0 <= k < |b| ==> head[k] == b[k];
  }

  /** What is kept of a text that is cut: whole words, or a full box when there would be none. */
  ghost predicate IsCut(head: string, b: nat, r: string) {
    LosesOneWord(head, b, r) || (r == head && LosesOneWord(head, b, ""))
  }

  lemma CutIsHonest(text: string, max: int)
    ensures var (r, clipped) := CutAtWord(text, max);
            && r <= text && (|r| <= max <==> max >= 0)
            && (clipped <==> |text| > max)
            && (!clipped ==> r == text)
            && (clipped ==> exists b :: IsCut(Take(text, max), b, r))
            && (clipped && max > 0 ==> r != "")
  {
    if |text| > max {
      var head := Take(text, max);
      CutLosesOneWord(head);
      assert IsCut(head, |BeforeLastSpace(head)|, CutAtWord(text, max).0);
    }
  }

  /**
   A slide's headline is a prefix of the sanitised title, and the badge is on exactly when the title
   did not fit. A shortened headline loses one word and its punctuation; only when nothing would be
   left is the box filled to the brim instead. It fits the box whenever the box is not negative.
   */
  lemma ClipIsAnHonestPrefix(c: CharClasses, value: Option<string>, max: int)
    ensures var text := Sanitize(c, value, None);
            var (r, clipped) := Clip(c, value, max);
            && r <= text && (|r| <= max <==> max >= 0)
            && (clipped <==> |text| > max)
            && (!clipped ==> r == text)
            && (clipped ==> exists b :: IsCut(Take(text, max), b, r))
            && (clipped && max > 0 ==> r != "")
  {
    CutIsHonest(Sanitize(c, value, None), max);
  }

  /** `r` is `text` if it fits, and otherwise a prefix that fills the cap but for whitespace, and an ellipsis. */
  ghost predicate IsShortened(c: CharClasses, text: string, max: int, r: string) {
    && (|text| <= max ==> r == text)
    && (1 <= max < |text| ==>
          var kept := |r| - 1;
          && 0 <= kept < max && r[..kept] == text[..kept] && r[kept] == '\U{2026}'
          && (forall i :: kept <= i < max - 1 ==> c.space(text[i]))
          && (kept > 0 ==> !c.space(r[kept - 1])))
  }

  lemma ShortenReads(c: CharClasses, text: string, max: int)
    ensures IsShortened(c, text, max, Shorten(c, text, max))
  {
    if 1 <= max < |text| {
      var taken := Take(text, max - 1);
      var head := RStrip(c.space, taken);
      assert taken == text[..max - 1];
      assert forall i :: |head| <= i < max - 1 ==> taken[i] == text[i];
      assert (head + [ELLIPSIS])[..|head|] == head;
    }
  }

  /** What `sanitize` keeps: the stripped text with each angle bracket replaced by its lookalike, cut to the cap. */
  lemma SanitizeReads(c: CharClasses, value: Option<string>, maxChars: Option<int>)
    ensures var plain, text := StripMarkup(c, value), Sanitize(c, value, None);
            && |text| == |plain|
            && (forall i :: 0 <= i < |plain| ==>
                  text[i] == if plain[i] == '<' then '\U{2039}' else if plain[i] == '>' then '\U{203A}' else plain[i])
            && (maxChars.Some? ==> IsShortened(c, text, maxChars.value, Sanitize(c, value, maxChars)))
  {
    if maxChars.Some? {
      ShortenReads(c, Sanitize(c, value, None), maxChars.value);
    }
  }
}

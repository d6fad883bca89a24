/**
 app/services/llm.py: `_attr_safe` and `build_prompt`, the text the classifier is shown.

 Headlines, summaries and city names are untrusted. The claim here is that they cannot be mistaken
 for structure: a reader that knows the layout gets back exactly the strings that went in.
 */
module Prompt {
  import opened Common

  /** (title, summary, feed_city). */
  datatype Item = Item(title: string, summary: Option<string>, city: Option<string>)

  datatype Limits = Limits(titleChars: nat, summaryChars: nat)

  /** What one `<article>` element says. */
  datatype Article = Article(title: string, summary: Option<string>, city: string)

  // --- printing -------------------------------------------------------------------------------

  const ESCAPES: seq<(char, string)> := [('&', "&amp;"), ('<', "&lt;"), ('>', "&gt;"), ('"', "&quot;")]

  /** `s.replace(raw, escaped)` for a one-character `raw`. */
  function Replace(s: string, raw: char, escaped: string): string {
    if s == "" then ""
    else (if s[0] == raw then escaped else [s[0]]) + Replace(s[1..], raw, escaped)
  }

  function ReplaceEach(s: string, escapes: seq<(char, string)>): string
    decreases |escapes|
  {
    if escapes == [] then s
    else ReplaceEach(Replace(s, escapes[0].0, escapes[0].1), escapes[1..])
  }

  function EscapeChar(c: char): string {
    match c
    case '&' => "&amp;"
    case '<' => "&lt;"
    case '>' => "&gt;"
    case '"' => "&quot;"
    case _ => [c]
  }

  /** The one-pass map the four passes amount to. */
  function Escape(s: string): string {
    if s == "" then "" else EscapeChar(s[0]) + Escape(s[1..])
  }

  /** Four passes over the whole string, `&` first. */
  method AttrSafe(value: string) returns (safe: string)
    ensures safe == Escape(value)
  {
    safe := value;
    for k := 0 to |ESCAPES|
      invariant ReplaceEach(safe, ESCAPES[k..]) == ReplaceEach(value, ESCAPES)
    {
      var (raw, escaped) := ESCAPES[k];
      safe := Replace(safe, raw, escaped);
      assert ESCAPES[k..][1..] == ESCAPES[k + 1..];
    }
    PassesAreOnePass(value);
  }

  function Decimal(n: nat): string {
    (if n < 10 then "" else Decimal(n / 10)) + ["0123456789"[n % 10]]
  }

  function Clip(s: string, max: nat): string {
    if |s| <= max then s else s[..max]
  }

  /** The strings the prompt is meant to carry: cut to length, an empty summary or city absent. */
  function Carried(item: Item, limits: Limits): Article {
    Article(
      Clip(item.title, limits.titleChars),
      if item.summary.Some? && item.summary.value != "" then Some(Clip(item.summary.value, limits.summaryChars))
      else None,
      if item.city.Some? && item.city.value != "" then item.city.value else "unknown")
  }

  function CarriedAll(items: seq<Item>, limits: Limits): seq<Article> {
    if items == [] then [] else [Carried(items[0], limits)] + CarriedAll(items[1..], limits)
  }

  function OpenArticle(index: nat): string {
    "<article index=" + Decimal(index) + " feed_city=\""
  }

  function OpenTag(name: string): string {
    "<" + name + ">"
  }

  function CloseTag(name: string): string {
    "</" + name + ">"
  }

  function PrintElement(name: string, text: string): string {
    OpenTag(name) + Escape(text) + CloseTag(name)
  }

  function PrintSummary(a: Article): string {
    if a.summary.Some? then PrintElement("summary", a.summary.value) else ""
  }

  function PrintArticle(a: Article, index: nat): string {
    OpenArticle(index) + Escape(a.city) + "\">"
    + (PrintElement("title", a.title) + PrintSummary(a)) + "</article>"
  }

  function PrintArticles(items: seq<Item>, limits: Limits, from: nat): string
    decreases |items|
  {
    if items == [] then ""
    else
      PrintArticle(Carried(items[0], limits), from)
      + if |items| == 1 then "" else "\n" + PrintArticles(items[1..], limits, from + 1)
  }

  const HEADER: string := "Headlines (untrusted data, delimited):\n"

  function JoinLines(lines: seq<string>): string {
    if lines == [] then ""
    else if |lines| == 1 then lines[0]
    else lines[0] + "\n" + JoinLines(lines[1..])
  }

  /** One round of the loop in `build_prompt`. */
  method ArticleLine(item: Item, index: nat, limits: Limits) returns (line: string)
    ensures line == PrintArticle(Carried(item, limits), index)
  {
    var Item(title, summary, feedCity) := item;
    var city := AttrSafe(if feedCity.Some? && feedCity.value != "" then feedCity.value else "unknown");
    var clipped := AttrSafe(Clip(title, limits.titleChars));
    var body := OpenTag("title") + clipped + CloseTag("title");
    if summary.Some? && summary.value != "" {
      var clippedSummary := AttrSafe(Clip(summary.value, limits.summaryChars));
      body := body + (OpenTag("summary") + clippedSummary + CloseTag("summary"));
    } else {
      assert body == body + "";
    }
    line := OpenArticle(index) + city + "\">" + body + "</article>";
  }

  ghost predicate ArePrinted(items: seq<Item>, limits: Limits, from: nat, lines: seq<string>) {
    |lines| == |items|
    && forall i :: 0 <= i < |items| ==> lines[i] == PrintArticle(Carried(items[i], limits), from + i)
  }

  lemma PrintedSnoc(items: seq<Item>, limits: Limits, lines: seq<string>, item: Item, line: string)
    requires ArePrinted(items, limits, 0, lines) && line == PrintArticle(Carried(item, limits), |items|)
    ensures ArePrinted(items + [item], limits, 0, lines + [line])
  {
    var all, printed := items + [item], lines + [line];
    forall i | 0 <= i < |all| ensures printed[i] == PrintArticle(Carried(all[i], limits), 0 + i) {
      if i < |items| {
        assert printed[i] == lines[i] && all[i] == items[i];
      }
    }
  }

  method BuildPrompt(items: seq<Item>, limits: Limits) returns (prompt: string)
    ensures prompt == HEADER + PrintArticles(items, limits, 0)
    ensures ParsePrompt(prompt) == Some(CarriedAll(items, limits))
  {
    var lines := [];
    for index := 0 to |items|
      invariant |lines| == index && ArePrinted(items[..index], limits, 0, lines)
    {
      var line := ArticleLine(items[index], index, limits);
      PrintedSnoc(items[..index], limits, lines, items[index], line);
      assert items[..index + 1] == items[..index] + [items[index]];
      lines := lines + [line];
    }
    assert items[..|items|] == items;
    JoinedLines(items, limits, 0, lines);
    prompt := HEADER + JoinLines(lines);
    PromptRoundTrip(items, limits);
  }

  // --- reading --------------------------------------------------------------------------------

  function Unescape(s: string): string
    decreases |s|
  {
    if s == "" then ""
    else if "&amp;" <= s then "&" + Unescape(s[5..])
    else if "&lt;" <= s then "<" + Unescape(s[4..])
    else if "&gt;" <= s then ">" + Unescape(s[4..])
    else if "&quot;" <= s then "\"" + Unescape(s[6..])
    else [s[0]] + Unescape(s[1..])
  }

  function Expect(s: string, literal: string): Option<string> {
    if literal <= s then Some(s[|literal|..]) else None
  }

  /** What stands before the first `stop`, and the rest from there on. */
  function Until(s: string, stop: char): Option<(string, string)> {
    if s == "" then None
    else if s[0] == stop then Some(("", s))
    else
      var (head, rest) :- Until(s[1..], stop);
      Some(([s[0]] + head, rest))
  }

  function ParseElement(s: string, name: string): Option<(string, string)> {
    var inside :- Expect(s, OpenTag(name));
    var (text, close) :- Until(inside, '<');
    var rest :- Expect(close, CloseTag(name));
    Some((Unescape(text), rest))
  }

  function ParseArticle(s: string, index: nat): Option<(Article, string)> {
    var attribute :- Expect(s, OpenArticle(index));
    var (city, afterCity) :- Until(attribute, '"');
    var body :- Expect(afterCity, "\">");
    var (title, afterTitle) :- ParseElement(body, "title");
    var (summary, afterSummary) :-
      if OpenTag("summary") <= afterTitle then
        var (text, rest) :- ParseElement(afterTitle, "summary");
        Some((Some(text), rest))
      else
        Some((None, afterTitle));
    var rest :- Expect(afterSummary, "</article>");
    Some((Article(title, summary, Unescape(city)), rest))
  }

  lemma ParseArticleConsumes(s: string, index: nat)
    ensures ParseArticle(s, index).Some? ==> |ParseArticle(s, index).value.1| < |s|
  {
    var attribute := Expect(s, OpenArticle(index));
    if attribute.Some? {
      UntilShortens(attribute.value, '"');
      var u := Until(attribute.value, '"');
      if u.Some? {
        var body := Expect(u.value.1, "\">");
        if body.Some? {
          ParseElementConsumes(body.value, "title");
          var t := ParseElement(body.value, "title");
          if t.Some? {
            ParseElementConsumes(t.value.1, "summary");
          }
        }
      }
    }
  }

  lemma ParseElementConsumes(s: string, name: string)
    ensures ParseElement(s, name).Some? ==> |ParseElement(s, name).value.1| < |s|
  {
    var inside := Expect(s, OpenTag(name));
    if inside.Some? {
      UntilShortens(inside.value, '<');
    }
  }

  lemma {:induction false} UntilShortens(s: string, stop: char)
    ensures Until(s, stop).Some? ==> |Until(s, stop).value.1| <= |s|
  {
    if s != "" && s[0] != stop {
      UntilShortens(s[1..], stop);
    }
  }

  function ParseArticles(s: string, from: nat): Option<seq<Article>>
    decreases |s|
  {
    if s == "" then Some([])
    else
      ParseArticleConsumes(s, from);
      var (a, rest) :- ParseArticle(s, from);
      if rest == "" then Some([a])
      else
        var next :- Expect(rest, "\n");
        var more :- ParseArticles(next, from + 1);
        Some([a] + more)
  }

  function ParsePrompt(s: string): Option<seq<Article>> {
    var articles :- Expect(s, HEADER);
    ParseArticles(articles, 0)
  }

  // --- the four passes are one, and it can be undone ------------------------------------------

  lemma {:induction false} ReplaceAppends(s: string, t: string, raw: char, escaped: string)
    ensures Replace(s + t, raw, escaped) == Replace(s, raw, escaped) + Replace(t, raw, escaped)
  {
    if s == "" {
      assert s + t == t;
    } else {
      assert (s + t)[1..] == s[1..] + t;
      ReplaceAppends(s[1..], t, raw, escaped);
    }
  }

  lemma {:induction false} ReplaceEachAppends(s: string, t: string, escapes: seq<(char, string)>)
    ensures ReplaceEach(s + t, escapes) == ReplaceEach(s, escapes) + ReplaceEach(t, escapes)
    decreases |escapes|
  {
    if escapes != [] {
      var (raw, escaped) := escapes[0];
      ReplaceAppends(s, t, raw, escaped);
      ReplaceEachAppends(Replace(s, raw, escaped), Replace(t, raw, escaped), escapes[1..]);
    }
  }

  lemma {:induction false} ReplaceAbsent(s: string, raw: char, escaped: string)
    requires raw !in s
    ensures Replace(s, raw, escaped) == s
  {
    if s != "" {
      ReplaceAbsent(s[1..], raw, escaped);
    }
  }

  lemma FirstPass(s: string, raw: char, escaped: string, rest: seq<(char, string)>)
    ensures ReplaceEach(s, [(raw, escaped)] + rest) == ReplaceEach(Replace(s, raw, escaped), rest)
  {
    assert ([(raw, escaped)] + rest)[1..] == rest;
  }

  lemma FourPasses(s: string)
    ensures ReplaceEach(s, ESCAPES)
         == Replace(Replace(Replace(Replace(s, '&', "&amp;"), '<', "&lt;"), '>', "&gt;"), '"', "&quot;")
  {
    var d := [('"', "&quot;")];
    var c := [('>', "&gt;")] + d;
    var b := [('<', "&lt;")] + c;
    assert ESCAPES == [('&', "&amp;")] + b && d == [('"', "&quot;")] + [];
    var s1 := Replace(s, '&', "&amp;");
    var s2 := Replace(s1, '<', "&lt;");
    var s3 := Replace(s2, '>', "&gt;");
    FirstPass(s, '&', "&amp;", b);
    FirstPass(s1, '<', "&lt;", c);
    FirstPass(s2, '>', "&gt;", d);
    FirstPass(s3, '"', "&quot;", []);
  }

  /** No later pass finds its character in an entity. */
  lemma EntitiesArePlain(c: char)
    requires EscapeChar(c) != [c]
    ensures '<' !in EscapeChar(c) && '>' !in EscapeChar(c) && '"' !in EscapeChar(c)
  {
  }

  /** A pass over what the passes before it made of `c`. */
  lemma LaterPass(c: char, soFar: string, raw: char, escaped: string)
    requires soFar == [c] || (c != raw && raw !in soFar)
    ensures Replace(soFar, raw, escaped) == if c == raw then escaped else soFar
  {
    if soFar == [c] {
      ReplaceInOne(c, raw, escaped);
    } else {
      ReplaceAbsent(soFar, raw, escaped);
    }
  }

  /** On one character: the later passes do not touch the entity an earlier pass wrote. */
  lemma FourPassesOnOneChar(c: char, amp: string, lt: string, gt: string, quot: string)
    requires amp == "&amp;" && lt == "&lt;" && gt == "&gt;" && quot == "&quot;"
    ensures Replace(Replace(Replace(Replace([c], '&', amp), '<', lt), '>', gt), '"', quot) == EscapeChar(c)
  {
    var e := EscapeChar(c);
    if e != [c] {
      EntitiesArePlain(c);
    }
    var a := if c == '&' then e else [c];
    var b := if c == '<' then e else a;
    var d := if c == '>' then e else b;
    ReplaceInOne(c, '&', amp);
    LaterPass(c, a, '<', lt);
    LaterPass(c, b, '>', gt);
    LaterPass(c, d, '"', quot);
  }

  lemma ReplaceInOne(c: char, raw: char, escaped: string)
    ensures Replace([c], raw, escaped) == if c == raw then escaped else [c]
  {
    assert [c][1..] == "";
    assert escaped + "" == escaped && [c] + "" == [c];
  }

  lemma {:induction false} PassesAreOnePass(s: string)
    ensures ReplaceEach(s, ESCAPES) == Escape(s)
  {
    if s == "" {
      EmptyStaysEmpty(ESCAPES);
    } else {
      assert s == [s[0]] + s[1..];
      ReplaceEachAppends([s[0]], s[1..], ESCAPES);
      FourPasses([s[0]]);
      FourPassesOnOneChar(s[0], "&amp;", "&lt;", "&gt;", "&quot;");
      PassesAreOnePass(s[1..]);
    }
  }

  lemma {:induction false} EmptyStaysEmpty(escapes: seq<(char, string)>)
    ensures ReplaceEach("", escapes) == ""
  {
    if escapes != [] {
      EmptyStaysEmpty(escapes[1..]);
    }
  }

  lemma {:induction false} EscapeRoundTrip(s: string, t: string)
    ensures Unescape(Escape(s) + t) == s + Unescape(t)
  {
    if s == "" {
      assert Escape(s) + t == t;
    } else {
      var rest := Escape(s[1..]) + t;
      calc {
        Unescape(Escape(s) + t);
        { assert Escape(s) + t == EscapeChar(s[0]) + rest; }
        Unescape(EscapeChar(s[0]) + rest);
        { UnescapeOne(s[0], rest); }
        [s[0]] + Unescape(rest);
        { EscapeRoundTrip(s[1..], t); }
        [s[0]] + (s[1..] + Unescape(t));
        s + Unescape(t);
      }
    }
  }

  lemma UnescapeOne(c: char, rest: string)
    ensures Unescape(EscapeChar(c) + rest) == [c] + Unescape(rest)
  {
    var e := EscapeChar(c);
    var s := e + rest;
    assert s[|e|..] == rest;
    assert e <= s;
    assert s[0] == e[0] && (|e| > 1 ==> s[1] == e[1]);
    assert "&amp;" <= s ==> s[0] == '&' && s[1] == 'a';
    assert "&lt;" <= s ==> s[0] == '&' && s[1] == 'l';
    assert "&gt;" <= s ==> s[0] == '&' && s[1] == 'g';
    assert "&quot;" <= s ==> s[0] == '&' && s[1] == 'q';
  }

  lemma {:induction false} EscapeLeavesNoDelimiter(s: string)
    ensures '<' !in Escape(s) && '>' !in Escape(s) && '"' !in Escape(s)
  {
    if s != "" {
      EscapeLeavesNoDelimiter(s[1..]);
    }
  }

  // --- the reader recovers what was printed ---------------------------------------------------

  lemma {:induction false} UntilStops(head: string, stop: char, rest: string)
    requires stop !in head && rest != "" && rest[0] == stop
    ensures Until(head + rest, stop) == Some((head, rest))
  {
    var s := head + rest;
    if head == "" {
      assert s == rest;
    } else {
      assert s[1..] == head[1..] + rest;
      UntilStops(head[1..], stop, rest);
      assert [s[0]] + head[1..] == head;
    }
  }

  lemma Unescaped(text: string)
    ensures Unescape(Escape(text)) == text
  {
    EscapeRoundTrip(text, "");
    assert Escape(text) + "" == Escape(text) && text + "" == text;
  }

  lemma ElementRoundTrip(name: string, text: string, rest: string)
    ensures ParseElement(PrintElement(name, text) + rest, name) == Some((text, rest))
  {
    var e, close := Escape(text), CloseTag(name) + rest;
    var s := PrintElement(name, text) + rest;
    assert s == OpenTag(name) + (e + close);
    ExpectFinds(OpenTag(name), e + close);
    assert Expect(s, OpenTag(name)) == Some(e + close);
    EscapeLeavesNoDelimiter(text);
    UntilStops(e, '<', close);
    ExpectFinds(CloseTag(name), rest);
    Unescaped(text);
  }

  lemma SummaryRoundTrip(a: Article, rest: string)
    requires rest != "" ==> rest[0] == '<'
    requires |rest| > 1 ==> rest[1] != 's'
    ensures var s := PrintSummary(a) + rest;
            if a.summary.Some?
            then OpenTag("summary") <= s && ParseElement(s, "summary") == Some((a.summary.value, rest))
            else !(OpenTag("summary") <= s) && s == rest
  {
    var s := PrintSummary(a) + rest;
    if a.summary.Some? {
      ElementRoundTrip("summary", a.summary.value, rest);
    } else {
      assert s == rest;
      assert OpenTag("summary")[1] == 's';
    }
  }

  lemma AttributeRoundTrip(city: string, body: string)
    ensures Until(Escape(city) + ("\">" + body), '"') == Some((Escape(city), "\">" + body))
    ensures Expect("\">" + body, "\">") == Some(body)
    ensures Unescape(Escape(city)) == city
  {
    EscapeLeavesNoDelimiter(city);
    UntilStops(Escape(city), '"', "\">" + body);
    assert ("\">" + body)[2..] == body;
    Unescaped(city);
  }

  lemma ExpectFinds(literal: string, rest: string)
    ensures Expect(literal + rest, literal) == Some(rest)
  {
    assert (literal + rest)[|literal|..] == rest;
  }

  lemma Regroup(a: string, b: string, c: string, d: string, e: string, f: string, rest: string)
    ensures a + b + c + (d + e) + f + rest == a + (b + (c + (d + (e + (f + rest)))))
  {
  }

  lemma ArticleRoundTrip(a: Article, index: nat, rest: string)
    ensures ParseArticle(PrintArticle(a, index) + rest, index) == Some((a, rest))
  {
    var close := "</article>" + rest;
    var tail := PrintSummary(a) + close;
    var body := PrintElement("title", a.title) + tail;
    var attribute := Escape(a.city) + ("\">" + body);
    Regroup(OpenArticle(index), Escape(a.city), "\">", PrintElement("title", a.title), PrintSummary(a), "</article>",
            rest);
    assert PrintArticle(a, index) + rest == OpenArticle(index) + attribute;
    ExpectFinds(OpenArticle(index), attribute);
    AttributeRoundTrip(a.city, body);
    ElementRoundTrip("title", a.title, tail);
    SummaryRoundTrip(a, close);
    ExpectFinds("</article>", rest);
  }

  lemma PrintedArticleIsNotEmpty(a: Article, index: nat, rest: string)
    ensures PrintArticle(a, index) + rest != ""
  {
    assert |OpenArticle(index)| > 0;
  }

  lemma {:induction false} ArticlesRoundTrip(items: seq<Item>, limits: Limits, from: nat)
    ensures ParseArticles(PrintArticles(items, limits, from), from)
         == Some(CarriedAll(items, limits))
    decreases |items|
  {
    if items != [] {
      var a := Carried(items[0], limits);
      var more := PrintArticles(items[1..], limits, from + 1);
      var rest := if |items| == 1 then "" else "\n" + more;
      ArticleRoundTrip(a, from, rest);
      PrintedArticleIsNotEmpty(a, from, rest);
      if |items| > 1 {
        ExpectFinds("\n", more);
        ArticlesRoundTrip(items[1..], limits, from + 1);
      } else {
        assert items[1..] == [];
        assert [a] + [] == [a];
      }
    }
  }

  /** The prompt can be read back, whatever the headlines, summaries and city names contain. */
  lemma PromptRoundTrip(items: seq<Item>, limits: Limits)
    ensures ParsePrompt(HEADER + PrintArticles(items, limits, 0))
         == Some(CarriedAll(items, limits))
  {
    assert (HEADER + PrintArticles(items, limits, 0))[|HEADER|..] == PrintArticles(items, limits, 0);
    ArticlesRoundTrip(items, limits, 0);
  }

  lemma {:induction false} JoinedLines(items: seq<Item>, limits: Limits, from: nat, lines: seq<string>)
    requires ArePrinted(items, limits, from, lines)
    ensures JoinLines(lines) == PrintArticles(items, limits, from)
    decreases |items|
  {
    if items != [] {
      JoinedLines(items[1..], limits, from + 1, lines[1..]);
    }
  }

  /** Two batches that print alike carry the same strings: nothing can pose as something else. */
  lemma PromptIsUnambiguous(items: seq<Item>, others: seq<Item>, limits: Limits)
    requires PrintArticles(items, limits, 0) == PrintArticles(others, limits, 0)
    ensures CarriedAll(items, limits) == CarriedAll(others, limits)
  {
    ArticlesRoundTrip(items, limits, 0);
    ArticlesRoundTrip(others, limits, 0);
  }

  // --- the index and the strings on a line ----------------------------------------------------

  /** `int(s)` for a string of digits. */
  function ReadNumber(s: string): Option<nat> {
    if s == "" then Some(0)
    else
      var last := s[|s| - 1];
      var head :- ReadNumber(s[..|s| - 1]);
      if '0' <= last <= '9' then Some(10 * head + (last - '0') as nat) else None
  }

  /** The number a line gives its article. */
  function ReadIndex(line: string): Option<nat> {
    var attribute :- Expect(line, "<article index=");
    var (digits, _) :- Until(attribute, ' ');
    ReadNumber(digits)
  }

  lemma DigitReads(head: string, d: nat)
    requires d < 10
    ensures var digit := "0123456789"[d];
            && digit != ' '
            && ReadNumber(head + [digit])
               == if ReadNumber(head).None? then None else Some(10 * ReadNumber(head).value + d)
    ensures ReadNumber("") == Some(0)
  {
    var digit := "0123456789"[d];
    assert digit == '0' + d as char;
    assert (head + [digit])[..|head|] == head;
  }

  lemma {:induction false} DecimalReads(n: nat)
    ensures ReadNumber(Decimal(n)) == Some(n) && Decimal(n) != "" && ' ' !in Decimal(n)
    decreases n
  {
    hide ReadNumber;
    if n < 10 {
      DigitReads("", n);
      assert Decimal(n) == "" + ["0123456789"[n]];
    } else {
      DecimalReads(n / 10);
      DigitReads(Decimal(n / 10), n % 10);
    }
  }

  /** The model is told the index its verdict has to come back with. */
  lemma IndexRoundTrip(a: Article, index: nat, rest: string)
    ensures ReadIndex(PrintArticle(a, index) + rest) == Some(index)
  {
    var opening, digits, quote := "<article index=", Decimal(index), " feed_city=\"";
    var elements := PrintElement("title", a.title) + PrintSummary(a);
    var tail := quote + (Escape(a.city) + ("\">" + (elements + ("</article>" + rest))));
    AllInARow(opening, digits, quote, Escape(a.city), "\">", elements, "</article>", rest);
    assert PrintArticle(a, index) + rest == opening + (digits + tail);
    ReadIndexFinds(digits, tail, index);
  }

  lemma ReadIndexFinds(digits: string, tail: string, index: nat)
    requires digits == Decimal(index) && tail != "" && tail[0] == ' '
    ensures ReadIndex("<article index=" + (digits + tail)) == Some(index)
  {
    ExpectFinds("<article index=", digits + tail);
    DecimalReads(index);
    UntilStops(digits, ' ', tail);
  }

  lemma AllInARow(
      a: string, b: string, c: string, d: string, e: string, f: string, g: string, rest: string)
    ensures (a + b + c) + d + e + f + g + rest == a + (b + (c + (d + (e + (f + (g + rest))))))
  {
  }

  /** What a line carries of its item: headline and summary cut to length, and a city whatever happens. */
  lemma {:induction false} CarriedAt(items: seq<Item>, limits: Limits, i: nat)
    requires i < |items|
    ensures |CarriedAll(items, limits)| == |items|
    ensures var a, item := CarriedAll(items, limits)[i], items[i];
            && a.title <= item.title
            && |a.title| == (if |item.title| < limits.titleChars then |item.title| else limits.titleChars)
            && (a.summary.None? <==> item.summary.None? || item.summary.value == "")
            && (a.summary.Some? ==>
                  && a.summary.value <= item.summary.value
                  && (a.summary.value == item.summary.value || |a.summary.value| == limits.summaryChars))
            && (item.city.None? || item.city.value == "" ==> a.city == "unknown")
            && (item.city.Some? && item.city.value != "" ==> item.city == Some(a.city))
  {
    if i > 0 {
      CarriedAt(items[1..], limits, i - 1);
    } else if |items| > 1 {
      CarriedAt(items[1..], limits, 0);
    }
  }

  /** `line` stands by itself in `prompt`: between line ends. */
  ghost predicate IsLineOf(prompt: string, before: string, line: string, after: string) {
    && prompt == before + line + after
    && (before == "" || before[|before| - 1] == '\n')
    && (after == "" || after[0] == '\n')
  }

  /** `line` says what `a` says, and numbers it `index`. */
  ghost predicate LineSays(line: string, a: Article, index: nat) {
    ParseArticle(line, index) == Some((a, "")) && ReadIndex(line) == Some(index)
  }

  lemma PrintedLineSays(a: Article, index: nat)
    ensures LineSays(PrintArticle(a, index), a, index)
  {
    ArticleRoundTrip(a, index, "");
    IndexRoundTrip(a, index, "");
    assert PrintArticle(a, index) + "" == PrintArticle(a, index);
  }

  lemma FirstLine(line: string, more: string)
    ensures IsLineOf(line, "", line, "")
    ensures IsLineOf(line + ("\n" + more), "", line, "\n" + more)
  {
  }

  lemma LaterLine(first: string, more: string, before: string, line: string, after: string)
    requires IsLineOf(more, before, line, after)
    ensures IsLineOf(first + ("\n" + more), first + "\n" + before, line, after)
  {
    assert first + ("\n" + more) == first + "\n" + before + line + after;
  }

  lemma FirstItemLine(items: seq<Item>, limits: Limits, from: nat) returns (after: string)
    requires items != []
    ensures IsLineOf(PrintArticles(items, limits, from), "", PrintArticle(Carried(items[0], limits), from), after)
  {
    var first := PrintArticle(Carried(items[0], limits), from);
    var more := PrintArticles(items[1..], limits, from + 1);
    PromptUnfolds(items, limits, from, first, more);
    hide PrintArticle, PrintArticles, Carried, IsLineOf;
    FirstLine(first, more);
    after := if |items| == 1 then "" else "\n" + more;
  }

  lemma LaterItemLine(items: seq<Item>, limits: Limits, from: nat, b: string, line: string, after: string)
    returns (before: string)
    requires |items| > 1 && IsLineOf(PrintArticles(items[1..], limits, from + 1), b, line, after)
    ensures IsLineOf(PrintArticles(items, limits, from), before, line, after)
  {
    var first := PrintArticle(Carried(items[0], limits), from);
    var more := PrintArticles(items[1..], limits, from + 1);
    PromptUnfolds(items, limits, from, first, more);
    hide PrintArticle, PrintArticles, Carried, IsLineOf;
    LaterLine(first, more, b, line, after);
    before := first + "\n" + b;
  }

  lemma PromptUnfolds(items: seq<Item>, limits: Limits, from: nat, first: string, more: string)
    requires items != [] && first == PrintArticle(Carried(items[0], limits), from)
    requires more == PrintArticles(items[1..], limits, from + 1)
    ensures PrintArticles(items, limits, from) == if |items| == 1 then first else first + ("\n" + more)
  {
    hide PrintArticle, Carried;
    assert first + "" == first;
  }

  /** Item `i` has a line of its own in the prompt, which says what the item says and gives it the number `i`. */
  lemma {:induction false} EveryItemHasItsLine(items: seq<Item>, limits: Limits, from: nat, i: nat)
    returns (before: string, line: string, after: string)
    requires i < |items|
    ensures IsLineOf(PrintArticles(items, limits, from), before, line, after)
    ensures LineSays(line, Carried(items[i], limits), from + i)
    decreases i
  {
    hide *;
    if i == 0 {
      before, line := "", PrintArticle(Carried(items[0], limits), from);
      after := FirstItemLine(items, limits, from);
      PrintedLineSays(Carried(items[0], limits), from);
    } else {
      var b;
      b, line, after := EveryItemHasItsLine(items[1..], limits, from + 1, i - 1);
      before := LaterItemLine(items, limits, from, b, line, after);
    }
  }
}

/**
 The dedupe ledger's identity: `canonicalize_url` (app/services/ingest.py), `normalize_title` and the
 string `article_key` hashes (app/core/hashing.py).

 URLs are taken as `urlsplit` and `parse_qsl` deliver them. Turning canonical parts back into text
 (`urlencode`, `urlunsplit`) is the parameter `render`.
 */
module DedupeKey {
  import opened Common
  import opened Order
  import Text

  type Pair = (string, string)

  datatype Url = Url(scheme: string, netloc: string, path: string, query: seq<Pair>, fragment: string)

  const TRACKING_PARAMS: set<string> :=
    {"utm_source", "utm_medium", "utm_campaign", "utm_term", "utm_content", "fbclid", "gclid", "cmpid"}

  function Lower(s: string): string {
    seq(|s|, i requires 0 <= i < |s| => if 'A' <= s[i] <= 'Z' then s[i] - 'A' + 'a' else s[i])
  }

  predicate IsTracking(p: Pair) {
    Lower(p.0) in TRACKING_PARAMS
  }

  function Kept(query: seq<Pair>): seq<Pair> {
    if query == [] then []
    else (if IsTracking(query[0]) then [] else [query[0]]) + Kept(query[1..])
  }

  predicate PairLeq(p: Pair, q: Pair) {
    if p.0 == q.0 then StringLeq(p.1, q.1) else StringLeq(p.0, q.0)
  }

  function StripSlashes(path: string): string {
    Text.RStrip(x => x == '/', path)
  }

  function Canonicalize(u: Url): Url {
    var path := StripSlashes(u.path);
    Url(u.scheme, u.netloc, if path != "" then path else "/", Sort(PairLeq, Kept(u.query)), "")
  }

  lemma PairOrder()
    ensures TotalPreorder(PairLeq)
    ensures forall s: seq<Pair> :: Separates(PairLeq, s)
  {
    StringOrder();
  }

  lemma {:induction false} KeptMultiset(query: seq<Pair>, p: Pair)
    ensures multiset(Kept(query))[p] == if IsTracking(p) then 0 else multiset(query)[p]
  {
    if query != [] {
      assert query == [query[0]] + query[1..];
      KeptMultiset(query[1..], p);
    }
  }

  /** The two queries carry the same pairs equally often, tracking pairs aside. */
  ghost predicate SameQuery(q: seq<Pair>, r: seq<Pair>) {
    forall p :: !IsTracking(p) ==> multiset(q)[p] == multiset(r)[p]
  }

  lemma KeptQueriesAgreeIff(q: seq<Pair>, r: seq<Pair>)
    ensures Sort(PairLeq, Kept(q)) == Sort(PairLeq, Kept(r)) <==> SameQuery(q, r)
  {
    PairOrder();
    SortSorts(PairLeq, Kept(q));
    SortSorts(PairLeq, Kept(r));
    if Sort(PairLeq, Kept(q)) == Sort(PairLeq, Kept(r)) {
      forall p | !IsTracking(p) ensures multiset(q)[p] == multiset(r)[p] {
        KeptMultiset(q, p);
        KeptMultiset(r, p);
      }
    }
    if SameQuery(q, r) {
      forall p ensures multiset(Kept(q))[p] == multiset(Kept(r))[p] {
        KeptMultiset(q, p);
        KeptMultiset(r, p);
      }
      assert multiset(Kept(q)) == multiset(Kept(r));
      SortForgetsOrder(PairLeq, Kept(q), Kept(r));
    }
  }

  /** Two URLs name the same story exactly when everything but decoration agrees. */
  lemma SameCanonicalIff(u: Url, v: Url)
    ensures Canonicalize(u) == Canonicalize(v) <==>
            && u.scheme == v.scheme && u.netloc == v.netloc
            && StripSlashes(u.path) == StripSlashes(v.path)
            && SameQuery(u.query, v.query)
  {
    KeptQueriesAgreeIff(u.query, v.query);
  }

  /** Shuffling the query, adding tracking pairs, trailing slashes or a fragment makes no new story. */
  lemma DecorationIsInvisible(u: Url, query: seq<Pair>, tracking: multiset<Pair>, slashes: nat, fragment: string)
    requires multiset(query) == multiset(u.query) + tracking
    requires forall p :: p in tracking ==> IsTracking(p)
    ensures var v := Url(u.scheme, u.netloc, u.path + seq(slashes, _ => '/'), query, fragment);
            Canonicalize(v) == Canonicalize(u)
  {
    TrailingSlashes(u.path, slashes);
    SameCanonicalIff(Url(u.scheme, u.netloc, u.path + seq(slashes, _ => '/'), query, fragment), u);
  }

  lemma {:induction false} TrailingSlashes(path: string, n: nat)
    ensures StripSlashes(path + seq(n, _ => '/')) == StripSlashes(path)
  {
    var s := path + seq(n, _ => '/');
    if n == 0 {
      assert s == path;
    } else {
      assert s[..|s| - 1] == path + seq(n - 1, _ => '/');
      TrailingSlashes(path, n - 1);
    }
  }

  lemma CanonicalizeIdempotent(u: Url)
    ensures Canonicalize(Canonicalize(u)) == Canonicalize(u)
  {
    var c := Canonicalize(u);
    PairOrder();
    SortSorts(PairLeq, Kept(u.query));
    forall p | !IsTracking(p) ensures multiset(c.query)[p] == multiset(u.query)[p] {
      KeptMultiset(u.query, p);
    }
    if StripSlashes(u.path) == "" {
      assert StripSlashes("/") == "" by {
        assert "/"[..0] == "";
      }
    } else {
      assert StripSlashes(c.path) == c.path;
    }
    SameCanonicalIff(c, u);
  }

  // --- the hashed string ----------------------------------------------------------------------

  /** Per-character case folding, as an assumed table. */
  function Fold(fold: char -> string, s: string): string {
    if s == "" then "" else fold(s[0]) + Fold(fold, s[1..])
  }

  function NormalizeTitle(c: Text.CharClasses, fold: char -> string, title: string): string {
    Fold(fold, Text.Strip(c, Text.Collapse(c, title)))
  }

  function Preimage(canonical: string, normalizedTitle: string): string {
    canonical + "\n" + normalizedTitle
  }

  /** Newline is whitespace, and folding a character never yields one. */
  ghost predicate FoldsOnOneLine(c: Text.CharClasses, fold: char -> string) {
    c.space('\n') && forall x :: x != '\n' ==> '\n' !in fold(x)
  }

  lemma {:induction false} FoldHasNoNewline(fold: char -> string, s: string)
    requires '\n' !in s && forall x :: x != '\n' ==> '\n' !in fold(x)
    ensures '\n' !in Fold(fold, s)
  {
    if s != "" {
      FoldHasNoNewline(fold, s[1..]);
      assert s[0] != '\n';
    }
  }

  lemma NormalizedTitleIsOneLine(c: Text.CharClasses, fold: char -> string, title: string)
    requires Text.Sane(c) && FoldsOnOneLine(c, fold)
    ensures '\n' !in NormalizeTitle(c, fold, title)
  {
    var flat := Text.Collapse(c, title);
    Text.CollapseFlattens(c, title);
    assert '\n' !in flat;
    Text.StripInventsNothing(c, flat, '\n');
    FoldHasNoNewline(fold, Text.Strip(c, flat));
  }

  /** A string splits at its last newline in one way only. */
  lemma LastNewlineSplits(a: string, s: string, b: string, t: string)
    requires '\n' !in s && '\n' !in t
    requires Preimage(a, s) == Preimage(b, t)
    ensures a == b && s == t
  {
    var p := Preimage(a, s);
    assert p[|a|] == '\n' && p[|b|] == '\n';
    assert forall i :: |a| < i < |p| ==> p[i] == s[i - |a| - 1];
    assert forall i :: |b| < i < |p| ==> p[i] == t[i - |b| - 1];
    assert |a| == |b|;
    assert p[..|a|] == a && p[..|b|] == b;
    assert p[|a| + 1..] == s && p[|b| + 1..] == t;
  }

  /** The hashed string determines both the canonical URL and the normalised headline. */
  lemma PreimageIsAPair(c: Text.CharClasses, fold: char -> string, a: string, title: string, b: string, title': string)
    requires Text.Sane(c) && FoldsOnOneLine(c, fold)
    ensures Preimage(a, NormalizeTitle(c, fold, title)) == Preimage(b, NormalizeTitle(c, fold, title'))
       <==> a == b && NormalizeTitle(c, fold, title) == NormalizeTitle(c, fold, title')
  {
    NormalizedTitleIsOneLine(c, fold, title);
    NormalizedTitleIsOneLine(c, fold, title');
    if Preimage(a, NormalizeTitle(c, fold, title)) == Preimage(b, NormalizeTitle(c, fold, title')) {
      LastNewlineSplits(a, NormalizeTitle(c, fold, title), b, NormalizeTitle(c, fold, title'));
    }
  }

  /**
   Two entries collide before hashing exactly when their URLs differ in decoration only and their
   headlines normalise alike, given that `render` tells these two canonical URLs apart.
   */
  lemma SameKeyIff(
      c: Text.CharClasses, fold: char -> string, render: Url -> string,
      u: Url, title: string, v: Url, title': string)
    requires Text.Sane(c) && FoldsOnOneLine(c, fold)
    requires render(Canonicalize(u)) == render(Canonicalize(v)) ==> Canonicalize(u) == Canonicalize(v)
    ensures Preimage(render(Canonicalize(u)), NormalizeTitle(c, fold, title))
         == Preimage(render(Canonicalize(v)), NormalizeTitle(c, fold, title'))
       <==> && u.scheme == v.scheme && u.netloc == v.netloc
            && StripSlashes(u.path) == StripSlashes(v.path)
            && SameQuery(u.query, v.query)
            && NormalizeTitle(c, fold, title) == NormalizeTitle(c, fold, title')
  {
    PreimageIsAPair(c, fold, render(Canonicalize(u)), title, render(Canonicalize(v)), title');
    SameCanonicalIff(u, v);
  }

  // --- which parameters are tracking ----------------------------------------------------------

  /** `s` is the lower-case `t` with some of its letters in upper case. */
  ghost predicate SpellsOut(s: string, t: string) {
    && |s| == |t|
    && forall i :: 0 <= i < |s| ==>
         s[i] == t[i] || ('a' <= t[i] <= 'z' && 'A' <= s[i] <= 'Z' && s[i] - 'A' == t[i] - 'a')
  }

  ghost predicate IsLower(t: string) {
    forall x :: x in t ==> !('A' <= x <= 'Z')
  }

  lemma LowersToIff(s: string, t: string)
    requires IsLower(t)
    ensures Lower(s) == t <==> SpellsOut(s, t)
  {
    forall i | 0 <= i < |t| ensures !('A' <= t[i] <= 'Z') {
      assert t[i] in t;
    }
    if SpellsOut(s, t) {
      assert forall i :: 0 <= i < |s| ==> Lower(s)[i] == t[i];
    }
  }

  /** A parameter is dropped exactly when it spells one of the tracking names, in whatever case, as Python's does. */
  lemma TrackingIgnoresCase(p: Pair)
    ensures IsTracking(p) <==> exists name :: name in TRACKING_PARAMS && SpellsOut(p.0, name)
  {
    forall name | name in TRACKING_PARAMS ensures Lower(p.0) == name <==> SpellsOut(p.0, name) {
      LowersToIff(p.0, name);
    }
  }
}

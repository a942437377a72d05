/** The Belleville News-Democrat scraper (bnd.12h.py). The combined script
    daily_news_uv.2hr.py repeats the same link, cleaning and extraction rules;
    its capped variant is in module DailyNews and is proved equal to a prefix
    of `GetHeadlines` below. */
module Bnd {
  import opened Wrappers
  import opened Text
  import opened Headlines

  const BndUrl: string := "https://www.bnd.com"

  /** Short labels for known categories. */
  const Abbreviations: map<string, string> := map[
    "Opinion Columns & Blogs" := "[Op Ed]",
    "High School Football" := "[HS Football]",
    "Crime" := "[Crime]",
    "Metro-East News" := "[Metro]",
    "Business" := "[Biz]",
    "Food & Drink" := "[Food]",
    "St. Louis Cardinals" := "[Cards]",
    "Belleville" := "[BLV]",
    "Latest News" := "[Latest]"
  ]

  /** Category given to every article of the latest-news section. */
  const LatestNews: string := "Latest News"

  /** The `<h3>` of a page element: its text and, when it holds an `<a>`, that
      anchor's `href` ("" when the attribute is missing). */
  datatype Heading = Heading(text: string, anchor: Option<string>)

  /** A grid `<article>` or a latest-section `div.package`, as extracted:
      its heading, the text of its `.kicker`, and whether it sits inside a
      `.partner-digest-group`. */
  datatype Element = Element(heading: Option<Heading>, kicker: Option<string>, inPartnerDigest: bool)

  /** The parsed front page; a section the page lacks is `None`. */
  datatype Page = Page(grid: Option<seq<Element>>, latest: Option<seq<Element>>)

  /** `_normalize_link`: the link without its fragment, made absolute. */
  function NormalizeLink(link: string): (r: string)
    ensures IsAbsolute(r) && '#' !in r
    ensures r == CutAt(link, '#') || r == BndUrl + CutAt(link, '#')
  {
    var base := CutAt(link, '#');
    if IsAbsolute(base) then base else BndUrl + base
  }

  /** A link that is already absolute and fragment-free is its own normal form. */
  lemma {:induction false} NormalizeLinkFixesNormal(link: string)
    requires IsAbsolute(link) && '#' !in link
    ensures NormalizeLink(link) == link
  {
    CutAtAbsent(link, '#');
  }

  lemma {:induction false} CutAtAbsent(s: string, c: char)
    requires c !in s
    ensures CutAt(s, c) == s
  {
    if |s| > 0 {
      CutAtAbsent(s[1..], c);
      assert [s[0]] + s[1..] == s;
    }
  }

  /** Normalising twice is normalising once. */
  lemma {:induction false} NormalizeLinkIdempotent(link: string)
    ensures NormalizeLink(NormalizeLink(link)) == NormalizeLink(link)
  {
    NormalizeLinkFixesNormal(NormalizeLink(link));
  }

  /** The stored link is the completed href, yet it normalises to the same
      key the extraction recorded for the raw href. */
  lemma {:induction false} NormalizeCompletedLink(a: Article)
    ensures NormalizeLink(WithFullLink(a, BndUrl).link) == NormalizeLink(a.link)
  {
    if !IsAbsolute(a.link) {
      var cut := CutAt(a.link, '#');
      CutAtAfterPrefix(BndUrl, a.link, '#');
      assert CutAt(BndUrl + a.link, '#') == BndUrl + cut;
      assert (BndUrl + cut)[..4] == "http";
      assert IsAbsolute(cut) ==> IsAbsolute(a.link);
    }
  }

  /** The key articles are deduplicated by. */
  function Key(a: Article): string {
    NormalizeLink(a.link)
  }

  ghost predicate DistinctKeys(articles: seq<Article>) {
    forall i, j :: 0 <= i < j < |articles| ==> Key(articles[i]) != Key(articles[j])
  }

  /** The href of an element's heading anchor, if the element has one. */
  function Href(e: Element): Option<string> {
    if e.heading.Some? && e.heading.value.anchor.Some? then e.heading.value.anchor else None
  }

  /** An explicit category wins; otherwise the cleaned kicker, or "". */
  function CategoryOf(e: Element, category: string): (r: string)
    ensures category != "" ==> r == category
    ensures category == "" && e.kicker.None? ==> r == ""
    ensures category == "" && e.kicker.Some? ==> r == CleanText(e.kicker.value)
    ensures category == "" && e.kicker.Some? ==> IsClean(r) && |r| <= |e.kicker.value|
  {
    if category != "" then category
    else match e.kicker
      case Some(k) => CleanText(k)
      case None => ""
  }

  /** `_extract_article_from_element(e, category)` against the set `seen` of
      normalised links: the article, if any, and the set afterwards. */
  function Extract(e: Element, category: string, seen: set<string>): (r: (Option<Article>, set<string>))
    ensures r.0.None? <==> Href(e).None? || Href(e).value == "" || NormalizeLink(Href(e).value) in seen
    ensures r.0.None? ==> r.1 == seen
    ensures r.0.Some? ==> Key(r.0.value) !in seen && r.1 == seen + {Key(r.0.value)}
    ensures r.0.Some? ==> r.0.value.link == WithFullLink(r.0.value.(link := Href(e).value), BndUrl).link
    ensures r.0.Some? ==> r.0.value.category == CategoryOf(e, category) && r.0.value.summary == ""
    ensures r.0.Some? ==> r.0.value.headline == CleanText(e.heading.value.text) && IsClean(r.0.value.headline)
    ensures r.0.Some? ==> Key(r.0.value) == NormalizeLink(Href(e).value)
  {
    match Href(e)
    case None => (None, seen)
    case Some(link) =>
      var key := NormalizeLink(link);
      if link == "" || key in seen then (None, seen)
      else
        var raw := Article(CleanText(e.heading.value.text), link, "", CategoryOf(e, category));
        var a := WithFullLink(raw, BndUrl);
        NormalizeCompletedLink(raw);
        (Some(a), seen + {key})
  }

  /** One extraction step: the articles and seen-set so far, advanced past `e`. */
  function Advance(acc: (seq<Article>, set<string>), e: Element, category: string): (r: (seq<Article>, set<string>))
    ensures |r.0| <= |acc.0| + 1
  {
    var next := Extract(e, category, acc.1);
    (acc.0 + (if next.0.Some? then [next.0.value] else []), next.1)
  }

  /** Extracts the elements in order, threading one seen-set through them. */
  function Scan(es: seq<Element>, category: string, seen: set<string>): (r: (seq<Article>, set<string>))
    ensures |r.0| <= |es|
    decreases |es|
  {
    if |es| == 0 then ([], seen)
    else Advance(Scan(es[..|es| - 1], category, seen), es[|es| - 1], category)
  }

  /** First-seen-wins: a pass records every key it emits, emits no key it was
      given, and never emits one key twice. */
  lemma {:induction false} ScanKeys(es: seq<Element>, category: string, seen: set<string>)
    ensures var r := Scan(es, category, seen);
            && seen <= r.1
            && (forall a :: a in r.0 ==> Key(a) in r.1 && Key(a) !in seen)
            && DistinctKeys(r.0)
    decreases |es|
  {
    if |es| > 0 {
      ScanKeys(es[..|es| - 1], category, seen);
      AdvanceKeeps(Scan(es[..|es| - 1], category, seen), es[|es| - 1], category, seen);
    }
  }

  /** Some element of `es` has a heading link whose key is `key`. */
  ghost predicate KeyFrom(es: seq<Element>, key: string) {
    exists j :: 0 <= j < |es| && Href(es[j]).Some? && NormalizeLink(Href(es[j]).value) == key
  }

  /** A pass records only the keys it was given and the keys of its elements. */
  lemma {:induction false} ScanSeenFrom(es: seq<Element>, category: string, seen: set<string>)
    ensures forall key :: key in Scan(es, category, seen).1 ==> key in seen || KeyFrom(es, key)
    decreases |es|
  {
    if |es| > 0 {
      var init := es[..|es| - 1];
      var e := es[|es| - 1];
      ScanSeenFrom(init, category, seen);
      forall key | KeyFrom(init, key) ensures KeyFrom(es, key) {
        var j :| 0 <= j < |init| && Href(init[j]).Some? && NormalizeLink(Href(init[j]).value) == key;
        assert es[j] == init[j];
      }
      var next := Extract(e, category, Scan(init, category, seen).1);
      if next.0.Some? {
        assert Href(es[|es| - 1]).Some?;
      }
    }
  }

  /** First seen wins, and nothing is missed: an element with a non-empty
      link whose key was neither given nor carried by an earlier element gives
      its article, with its cleaned heading and its category. */
  lemma {:induction false} ScanKeepsFirst(es: seq<Element>, category: string, seen: set<string>, k: nat)
    requires k < |es| && Href(es[k]).Some? && Href(es[k]).value != ""
    requires NormalizeLink(Href(es[k]).value) !in seen
    requires forall j :: 0 <= j < k && Href(es[j]).Some? ==> NormalizeLink(Href(es[j]).value) != NormalizeLink(Href(es[k]).value)
    ensures exists a :: a in Scan(es, category, seen).0 && Key(a) == NormalizeLink(Href(es[k]).value)
                        && a.headline == CleanText(es[k].heading.value.text) && a.category == CategoryOf(es[k], category)
  {
    FreshAt(es, category, seen, k);
    FreshEmits(es[..k], es[k], category, seen);
    EmitsExtended(es[..k] + [es[k]], es[k + 1..], es[k], category, seen);
    SplitAt(es, k);
  }

  /** Some article of `arts` is the one element `e` gives under `category`. */
  ghost predicate Emits(arts: seq<Article>, e: Element, category: string)
    requires Href(e).Some?
  {
    exists a :: a in arts && Key(a) == NormalizeLink(Href(e).value)
                && a.headline == CleanText(e.heading.value.text) && a.category == CategoryOf(e, category)
  }

  /** Before an element whose key is new, the pass has not recorded that key. */
  lemma {:induction false} FreshAt(es: seq<Element>, category: string, seen: set<string>, k: nat)
    requires k < |es| && Href(es[k]).Some?
    requires NormalizeLink(Href(es[k]).value) !in seen
    requires forall j :: 0 <= j < k && Href(es[j]).Some? ==> NormalizeLink(Href(es[j]).value) != NormalizeLink(Href(es[k]).value)
    ensures NormalizeLink(Href(es[k]).value) !in Scan(es[..k], category, seen).1
  {
    ScanSeenFrom(es[..k], category, seen);
    assert !KeyFrom(es[..k], NormalizeLink(Href(es[k]).value));
  }

  /** An element whose key the pass has not recorded gives its article. */
  lemma {:induction false} FreshEmits(pre: seq<Element>, e: Element, category: string, seen: set<string>)
    requires Href(e).Some? && Href(e).value != ""
    requires NormalizeLink(Href(e).value) !in Scan(pre, category, seen).1
    ensures Emits(Scan(pre + [e], category, seen).0, e, category)
  {
    ScanSnoc(pre, e, category, seen);
    var next := Extract(e, category, Scan(pre, category, seen).1);
    assert next.0.value in Scan(pre + [e], category, seen).0;
  }

  /** Reading further elements never drops an article already emitted. */
  lemma {:induction false} EmitsExtended(xs: seq<Element>, ys: seq<Element>, e: Element, category: string, seen: set<string>)
    requires Href(e).Some? && Emits(Scan(xs, category, seen).0, e, category)
    ensures Emits(Scan(xs + ys, category, seen).0, e, category)
  {
    var a :| a in Scan(xs, category, seen).0 && Key(a) == NormalizeLink(Href(e).value)
             && a.headline == CleanText(e.heading.value.text) && a.category == CategoryOf(e, category);
    ScanAppend(xs, ys, category, seen);
  }

  /** What a pass started from `seen` keeps about the articles and keys it holds. */
  ghost predicate KeysRecorded(acc: (seq<Article>, set<string>), seen: set<string>) {
    && seen <= acc.1
    && (forall a :: a in acc.0 ==> Key(a) in acc.1 && Key(a) !in seen)
    && DistinctKeys(acc.0)
  }

  /** One step keeps the keys recorded. */
  lemma {:induction false} AdvanceKeeps(acc: (seq<Article>, set<string>), e: Element, category: string, seen: set<string>)
    requires KeysRecorded(acc, seen)
    ensures KeysRecorded(Advance(acc, e, category), seen)
  {
    var next := Extract(e, category, acc.1);
    if next.0.Some? {
      var r := Advance(acc, e, category);
      var a := next.0.value;
      assert r.0 == acc.0 + [a];
      forall i, j | 0 <= i < j < |r.0|
        ensures Key(r.0[i]) != Key(r.0[j])
      {
        if j == |acc.0| {
          assert r.0[i] in acc.0;
        } else {
          assert r.0[i] == acc.0[i] && r.0[j] == acc.0[j];
        }
      }
    }
  }

  /** A step does not look at the articles already read. */
  lemma {:induction false} AdvanceFrame(p: seq<Article>, acc: (seq<Article>, set<string>), e: Element, category: string)
    ensures Advance((p + acc.0, acc.1), e, category)
            == (p + Advance(acc, e, category).0, Advance(acc, e, category).1)
  {
    var next := Extract(e, category, acc.1);
    var extra: seq<Article> := if next.0.Some? then [next.0.value] else [];
    assert p + acc.0 + extra == p + (acc.0 + extra);
  }

  lemma {:induction false} ScanAppend(xs: seq<Element>, ys: seq<Element>, category: string, seen: set<string>)
    ensures var first := Scan(xs, category, seen);
            var rest := Scan(ys, category, first.1);
            Scan(xs + ys, category, seen) == (first.0 + rest.0, rest.1)
    decreases |ys|
  {
    var first := Scan(xs, category, seen);
    if |ys| == 0 {
      assert xs + ys == xs;
      assert first.0 + [] == first.0;
    } else {
      var ys' := ys[..|ys| - 1];
      var e := ys[|ys| - 1];
      AppendInit(xs, ys);
      assert Scan(xs + ys, category, seen) == Advance(Scan(xs + ys', category, seen), e, category);
      ScanAppend(xs, ys', category, seen);
      var mid := Scan(ys', category, first.1);
      assert Scan(ys, category, first.1) == Advance(mid, e, category);
      AdvanceFrame(first.0, mid, e, category);
    }
  }

  /** Reading one more element extends the pass by that element's article. */
  lemma {:induction false} ScanSnoc(es: seq<Element>, e: Element, category: string, seen: set<string>)
    ensures Scan(es + [e], category, seen) == Advance(Scan(es, category, seen), e, category)
  {
    AppendInit(es, [e]);
  }

  /** The grid articles outside any partner-digest group, in order. */
  function Unpartnered(es: seq<Element>): (r: seq<Element>)
    ensures |r| <= |es|
  {
    if |es| == 0 then []
    else Unpartnered(es[..|es| - 1]) + (if es[|es| - 1].inPartnerDigest then [] else [es[|es| - 1]])
  }

  /** Exactly the elements outside partner-digest groups are kept. */
  lemma {:induction false} UnpartneredMembers(es: seq<Element>)
    ensures forall e :: e in Unpartnered(es) <==> e in es && !e.inPartnerDigest
    decreases |es|
  {
    if |es| > 0 {
      var init := es[..|es| - 1];
      UnpartneredMembers(init);
      assert es == init + [es[|es| - 1]];
    }
  }

  lemma {:induction false} UnpartneredAppend(xs: seq<Element>, ys: seq<Element>)
    ensures Unpartnered(xs + ys) == Unpartnered(xs) + Unpartnered(ys)
    decreases |ys|
  {
    if |ys| == 0 {
      assert xs + ys == xs;
    } else {
      var ys' := ys[..|ys| - 1];
      assert (xs + ys)[..|xs + ys| - 1] == xs + ys';
      UnpartneredAppend(xs, ys');
    }
  }

  /** The grid's articles, read with an empty seen-set. */
  function GridPass(page: Page): (seq<Article>, set<string>) {
    Scan(Unpartnered(page.grid.GetOr([])), "", {})
  }

  /** The latest section's articles, read after the grid. */
  function LatestPass(page: Page): (seq<Article>, set<string>) {
    Scan(page.latest.GetOr([]), LatestNews, GridPass(page).1)
  }

  /** `BNDScraper.get_headlines`: grid articles first, then latest-section
      articles, uncapped; a failed fetch yields no articles. */
  function GetHeadlines(fetched: Result<Page>): (r: seq<Article>)
    ensures fetched.Failure? ==> r == []
    ensures fetched.Success? ==> GridPass(fetched.value).0 <= r
    ensures fetched.Success? ==> r[|GridPass(fetched.value).0|..] == LatestPass(fetched.value).0
    ensures fetched.Success? ==>
              forall i :: |GridPass(fetched.value).0| <= i < |r| ==> r[i].category == LatestNews
  {
    match fetched
    case Failure(_) => []
    case Success(page) =>
      LatestCategory(page.latest.GetOr([]), GridPass(page).1);
      GridPass(page).0 + LatestPass(page).0
  }

  /** One seen-set shared by both sections: a link in the grid suppresses its
      duplicate in the latest section, so no two headlines share a key. */
  lemma {:induction false} GetHeadlinesDistinct(fetched: Result<Page>)
    ensures DistinctKeys(GetHeadlines(fetched))
  {
    if fetched.Success? {
      var page := fetched.value;
      ScanKeys(Unpartnered(page.grid.GetOr([])), "", {});
      ScanKeys(page.latest.GetOr([]), LatestNews, GridPass(page).1);
      var grid := GridPass(page).0;
      var latest := LatestPass(page).0;
      var r := grid + latest;
      forall i, j | 0 <= i < j < |r| ensures Key(r[i]) != Key(r[j]) {
        if j >= |grid| && i < |grid| {
          assert r[i] in grid && r[j] in latest;
        }
      }
    }
  }

  lemma {:induction false} LatestCategory(es: seq<Element>, seen: set<string>)
    ensures forall a :: a in Scan(es, LatestNews, seen).0 ==> a.category == LatestNews
    decreases |es|
  {
    if |es| > 0 {
      LatestCategory(es[..|es| - 1], seen);
    }
  }

  /** The category shown ahead of a headline: the table's label, else the
      category in brackets. */
  function Label(category: string): (r: string)
    ensures category in Abbreviations ==> r == Abbreviations[category]
    ensures category !in Abbreviations ==> r == "[" + category + "]"
    ensures |r| >= 2 && r[0] == '[' && r[|r| - 1] == ']'
  {
    if category in Abbreviations then Abbreviations[category] else "[" + category + "]"
  }

  /** The text shown for an article before the width rule. */
  function Display(a: Article): (r: string)
    ensures a.category == "" ==> r == a.headline
    ensures a.category != "" ==> r == Label(a.category) + " " + a.headline
  {
    if a.category != "" then Label(a.category) + " " + a.headline else a.headline
  }

  /** The tooltip: the full category name and headline. */
  function Tooltip(a: Article): (r: string)
    ensures a.category == "" ==> r == a.headline
    ensures a.category != "" ==> r == a.category + ": " + a.headline
  {
    if a.category != "" then a.category + ": " + a.headline else a.headline
  }

  /** `format_menu_item(article)`. */
  function FormatMenuItem(a: Article): (r: string)
    ensures FitMenu(Display(a)) + " | href=" + a.link + " " <= r
    ensures Contains(r, "tooltip=\"" + Tooltip(a) + "\"")
  {
    var head := FitMenu(Display(a)) + " | href=" + a.link + " ";
    var tip := "tooltip=\"" + Tooltip(a) + "\"";
    ContainsMiddle(head, tip, "");
    assert head + tip + "" == head + tip;
    head + tip
  }

  /** The width rule cuts the label too: the shown text is at most 75 long and
      keeps the label and headline up to that width. */
  lemma {:induction false} ShownText(a: Article)
    ensures |FitMenu(Display(a))| <= MenuWidth
    ensures |Display(a)| <= MenuWidth ==> FitMenu(Display(a)) == Display(a)
    ensures a.category == "" ==> Take(a.headline, MenuWidth - 3) <= FitMenu(Display(a))
  {
  }

  /** How the fetch of the front page ended: with the page, or with the
      exception `get_headlines` catches. */
  datatype Fetch = Fetched(page: Page) | TimedOut | RequestFailed(message: string) | Crashed(message: string)

  const TimeoutLine: string := "Timeout while fetching headlines. Retrying in 5 minutes... | color=red"

  /** The whole menu when there are no articles. */
  const NoHeadlines: seq<string> :=
    ["No headlines available. Please check the website manually. | color=red", "---", "Open BND.com | href=" + BndUrl]

  /** The line `get_headlines` prints for a caught exception. */
  function FetchLog(f: Fetch): (r: seq<string>)
    ensures f.Fetched? <==> r == []
  {
    match f
    case Fetched(_) => []
    case TimedOut => [TimeoutLine]
    case RequestFailed(m) => ["Request error: " + m + " | color=red"]
    case Crashed(m) => ["An unexpected error occurred: " + m + " | color=red"]
  }

  /** `get_headlines` as the script sees it: the line it printed and the
      articles it returned. A caught exception prints one red line and gives
      no articles. */
  function PrintedHeadlines(f: Fetch): (r: (seq<string>, seq<Article>))
    ensures f.Fetched? ==> r == ([], GetHeadlines(Success(f.page)))
    ensures !f.Fetched? ==> |r.0| == 1 && r.1 == []
  {
    match f
    case Fetched(page) => ([], GetHeadlines(Success(page)))
    case _ => (FetchLog(f), [])
  }

  /** The menu `main` prints for the articles `get_headlines` returned, given
      the clock reading it prints. */
  function Listing(articles: seq<Article>, updatedAt: string): (r: seq<string>)
    ensures articles == [] ==> r == NoHeadlines
    ensures articles != [] ==> |r| == |articles| + 6 && r[..2] == ["BND", "---"]
    ensures articles != [] ==> forall i :: 0 <= i < |articles| ==> r[i + 2] == FormatMenuItem(articles[i])
  {
    if articles == [] then NoHeadlines
    else
      ["BND", "---"] + MenuItems(articles)
      + ["---", "Last Updated: " + updatedAt + " | color=gray", "Open BND.com | href=" + BndUrl,
         "Refresh | refresh=true"]
  }

  /** `main`: the line `get_headlines` printed, if any, then the menu. A
      caught exception shows its red line above the three-line menu. */
  function Menu(f: Fetch, updatedAt: string): (r: seq<string>)
    ensures var (log, articles) := PrintedHeadlines(f);
      |r| == |log| + |Listing(articles, updatedAt)| && r[..|log|] == log && r[|log|..] == Listing(articles, updatedAt)
    ensures !f.Fetched? ==> r == FetchLog(f) + NoHeadlines
    ensures f.Fetched? && GetHeadlines(Success(f.page)) != [] ==> r[..2] == ["BND", "---"]
  {
    var (log, articles) := PrintedHeadlines(f);
    var r := log + Listing(articles, updatedAt);
    assert r[..|log|] == log && r[|log|..] == Listing(articles, updatedAt);
    r
  }

  function MenuItems(articles: seq<Article>): (r: seq<string>)
    ensures |r| == |articles|
    ensures forall i :: 0 <= i < |articles| ==> r[i] == FormatMenuItem(articles[i])
  {
    if |articles| == 0 then [] else [FormatMenuItem(articles[0])] + MenuItems(articles[1..])
  }
}

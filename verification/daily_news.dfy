/** The STLToday and BND sections of the combined news menu
    (daily_news_uv.2hr.py). They read the same page elements as the
    standalone scrapers (modules Stl and Bnd) but stop after 15 stories; the
    STL section also drops some blocks and abbreviates block titles. The
    Techmeme, Hacker News and Lobste.rs sections are in module TechNews. */
module DailyNews {
  import opened Wrappers
  import opened Text
  import opened Headlines
  import Stl
  import Bnd

  /** Block titles whose stories the combined menu leaves out. */
  const StlExcluded: set<string> := {
    "LatestVideo", "Partner", "Curated Commerce", "Print Ads", "Listen NowPodcasts",
    "InteractWith Us", "Local Businesses", "Nation & World", "Winning STL"
  }

  /** Short forms of some block titles. */
  const StlAbbreviations: map<string, string> := map[
    "Opinion" := "OpEd",
    "Business" := "Biz",
    "Life & Entertainment" := "Life",
    "RecommendedFor You" := "Picks",
    "Uncategorized" := "Top",
    "TheLatest" := "New"
  ]

  /** The category a combined-menu STL story carries: the abbreviation of its
      block title when there is one, else the title itself. */
  function StlLabel(category: string): (r: string)
    ensures category in StlAbbreviations ==> r == StlAbbreviations[category]
    ensures category !in StlAbbreviations ==> r == category
  {
    if category in StlAbbreviations then StlAbbreviations[category] else category
  }

  /** No abbreviation is itself an excluded title, so every story the combined
      menu lists carries a category outside the exclusion list. */
  lemma {:induction false} StlAllSkipsExcluded(blocks: seq<Stl.Block>)
    ensures forall a :: a in StlAll(blocks) ==> a.category !in StlExcluded
    decreases |blocks|
  {
    if |blocks| > 0 {
      var b := blocks[|blocks| - 1];
      StlAllSkipsExcluded(blocks[..|blocks| - 1]);
      var category := Stl.BlockCategory(b);
      if category !in StlExcluded {
        Stl.BlockArticlesMembers(b.cards, StlLabel(category));
        assert StlLabel(category) !in StlExcluded;
      }
    }
  }

  /** The stories one block contributes: none for an excluded block. */
  function StlBlock(b: Stl.Block): seq<Article> {
    var category := Stl.BlockCategory(b);
    if category in StlExcluded then [] else Stl.BlockArticles(b.cards, StlLabel(category))
  }

  /** The STL stories of the combined menu before the cap, block by block. */
  function StlAll(blocks: seq<Stl.Block>): (r: seq<Article>)
    decreases |blocks|
  {
    if |blocks| == 0 then []
    else StlAll(blocks[..|blocks| - 1]) + StlBlock(blocks[|blocks| - 1])
  }

  lemma {:induction false} CardStep(cards: seq<Stl.Card>, j: nat, category: string)
    requires j < |cards|
    ensures var a := Stl.ExtractArticle(cards[j], category);
            Stl.BlockArticles(cards[..j + 1], category)
            == Stl.BlockArticles(cards[..j], category) + (if a.Some? then [a.value] else [])
  {
    PrefixStep(cards, j);
  }

  lemma {:induction false} CardPrefix(cards: seq<Stl.Card>, j: nat, category: string)
    requires j <= |cards|
    ensures Stl.BlockArticles(cards[..j], category) <= Stl.BlockArticles(cards, category)
  {
    Stl.BlockArticlesAppend(cards[..j], cards[j..], category);
    SplitJoin(cards, j);
  }

  /** The card loop of `sync_fetch_stl` for one kept block, continuing after
      the `prior` stories; stops once 15 stories are read. */
  method ReadBlock(cards: seq<Stl.Card>, category: string, prior: seq<Article>) returns (articles: seq<Article>)
    requires |prior| < MaxHeadlines
    ensures |articles| <= MaxHeadlines
    ensures articles <= prior + Stl.BlockArticles(cards, category)
    ensures |articles| < MaxHeadlines ==> articles == prior + Stl.BlockArticles(cards, category)
  {
    articles := prior;
    var j := 0;
    while j < |cards| && |articles| < MaxHeadlines
      invariant 0 <= j <= |cards|
      invariant |articles| <= MaxHeadlines
      invariant articles == prior + Stl.BlockArticles(cards[..j], category)
    {
      CardStep(cards, j, category);
      ghost var done := Stl.BlockArticles(cards[..j], category);
      var a := Stl.ExtractArticle(cards[j], category);
      if a.Some? {
        assert prior + done + [a.value] == prior + (done + [a.value]);
        articles := articles + [a.value];
      } else {
        assert done + [] == done;
      }
      j := j + 1;
    }
    CardPrefix(cards, j, category);
    Whole(cards);
  }

  /** The stories of each block. */
  function StlParts(blocks: seq<Stl.Block>): (r: seq<seq<Article>>)
    ensures |r| == |blocks|
    ensures forall i :: 0 <= i < |blocks| ==> r[i] == StlBlock(blocks[i])
  {
    seq(|blocks|, i requires 0 <= i < |blocks| => StlBlock(blocks[i]))
  }

  lemma {:induction false} StlAllFlatten(blocks: seq<Stl.Block>)
    ensures StlAll(blocks) == Flatten(StlParts(blocks))
    decreases |blocks|
  {
    if |blocks| > 0 {
      var init := blocks[..|blocks| - 1];
      StlAllFlatten(init);
      assert StlParts(blocks)[..|blocks| - 1] == StlParts(init);
    }
  }

  /** `sync_fetch_stl`: the first 15 stories of the kept blocks, or the error
      text when the page could not be fetched. */
  method SyncFetchStl(fetched: Result<seq<Stl.Block>>) returns (r: Result<seq<Article>>)
    ensures fetched.Failure? ==> r == Failure("Error fetching STLToday: " + fetched.error)
    ensures fetched.Success? ==> r == Success(Cap(StlAll(fetched.value), MaxHeadlines))
  {
    if fetched.Failure? {
      return Failure("Error fetching STLToday: " + fetched.error);
    }
    var blocks := fetched.value;
    ghost var parts := StlParts(blocks);
    var articles: seq<Article> := [];
    var i := 0;
    while i < |blocks| && |articles| < MaxHeadlines
      invariant 0 <= i <= |blocks|
      invariant |articles| <= MaxHeadlines
      invariant articles <= Flatten(parts)
      invariant |articles| < MaxHeadlines ==> articles == Flatten(parts[..i])
    {
      var b := blocks[i];
      var category := Stl.BlockCategory(b);
      ghost var before := articles;
      if category !in StlExcluded {
        articles := ReadBlock(b.cards, StlLabel(category), articles);
      } else {
        assert before + parts[i] == before;
      }
      CappedStep(parts, i, before, articles, MaxHeadlines);
      i := i + 1;
    }
    Whole(parts);
    StlAllFlatten(blocks);
    CapOfPrefix(articles, StlAll(blocks), MaxHeadlines);
    return Success(Cap(articles, MaxHeadlines));
  }

  /** The same story with its block title abbreviated. */
  function Relabel(articles: seq<Article>): (r: seq<Article>)
    ensures |r| == |articles|
    ensures forall i :: 0 <= i < |r| ==> r[i] == articles[i].(category := StlLabel(articles[i].category))
  {
    seq(|articles|, i requires 0 <= i < |articles| => articles[i].(category := StlLabel(articles[i].category)))
  }

  /** The blocks the combined menu reads. */
  function Kept(blocks: seq<Stl.Block>): (r: seq<Stl.Block>)
    decreases |blocks|
  {
    if |blocks| == 0 then []
    else
      var b := blocks[|blocks| - 1];
      Kept(blocks[..|blocks| - 1]) + (if Stl.BlockCategory(b) in StlExcluded then [] else [b])
  }

  lemma {:induction false} BlockRelabel(cards: seq<Stl.Card>, category: string)
    ensures Stl.BlockArticles(cards, StlLabel(category)) == Relabel(Stl.BlockArticles(cards, category))
    decreases |cards|
  {
    if |cards| > 0 {
      BlockRelabel(cards[..|cards| - 1], category);
    }
  }

  lemma {:induction false} RelabelAppend(xs: seq<Article>, ys: seq<Article>)
    ensures Relabel(xs + ys) == Relabel(xs) + Relabel(ys)
  {
  }

  lemma {:induction false} KeptSnoc(blocks: seq<Stl.Block>, b: Stl.Block)
    ensures Kept(blocks + [b]) == Kept(blocks) + (if Stl.BlockCategory(b) in StlExcluded then [] else [b])
  {
    AppendInit(blocks, [b]);
  }

  lemma {:induction false} AllArticlesSnoc(blocks: seq<Stl.Block>, b: Stl.Block)
    ensures Stl.AllArticles(blocks + [b]) == Stl.AllArticles(blocks) + Stl.BlockArticles(b.cards, Stl.BlockCategory(b))
  {
    AppendInit(blocks, [b]);
  }

  /** Before its cap, the combined STL section is the standalone scraper's
      list restricted to kept blocks, with block titles abbreviated. */
  lemma {:induction false} StlAllIsStandaloneRelabelled(blocks: seq<Stl.Block>)
    ensures StlAll(blocks) == Relabel(Stl.AllArticles(Kept(blocks)))
    decreases |blocks|
  {
    if |blocks| > 0 {
      var init := blocks[..|blocks| - 1];
      var b := blocks[|blocks| - 1];
      assert blocks == init + [b];
      StlAllIsStandaloneRelabelled(init);
      KeptSnoc(init, b);
      var category := Stl.BlockCategory(b);
      if category !in StlExcluded {
        AllArticlesSnoc(Kept(init), b);
        BlockRelabel(b.cards, category);
        RelabelAppend(Stl.AllArticles(Kept(init)), Stl.BlockArticles(b.cards, category));
      } else {
        assert Kept(init) + [] == Kept(init);
        assert StlAll(init) + [] == StlAll(init);
      }
    }
  }

  /** `format_stl_headline(article)`: the standalone menu item, marked as a
      submenu line. */
  function FormatStlHeadline(a: Article): (r: string)
    ensures |r| >= 3 && r[..2] == "--" && r[2..|r| - 1] == Stl.FormatMenuItem(a) && r[|r| - 1] == '\n'
  {
    "--" + Stl.FormatMenuItem(a) + "\n"
  }

  /** `format_bnd_headline(article)`: the standalone menu item, marked as a
      submenu line. */
  function FormatBndHeadline(a: Article): (r: string)
    ensures |r| >= 3 && r[..2] == "--" && r[2..|r| - 1] == Bnd.FormatMenuItem(a) && r[|r| - 1] == '\n'
  {
    "--" + Bnd.FormatMenuItem(a) + "\n"
  }

  lemma {:induction false} ScanStep(es: seq<Bnd.Element>, j: nat, category: string, seen: set<string>)
    requires j < |es|
    ensures Bnd.Scan(es[..j + 1], category, seen) == Bnd.Advance(Bnd.Scan(es[..j], category, seen), es[j], category)
  {
    PrefixStep(es, j);
  }

  lemma {:induction false} UnpartneredStep(es: seq<Bnd.Element>, i: nat)
    requires i < |es|
    ensures Bnd.Unpartnered(es[..i + 1])
            == Bnd.Unpartnered(es[..i]) + (if es[i].inPartnerDigest then [] else [es[i]])
  {
    PrefixStep(es, i);
  }

  /** One grid element read by the combined loop: the seen-set and article
      list advance exactly as the uncapped pass does. */
  lemma {:induction false} GridStep(grid: seq<Bnd.Element>, i: nat)
    requires i < |grid|
    ensures var prev := Bnd.Scan(Bnd.Unpartnered(grid[..i]), "", {});
            Bnd.Scan(Bnd.Unpartnered(grid[..i + 1]), "", {})
            == if grid[i].inPartnerDigest then prev else Bnd.Advance(prev, grid[i], "")
  {
    UnpartneredStep(grid, i);
    var u := Bnd.Unpartnered(grid[..i]);
    if grid[i].inPartnerDigest {
      assert u + [] == u;
    } else {
      Bnd.ScanSnoc(u, grid[i], "", {});
    }
  }

  lemma {:induction false} ScanPrefix(es: seq<Bnd.Element>, j: nat, category: string, seen: set<string>)
    requires j <= |es|
    ensures Bnd.Scan(es[..j], category, seen).0 <= Bnd.Scan(es, category, seen).0
  {
    Bnd.ScanAppend(es[..j], es[j..], category, seen);
    SplitJoin(es, j);
  }

  lemma {:induction false} GridPrefix(grid: seq<Bnd.Element>, i: nat)
    requires i <= |grid|
    ensures Bnd.Scan(Bnd.Unpartnered(grid[..i]), "", {}).0 <= Bnd.Scan(Bnd.Unpartnered(grid), "", {}).0
  {
    Bnd.UnpartneredAppend(grid[..i], grid[i..]);
    SplitJoin(grid, i);
    Bnd.ScanAppend(Bnd.Unpartnered(grid[..i]), Bnd.Unpartnered(grid[i..]), "", {});
  }

  /** The grid loop of `sync_fetch_bnd`: stops once 15 stories are read. */
  method ReadGrid(grid: seq<Bnd.Element>) returns (articles: seq<Article>, seen: set<string>)
    ensures |articles| <= MaxHeadlines
    ensures articles <= Bnd.Scan(Bnd.Unpartnered(grid), "", {}).0
    ensures |articles| < MaxHeadlines ==> (articles, seen) == Bnd.Scan(Bnd.Unpartnered(grid), "", {})
  {
    articles, seen := [], {};
    var i := 0;
    while i < |grid| && |articles| < MaxHeadlines
      invariant 0 <= i <= |grid|
      invariant |articles| <= MaxHeadlines
      invariant (articles, seen) == Bnd.Scan(Bnd.Unpartnered(grid[..i]), "", {})
    {
      GridStep(grid, i);
      if !grid[i].inPartnerDigest {
        articles, seen := Bnd.Advance((articles, seen), grid[i], "").0, Bnd.Advance((articles, seen), grid[i], "").1;
      }
      i := i + 1;
    }
    GridPrefix(grid, i);
    Whole(grid);
  }

  /** The latest-section loop of `sync_fetch_bnd`, continuing after the grid's
      `prior` stories and seen-set `seen0`. */
  method ReadLatest(latest: seq<Bnd.Element>, prior: seq<Article>, seen0: set<string>)
    returns (articles: seq<Article>)
    requires |prior| < MaxHeadlines
    ensures |articles| <= MaxHeadlines
    ensures articles <= prior + Bnd.Scan(latest, Bnd.LatestNews, seen0).0
    ensures |articles| < MaxHeadlines ==> articles == prior + Bnd.Scan(latest, Bnd.LatestNews, seen0).0
  {
    articles := prior;
    var seen := seen0;
    var j := 0;
    while j < |latest| && |articles| < MaxHeadlines
      invariant 0 <= j <= |latest|
      invariant |articles| <= MaxHeadlines
      invariant articles == prior + Bnd.Scan(latest[..j], Bnd.LatestNews, seen0).0
      invariant seen == Bnd.Scan(latest[..j], Bnd.LatestNews, seen0).1
    {
      var next := Bnd.Extract(latest[j], Bnd.LatestNews, seen);
      LatestStep(latest, j, prior, seen0, articles, seen);
      seen := next.1;
      if next.0.Some? {
        articles := articles + [next.0.value];
      }
      j := j + 1;
    }
    ScanPrefix(latest, j, Bnd.LatestNews, seen0);
    Whole(latest);
  }

  /** One step of the latest-section loop keeps its invariant. */
  lemma {:induction false} LatestStep(latest: seq<Bnd.Element>, j: nat, prior: seq<Article>, seen0: set<string>,
                   articles: seq<Article>, seen: set<string>)
    requires j < |latest|
    requires articles == prior + Bnd.Scan(latest[..j], Bnd.LatestNews, seen0).0
    requires seen == Bnd.Scan(latest[..j], Bnd.LatestNews, seen0).1
    ensures var next := Bnd.Extract(latest[j], Bnd.LatestNews, seen);
            && articles + (if next.0.Some? then [next.0.value] else []) == prior + Bnd.Scan(latest[..j + 1], Bnd.LatestNews, seen0).0
            && next.1 == Bnd.Scan(latest[..j + 1], Bnd.LatestNews, seen0).1
  {
    ScanStep(latest, j, Bnd.LatestNews, seen0);
    var acc := Bnd.Scan(latest[..j], Bnd.LatestNews, seen0);
    var next := Bnd.Extract(latest[j], Bnd.LatestNews, seen);
    var extra := if next.0.Some? then [next.0.value] else [];
    assert Bnd.Scan(latest[..j + 1], Bnd.LatestNews, seen0) == (acc.0 + extra, next.1);
    assert prior + acc.0 + extra == prior + (acc.0 + extra);
  }

  /** `sync_fetch_bnd`: the grid, then (while fewer than 15) the latest
      section, sharing one seen-set; the result is the first 15 stories of the
      standalone scraper's uncapped list, or the error text. */
  method SyncFetchBnd(fetched: Result<Bnd.Page>) returns (r: Result<seq<Article>>)
    ensures fetched.Failure? ==> r == Failure("Error fetching BND: " + fetched.error)
    ensures fetched.Success? ==> r == Success(Cap(Bnd.GetHeadlines(fetched), MaxHeadlines))
  {
    if fetched.Failure? {
      return Failure("Error fetching BND: " + fetched.error);
    }
    var page := fetched.value;
    ghost var full := Bnd.GetHeadlines(fetched);
    assert full == Bnd.GridPass(page).0 + Bnd.LatestPass(page).0;
    var articles, seen := ReadGrid(page.grid.GetOr([]));
    if |articles| < MaxHeadlines {
      articles := ReadLatest(page.latest.GetOr([]), articles, seen);
    }
    CapOfPrefix(articles, full, MaxHeadlines);
    return Success(Cap(articles, MaxHeadlines));
  }

  /** The capped list keeps the standalone scraper's guarantee: no two stories
      share a normalised link. */
  lemma {:induction false} SyncFetchBndDistinct(fetched: Result<Bnd.Page>)
    ensures Bnd.DistinctKeys(Cap(Bnd.GetHeadlines(fetched), MaxHeadlines))
  {
    Bnd.GetHeadlinesDistinct(fetched);
  }

  const StlHeader: string := "STLToday | href=https://www.stltoday.com\n"
  const BndHeader: string := "BND | href=https://www.bnd.com\n"

  /** `fetch_stltoday`: the header, then the warning or one line per story. */
  function StlSection(fetched: Result<seq<Article>>): (r: string)
    ensures StlHeader <= r
    ensures fetched.Failure? ==> r == StlHeader + WarningLine(fetched.error)
    ensures fetched.Success? ==>
              r == StlHeader + Concat(seq(|fetched.value|, i requires 0 <= i < |fetched.value| =>
                                                FormatStlHeadline(fetched.value[i])))
  {
    match fetched
    case Failure(e) => StlHeader + WarningLine(e)
    case Success(articles) =>
      StlHeader + Concat(seq(|articles|, i requires 0 <= i < |articles| => FormatStlHeadline(articles[i])))
  }

  /** `fetch_bnd`: the header, then the warning or one line per story. */
  function BndSection(fetched: Result<seq<Article>>): (r: string)
    ensures BndHeader <= r
    ensures fetched.Failure? ==> r == BndHeader + WarningLine(fetched.error)
    ensures fetched.Success? ==>
              r == BndHeader + Concat(seq(|fetched.value|, i requires 0 <= i < |fetched.value| =>
                                                FormatBndHeadline(fetched.value[i])))
  {
    match fetched
    case Failure(e) => BndHeader + WarningLine(e)
    case Success(articles) =>
      BndHeader + Concat(seq(|articles|, i requires 0 <= i < |articles| => FormatBndHeadline(articles[i])))
  }

  /** `main`: the five sections in their fixed order between the menu-bar
      symbol and the footer. The fetches run concurrently; only the order in
      which their buffers are printed is modelled. `status` is the time stamp
      line. */
  function Menu(techmeme: seq<string>, hn: seq<string>, lobsters: seq<string>,
                stl: Result<seq<Article>>, bnd: Result<seq<Article>>, status: string): (r: seq<string>)
    ensures |r| == 10 && r[2..5] == [Concat(techmeme), Concat(hn), Concat(lobsters)]
    ensures StlHeader <= r[5] && BndHeader <= r[6]
    ensures r[|r| - 1] == "Refresh | refresh=true"
  {
    ["􀤦*", "---", Concat(techmeme), Concat(hn), Concat(lobsters), StlSection(stl), BndSection(bnd),
     "---", status, "Refresh | refresh=true"]
  }
}

/** The St. Louis Post-Dispatch scraper (stl_news.6hr.py). The combined
    script daily_news_uv.2hr.py extracts cards the same way; its filtered,
    abbreviated and capped variant is in module DailyNews. */
module Stl {
  import opened Wrappers
  import opened Text
  import opened Headlines

  const StlUrl: string := "https://www.stltoday.com"

  /** Category of a block that has no title. */
  const Uncategorized: string := "Uncategorized"

  /** Summary of a card that has no lead paragraph. */
  const NoSummary: string := "No summary"

  /** Most articles the menu lists. */
  const MenuCap: nat := 90

  /** A card's headline link: its `aria-label` attribute if present, its
      stripped text, and its `href` if present. */
  datatype TitleLink = TitleLink(ariaLabel: Option<string>, text: string, href: Option<string>)

  /** One `<article>` card: its headline link and the stripped text of its
      lead paragraph, each absent when the card lacks it. */
  datatype Card = Card(title: Option<TitleLink>, lead: Option<string>)

  /** One `section.block`: the text of its title, if any, and its cards. */
  datatype Block = Block(title: Option<string>, cards: seq<Card>)

  /** A card the extraction can read: it has a headline link with an `href`.
      Any other card makes the extraction raise, which it turns into None. */
  predicate Readable(c: Card) {
    c.title.Some? && c.title.value.href.Some?
  }

  /** `STLScraper._extract_article(card, category)`. */
  function ExtractArticle(c: Card, category: string): (r: Option<Article>)
    ensures r.Some? <==> Readable(c)
    ensures r.Some? ==> r.value.category == category
    ensures r.Some? && c.title.value.ariaLabel.Some? ==> r.value.headline == c.title.value.ariaLabel.value
    ensures r.Some? && c.title.value.ariaLabel.None? ==> r.value.headline == c.title.value.text
    ensures r.Some? ==> r.value.summary == if c.lead.Some? then c.lead.value else NoSummary
    ensures r.Some? ==> r.value.link == WithFullLink(r.value.(link := c.title.value.href.value), StlUrl).link
  {
    if !Readable(c) then None
    else
      var t := c.title.value;
      var headline := if t.ariaLabel.Some? then t.ariaLabel.value else t.text;
      Some(WithFullLink(Article(headline, t.href.value, c.lead.GetOr(NoSummary), category), StlUrl))
  }

  /** The message of the exception reading an unreadable card raises: a card
      without a headline link fails on `get_text` of None, one whose link has
      no `href` on the subscript. */
  function ExtractError(c: Card): string
    requires !Readable(c)
  {
    if c.title.None? then "'NoneType' object has no attribute 'get_text'" else "'href'"
  }

  /** What `_extract_article` prints: nothing for a readable card, the red
      error line for any other. */
  function ExtractLog(c: Card): (r: seq<string>)
    ensures |r| <= 1
  {
    if Readable(c) then [] else ["Error extracting article: " + ExtractError(c) + " | color=red"]
  }

  /** Every card gives exactly one of an article and an error line. */
  lemma {:induction false} ExtractOneOf(c: Card, category: string)
    ensures ExtractArticle(c, category).Some? <==> ExtractLog(c) == []
    ensures ExtractArticle(c, category).None? <==> |ExtractLog(c)| == 1
  {
  }

  /** The error lines of a block's cards, in card order. */
  function CardsLog(cards: seq<Card>): (r: seq<string>)
    decreases |cards|
  {
    if |cards| == 0 then [] else CardsLog(cards[..|cards| - 1]) + ExtractLog(cards[|cards| - 1])
  }

  /** The articles of a block's cards, in card order. */
  function BlockArticles(cards: seq<Card>, category: string): (r: seq<Article>)
    ensures |r| <= |cards|
    decreases |cards|
  {
    if |cards| == 0 then []
    else
      var last := ExtractArticle(cards[|cards| - 1], category);
      BlockArticles(cards[..|cards| - 1], category) + (if last.Some? then [last.value] else [])
  }

  /** Every article carries the block's category, every readable card gives
      its article, and a block of readable cards loses none. */
  lemma {:induction false} BlockArticlesMembers(cards: seq<Card>, category: string)
    ensures forall a :: a in BlockArticles(cards, category) ==> a.category == category
    ensures forall c :: c in cards && Readable(c) ==> ExtractArticle(c, category).value in BlockArticles(cards, category)
    ensures forall a :: a in BlockArticles(cards, category) ==> exists c :: c in cards && ExtractArticle(c, category) == Some(a)
    ensures (forall c :: c in cards ==> Readable(c)) ==> |BlockArticles(cards, category)| == |cards|
    decreases |cards|
  {
    if |cards| > 0 {
      var init := cards[..|cards| - 1];
      var last := cards[|cards| - 1];
      BlockArticlesMembers(init, category);
      assert cards == init + [last];
      forall a | a in BlockArticles(cards, category) ensures exists c :: c in cards && ExtractArticle(c, category) == Some(a) {
        if a in BlockArticles(init, category) {
          var c :| c in init && ExtractArticle(c, category) == Some(a);
          assert c in cards;
        } else {
          assert ExtractArticle(last, category) == Some(a);
        }
      }
    }
  }

  lemma {:induction false} BlockArticlesAppend(xs: seq<Card>, ys: seq<Card>, category: string)
    ensures BlockArticles(xs + ys, category) == BlockArticles(xs, category) + BlockArticles(ys, category)
    decreases |ys|
  {
    if |ys| == 0 {
      assert xs + ys == xs;
    } else {
      var ys' := ys[..|ys| - 1];
      assert (xs + ys)[..|xs + ys| - 1] == xs + ys';
      assert (xs + ys)[|xs + ys| - 1] == ys[|ys| - 1];
      BlockArticlesAppend(xs, ys', category);
    }
  }

  /** A block's category: its title, or `Uncategorized`. */
  function BlockCategory(b: Block): (r: string)
    ensures b.title.None? ==> r == Uncategorized
    ensures b.title.Some? ==> r == b.title.value
  {
    b.title.GetOr(Uncategorized)
  }

  /** The articles of all blocks, block by block, with no deduplication. */
  function AllArticles(blocks: seq<Block>): (r: seq<Article>)
    decreases |blocks|
  {
    if |blocks| == 0 then []
    else
      var b := blocks[|blocks| - 1];
      AllArticles(blocks[..|blocks| - 1]) + BlockArticles(b.cards, BlockCategory(b))
  }

  /** The listed articles are exactly the articles of the readable cards,
      each under its own block's category. */
  lemma {:induction false} AllArticlesMembers(blocks: seq<Block>)
    ensures forall a :: a in AllArticles(blocks) <==>
              exists b, c :: b in blocks && c in b.cards && ExtractArticle(c, BlockCategory(b)) == Some(a)
    decreases |blocks|
  {
    if |blocks| > 0 {
      var init := blocks[..|blocks| - 1];
      var last := blocks[|blocks| - 1];
      AllArticlesMembers(init);
      BlockArticlesMembers(last.cards, BlockCategory(last));
      assert blocks == init + [last];
      forall a | a in AllArticles(blocks)
        ensures exists b, c :: b in blocks && c in b.cards && ExtractArticle(c, BlockCategory(b)) == Some(a)
      {
        if a in AllArticles(init) {
          var b, c :| b in init && c in b.cards && ExtractArticle(c, BlockCategory(b)) == Some(a);
          assert b in blocks;
        } else {
          var c :| c in last.cards && ExtractArticle(c, BlockCategory(last)) == Some(a);
          assert last in blocks;
        }
      }
      forall a | exists b, c :: b in blocks && c in b.cards && ExtractArticle(c, BlockCategory(b)) == Some(a)
        ensures a in AllArticles(blocks)
      {
        var b, c :| b in blocks && c in b.cards && ExtractArticle(c, BlockCategory(b)) == Some(a);
        if b in init {
          assert a in AllArticles(init);
        } else {
          assert b == last;
          assert a in BlockArticles(last.cards, BlockCategory(last));
        }
      }
    }
  }

  /** The error lines of all blocks, block by block. */
  function AllLog(blocks: seq<Block>): (r: seq<string>)
    decreases |blocks|
  {
    if |blocks| == 0 then [] else AllLog(blocks[..|blocks| - 1]) + CardsLog(blocks[|blocks| - 1].cards)
  }

  /** The line printed for a failed fetch. */
  function FetchError(e: string): string {
    "Error fetching STLToday: " + e + " | color=red"
  }

  /** `STLScraper.get_headlines`: the error lines it prints, and the articles.
      A failed fetch prints its error and gives no articles; otherwise each
      unreadable card prints its error and each readable card gives its
      article, in page order. */
  function GetHeadlines(fetched: Result<seq<Block>>): (r: (seq<string>, seq<Article>))
    ensures fetched.Failure? ==> r == ([FetchError(fetched.error)], [])
    ensures fetched.Success? ==> |r.1| == ReadableCount(fetched.value)
    ensures fetched.Success? ==> |r.0| + |r.1| == CardCount(fetched.value)
    ensures fetched.Success? ==> forall a :: a in r.1 <==>
              exists b, c :: b in fetched.value && c in b.cards && ExtractArticle(c, BlockCategory(b)) == Some(a)
  {
    match fetched
    case Failure(e) => ([FetchError(e)], [])
    case Success(blocks) =>
      EveryReadableCardListed(blocks);
      EveryCardAccounted(blocks);
      AllArticlesMembers(blocks);
      (AllLog(blocks), AllArticles(blocks))
  }

  /** The number of cards in all blocks. */
  function CardCount(blocks: seq<Block>): nat
    decreases |blocks|
  {
    if |blocks| == 0 then 0 else CardCount(blocks[..|blocks| - 1]) + |blocks[|blocks| - 1].cards|
  }

  /** The number of readable cards. */
  function ReadableCards(cards: seq<Card>): nat
    decreases |cards|
  {
    if |cards| == 0 then 0
    else ReadableCards(cards[..|cards| - 1]) + (if Readable(cards[|cards| - 1]) then 1 else 0)
  }

  /** The number of readable cards in all blocks. */
  function ReadableCount(blocks: seq<Block>): nat
    decreases |blocks|
  {
    if |blocks| == 0 then 0
    else ReadableCount(blocks[..|blocks| - 1]) + ReadableCards(blocks[|blocks| - 1].cards)
  }

  lemma {:induction false} BlockArticlesCount(cards: seq<Card>, category: string)
    ensures |BlockArticles(cards, category)| == ReadableCards(cards)
    decreases |cards|
  {
    if |cards| > 0 {
      BlockArticlesCount(cards[..|cards| - 1], category);
    }
  }

  /** Nothing is deduplicated: one article per readable card, so two cards
      with the same link both appear. */
  lemma {:induction false} EveryReadableCardListed(blocks: seq<Block>)
    ensures |AllArticles(blocks)| == ReadableCount(blocks)
    decreases |blocks|
  {
    if |blocks| > 0 {
      var b := blocks[|blocks| - 1];
      EveryReadableCardListed(blocks[..|blocks| - 1]);
      BlockArticlesCount(b.cards, BlockCategory(b));
    }
  }

  lemma {:induction false} CardsLogCount(cards: seq<Card>)
    ensures |CardsLog(cards)| + ReadableCards(cards) == |cards|
    decreases |cards|
  {
    if |cards| > 0 {
      CardsLogCount(cards[..|cards| - 1]);
    }
  }

  /** Every card is accounted for: it prints an error line or gives an
      article. */
  lemma {:induction false} EveryCardAccounted(blocks: seq<Block>)
    ensures |AllLog(blocks)| + ReadableCount(blocks) == CardCount(blocks)
    decreases |blocks|
  {
    if |blocks| > 0 {
      EveryCardAccounted(blocks[..|blocks| - 1]);
      CardsLogCount(blocks[|blocks| - 1].cards);
    }
  }

  lemma {:induction false} AllArticlesAppend(xs: seq<Block>, ys: seq<Block>)
    ensures AllArticles(xs + ys) == AllArticles(xs) + AllArticles(ys)
    decreases |ys|
  {
    if |ys| == 0 {
      assert xs + ys == xs;
    } else {
      var ys' := ys[..|ys| - 1];
      assert (xs + ys)[..|xs + ys| - 1] == xs + ys';
      var b := ys[|ys| - 1];
      assert (xs + ys)[|xs + ys| - 1] == b;
      AllArticlesAppend(xs, ys');
      var tail := BlockArticles(b.cards, BlockCategory(b));
      assert AllArticles(xs + ys) == AllArticles(xs + ys') + tail;
      assert AllArticles(ys) == AllArticles(ys') + tail;
      assert AllArticles(xs) + AllArticles(ys') + tail == AllArticles(xs) + (AllArticles(ys') + tail);
    }
  }

  /** A block without a title lists its articles under `Uncategorized`, and
      the articles of the blocks come in block order. */
  lemma {:induction false} UntitledBlock(blocks: seq<Block>, b: Block)
    requires b.title.None?
    ensures AllArticles(blocks + [b]) == AllArticles(blocks) + BlockArticles(b.cards, Uncategorized)
    ensures forall a :: a in AllArticles(blocks + [b])[|AllArticles(blocks)|..] ==> a.category == Uncategorized
  {
    AppendInit(blocks, [b]);
    BlockArticlesMembers(b.cards, Uncategorized);
  }

  /** The text shown for an article before the width rule. */
  function Display(a: Article): string {
    "[" + a.category + "] " + a.headline
  }

  /** `format_menu_item(article)`: the bracketed category always leads, the
      shown text is at most 75 long, and the tooltip is the summary. */
  function FormatMenuItem(a: Article): (r: string)
    ensures FitMenu(Display(a)) + " | href=" + a.link + " " <= r
    ensures Contains(r, "tooltip=\"" + a.summary + "\"")
  {
    var head := FitMenu(Display(a)) + " | href=" + a.link + " ";
    var tip := "tooltip=\"" + a.summary + "\"";
    ContainsMiddle(head, tip, "");
    assert head + tip + "" == head + tip;
    head + tip
  }

  /** The bracketed category survives the width rule whenever it fits within
      the 72 characters kept. */
  lemma {:induction false} CategoryAlwaysShown(a: Article)
    requires |a.category| + 3 <= MenuWidth - 3
    ensures "[" + a.category + "] " <= FitMenu(Display(a))
    ensures |FitMenu(Display(a))| <= MenuWidth
  {
    var p := "[" + a.category + "] ";
    var d := Display(a);
    assert d[..|p|] == p;
    if |d| > MenuWidth {
      assert FitMenu(d)[..MenuWidth - 3] == d[..MenuWidth - 3];
      assert FitMenu(d)[..|p|] == d[..MenuWidth - 3][..|p|];
    }
  }

  function MenuItems(articles: seq<Article>): (r: seq<string>)
    ensures |r| == |articles|
    ensures forall i :: 0 <= i < |articles| ==> r[i] == FormatMenuItem(articles[i])
  {
    if |articles| == 0 then [] else [FormatMenuItem(articles[0])] + MenuItems(articles[1..])
  }

  /** The menu `main` prints for the articles `get_headlines` returned; at
      most the first 90 are listed. */
  function Listing(articles: seq<Article>, updatedAt: string): (r: seq<string>)
    ensures |r| >= 5 && r[..2] == ["STL", "---"]
    ensures articles == [] ==> |r| == 5
    ensures articles != [] ==> |r| == |Cap(articles, MenuCap)| + 6
    ensures articles != [] ==>
              forall i :: 0 <= i < |r| - 6 ==> i < MenuCap && r[i + 2] == FormatMenuItem(articles[i])
  {
    if articles == [] then
      ["STL", "---", "No headlines found. | color=red", "---", "Visit STLToday | href=" + StlUrl]
    else
      ["STL", "---"] + MenuItems(Cap(articles, MenuCap))
      + ["---", "Last Updated: " + updatedAt + " | color=gray", "Visit STLToday | href=" + StlUrl,
         "Refresh | refresh=true"]
  }

  /** `main`: what `get_headlines` printed comes first, then the menu. */
  function Menu(fetched: Result<seq<Block>>, updatedAt: string): (r: seq<string>)
    ensures var (log, articles) := GetHeadlines(fetched);
      |r| == |log| + |Listing(articles, updatedAt)| && r[..|log|] == log && r[|log|..][..2] == ["STL", "---"]
    ensures fetched.Failure? ==>
              r == [FetchError(fetched.error), "STL", "---", "No headlines found. | color=red", "---",
                    "Visit STLToday | href=" + StlUrl]
  {
    var (log, articles) := GetHeadlines(fetched);
    var r := log + Listing(articles, updatedAt);
    assert r[|log|..] == Listing(articles, updatedAt);
    r
  }
}

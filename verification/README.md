# SwiftBar news and deals plugins, modelled in Dafny

This project models the core of a collection of SwiftBar menu-bar plugins. Each plugin
is a short script that fetches a web page or a feed and prints a menu. Every line it prints
is one menu entry. `---` separates entries, a leading `--` nests an entry in a submenu, and
`| href=… tooltip=… color=…` sets the entry's parameters.

The model covers fourteen plugins:

- **News menus.**
  - `daily_news_uv.2hr.py` is the combined daily news menu: Techmeme, Hacker News,
    Lobste.rs, STLToday and the Belleville News-Democrat.
  - `tech_news_uv.3hr.py` is the technology-only menu.
  - `lobsters.120m.py` shows Lobste.rs.
  - `stl_news.6hr.py` shows STLToday.
  - `bnd.12h.py` shows the BND.
  - `news.6hr.py` shows Scott AFB, Daring Fireball, Apple Newsroom and Michael Kennedy.
  - `cprt.1d.py` shows a forum RSS feed.
- **Deals and prices.**
  - `microcenter_deals_uv.6hr.py` shows Micro Center deals.
  - `wish-list.6hr.py` shows wish-list price checks.
  - `aafees-deals.1d.py` and `aafesDeals.js` show Exchange (AAFES) deals.
  - `steamDeals.60m.js` shows Steam Mac deals.
- **Basketball.** `bball.py` and `bball.1d.py` show a basketball schedule.

## How the scripts are modelled

- **Pages and feeds.** Each fetched page or feed is an input datatype holding what the
  script reads from it. Where an element the script reads can be missing, the field is an
  `Option`, and `None` is the missing element. A nested `Option` separates a missing
  element from a missing attribute of a present one. A failed fetch or page load is
  `Failure(message)`. Elements the model takes as always present are listed under
  "## Left out".
- **Pure steps.** Every parsing, cleaning, deduplicating, sorting and formatting step is a
  pure function. Its contract says what the step promises.
- **Crashes.** An exception that escapes to the top level ends the script. A script that
  prints as it goes is modelled as `Output(lines, crash)`: the lines printed before the
  crash, and the error that ended it.
- **Clocks and number rendering.** Clock readings, and the rendering of floats
  (`:.2f`, `:.0f`), are parameters.

Shared pieces live in their own modules:

- `Wrappers`: `Option` and `Result`.
- `Text`: Python and JavaScript string operations.
- `Prices`: what `float` accepts for a text of digits and dots.
- `Dates`: the calendar, and `strptime`/`strftime` for the directives the scripts use.
- `Sorting`: a stable sort, standing for Python's `sorted`/`list.sort` and JavaScript's
  `Array.prototype.sort`.
- `Headlines`: the article record, link completion, headline formatting and the
  output/printing model.

Two scripts follow the code where the code and a plain reading of the script differ:

- In `cprt.1d.py` a title of blanks becomes the empty title, not `Untitled Post`: the
  emptiness test comes before the strip.
- In `bball.1d.py` the date `02/29` is rejected in every year: `strptime('%m/%d')` fills
  in the year 1900 before the year is replaced.

## Model

| member | source | states |
|---|---|---|
| `Text.Strip` | cprt.1d.py:63-64 | `str.strip()`: the result is a contiguous slice of the input with only whitespace outside it and no whitespace at either of its ends; a string without whitespace at its ends comes back unchanged |
| `Text.CleanText` | bnd.12h.py:121-123 | `re.sub(r'\s+', ' ', t).strip()` yields clean text, with single spaces only and no space at either end, and keeps every non-whitespace character in order |
| `Text.CleanTextIdempotent` | daily_news_uv.2hr.py:331-333 | cleaning BND text twice is cleaning it once |
| `Text.CleanTextFixesClean` | daily_news_uv.2hr.py:331-333 | text that is already clean is left unchanged by `clean_text` |
| `Text.IndexOf` | aafesDeals.js:168-173 | the first occurrence: the text occurs at the position returned, nowhere before it, and nowhere at all when none is returned |
| `Text.ReplaceFirst` | aafesDeals.js:172 | JavaScript `replace` with a string pattern changes nothing when the pattern is absent, and otherwise replaces its first occurrence, keeping the text before and after it |
| `Text.SecondField` | aafees-deals.1d.py:21-22 | `split(sep)[1]` exists exactly when the separator occurs; it is the text after the first separator up to the next one, and contains no separator |
| `Text.CutAt` | steamDeals.60m.js:60-62 | `split(c)[0]` is the longest prefix without `c`, and is followed by `c` when it is shorter than the text |
| `Text.ReplaceAllChar` | daily_news_uv.2hr.py:331-333 | Python's `replace` with one-character arguments is the character-by-character substitution |
| `Text.DropCharsTwice` | steamDeals.60m.js:75-80 | removing two character sets one after the other removes their union |
| `Text.LexTrichotomy` | steamDeals.60m.js:108-116 | JavaScript string `<` is a strict total order: exactly one of `a < b`, `a == b`, `b < a` holds |
| `Text.LexTransitive` | steamDeals.60m.js:108-116 | JavaScript string `<` is transitive |
| `Text.NatToString` | cprt.1d.py:206 | `str(n)` has no leading zero and denotes `n` |
| `Prices.FloatOfDigits` | microcenter_deals_uv.6hr.py:84-88 | `float` of a digits-and-dots text succeeds exactly when there is a digit and at most one dot, and then gives a non-negative number |
| `Prices.DecimalOfCents` | microcenter_deals_uv.6hr.py:79-88 | the text `d.cc` reads back as d + c/100 |
| `Sorting.SortDescending` | microcenter_deals_uv.6hr.py:192-199 | the sort returns a permutation of its input |
| `Sorting.SortDescendingSorted` | cprt.1d.py:189 | with a total preorder as the comparison, larger keys come first |
| `Sorting.SortDescendingStable` | cprt.1d.py:189 | elements with equal keys keep their input order, as Python's sort guarantees |
| `Sorting.SortAgree` | steamDeals.60m.js:108-116 | two comparisons that agree on the input's elements give the same order |
| `Dates.Strptime` | news.6hr.py:15-19 | a successful parse gives a valid calendar date and a valid time of day |
| `Dates.MatchRender` | news.6hr.py:22-26 | `strptime` with a format reads back the fields `strftime` wrote with it |
| `Dates.PaddedVersusUnpadded` | news.6hr.py:15-19 | `%m/%d/%y` is always eight characters; `%-m/%-d/%y` drops exactly the leading zeros, so the two differ exactly when the month or the day is below 10 |
| `Dates.OverlayFields` | bball.1d.py:68-69 | a format sets the year, month and day only when it has a directive for them; the others keep the defaults |
| `Headlines.WithFullLink` | daily_news_uv.2hr.py:84-87 | a link starting with `http` is kept, any other gets the base URL in front, and nothing else of the article changes |
| `Headlines.WithFullLinkIdempotent` | stl_news.6hr.py:24-27 | with an absolute base the completed link is absolute, and completing it again changes nothing |
| `Headlines.TagPrefix` | tech_news_uv.3hr.py:54-58 | the `[t1, t2] ` prefix is empty exactly when there are no tags |
| `Headlines.TrimTitle` | tech_news_uv.3hr.py:57 | a title over 80 characters keeps its first 80 and gains one `…` |
| `Headlines.FormatHeadline` | tech_news_uv.3hr.py:54-58 | the line is `--`, the tag prefix, the trimmed title and the link; the tooltip holds the full title; the line ends in a newline |
| `Headlines.TrimSparesPrefix` | tech_news_uv.3hr.py:54-58 | trimming never cuts into the submenu marker or the tag prefix |
| `Headlines.FitMenu` | stl_news.6hr.py:101-106 | the shown text is at most 75 characters, and a longer text keeps its first 72 and ends in `...` |
| `Headlines.Cap` | stl_news.6hr.py:121 | `xs[:n]` is a prefix of at most `n` elements, and all of a short list |
| `Headlines.FilterMapMembers` | tech_news_uv.3hr.py:71-77 | a loop that skips elements whose reading raises keeps exactly the results of the readable elements |
| `Headlines.TraverseAll` | news.6hr.py:67-76 | a loop with no handler succeeds exactly when every element does, giving their results in order; otherwise it fails with the error of the first failing element |
| `Headlines.PrintEachAll` | news.6hr.py:131-132 | when every line can be made, each element prints its line, in order |
| `Headlines.PrintEachStops` | news.6hr.py:131-132 | the first element whose line raises ends the script: the lines before it are printed, then the error |
| `Headlines.PrintBlocksUpTo` | wish-list.6hr.py:81-89 | printing blocks of lines in turn prints the blocks before the first one that raises, in order, and ends with its error |
| `TechNews.TechmemeShape` | tech_news_uv.3hr.py:61-77 | a failed fetch is only the error line, with no header; otherwise the header, and each linked story of the first 15 has its line and no other line appears |
| `TechNews.Hn` | tech_news_uv.3hr.py:80-95 | the Hacker News header is always written; a failed id fetch adds only the warning |
| `TechNews.HnStoriesAllFetched` | tech_news_uv.3hr.py:90-93 | when every story fetch succeeds, there is one line per id, in id order, with `Untitled` for a story without a title |
| `TechNews.HnStoriesStopAtFailure` | tech_news_uv.3hr.py:90-95 | a failed story fetch ends the section: the lines of the earlier ids, then the warning, and nothing of the later ids |
| `TechNews.LobstersShape` | tech_news_uv.3hr.py:98-119 | a failed fetch is only the error line; otherwise the header, and exactly the linked stories of the first 15 |
| `TechNews.LobstersIgnoresLater` | tech_news_uv.3hr.py:106 | the stories after the 15th never reach the menu |
| `TechNews.Menu` | tech_news_uv.3hr.py:122-143 | the menu prints the three section buffers in order, then the footer ending in `Refresh` |
| `LobstersMenu.DisplayTitle` | lobsters.120m.py:44 | a title over 80 characters keeps its first 80 and gains `...` |
| `LobstersMenu.TagText` | lobsters.120m.py:40 | the tooltip's tags are the comma-separated list in brackets, or `No tags` exactly when there are none |
| `LobstersMenu.EveryTagInTooltip` | lobsters.120m.py:40 | every tag of the story appears in the tooltip |
| `LobstersMenu.FormatStory` | lobsters.120m.py:36-46 | the line is the first tag, the shown title and the link; the tooltip holds the full title and all the tags |
| `LobstersMenu.FirstTagShown` | lobsters.120m.py:39-44 | a long title is cut after the first tag, never into it |
| `LobstersMenu.StoryHeadline` | lobsters.120m.py:42-43 | formatting a story with a link element succeeds exactly when the link has an `href`; otherwise the KeyError escapes |
| `LobstersMenu.WithLink` | lobsters.120m.py:29-33 | the stories formatted are exactly those with a link element |
| `LobstersMenu.FormatAll` | lobsters.120m.py:29-33 | formatting succeeds exactly when every link has an `href`, giving one headline per story, in order |
| `LobstersMenu.FetchHeadlinesShape` | lobsters.120m.py:19-33 | with every `href` present, one headline per linked story among the first 15, never more than 15 |
| `LobstersMenu.Menu` | lobsters.120m.py:49-58 | the headlines sit between the menu header and the footer, unchanged |
| `Bnd.NormalizeLink` | bnd.12h.py:86-95 | the normalised link is absolute and has no fragment |
| `Bnd.NormalizeLinkIdempotent` | bnd.12h.py:86-95 | normalising twice is normalising once |
| `Bnd.NormalizeLinkFixesNormal` | bnd.12h.py:86-95 | an absolute link without a fragment is its own normal form |
| `Bnd.NormalizeCompletedLink` | bnd.12h.py:29-33 | completing a link does not change the key it is deduplicated by |
| `Bnd.Extract` | bnd.12h.py:97-119 | an element gives an article exactly when it has a non-empty `href` whose key is unseen; the article's key is that normalised `href` and is then recorded, its headline is the heading text with whitespace collapsed and trimmed, its link is the completed `href`, and its category is the explicit one or the kicker |
| `Bnd.CategoryOf` | bnd.12h.py:111-113 | an explicit category wins; otherwise the kicker's text with whitespace collapsed and trimmed, or the empty category when there is no kicker |
| `Bnd.ScanKeys` | bnd.12h.py:97-119 | first seen wins: a pass records every key it emits, emits no key it was given, and never emits one key twice |
| `Bnd.ScanKeepsFirst` | bnd.12h.py:97-119 | nothing is missed: an element with a non-empty link whose key was neither given nor carried by an earlier element yields an article with that key, its cleaned heading and its category |
| `Bnd.UnpartneredMembers` | bnd.12h.py:136-140 | the grid keeps exactly the articles outside partner-digest groups |
| `Bnd.GetHeadlinesDistinct` | bnd.12h.py:125-156 | grid and latest section share one seen-set, so no two headlines share a key |
| `Bnd.GetHeadlines` | bnd.12h.py:125-156 | the grid pass's articles come first, and after them the whole latest-section pass, uncapped and labelled `Latest News`; a failed fetch gives none |
| `Bnd.LatestCategory` | bnd.12h.py:143-146 | every latest-section article is labelled `Latest News` |
| `Bnd.Label` | bnd.12h.py:35-45 | a category in the abbreviation table shows its abbreviation, any other shows itself in brackets |
| `Bnd.FormatMenuItem` | bnd.12h.py:158-171 | the line is the fitted display text and the link; the tooltip holds the full category and headline |
| `Bnd.ShownText` | bnd.12h.py:158-171 | the shown text is at most 75 long, and keeps the label and the headline up to that width |
| `Bnd.PrintedHeadlines` | bnd.12h.py:125-156 | a fetched page prints nothing and gives its headlines; a caught timeout, request error or other exception prints one red line and gives no articles |
| `Bnd.Listing` | bnd.12h.py:173-192 | no articles gives the three-line menu; otherwise one line per article, in order, between the header and the footer |
| `Bnd.Menu` | bnd.12h.py:150-181 | the line printed for a caught exception comes before the menu, so a failed fetch shows that line and then the three-line menu |
| `Stl.ExtractArticle` | stl_news.6hr.py:54-74 | a card gives an article exactly when its headline link has an `href`; the headline is the aria-label, else the link text; the summary is the lead, else the placeholder |
| `Stl.ExtractOneOf` | stl_news.6hr.py:54-74 | every card gives exactly one of an article and a red error line |
| `Stl.BlockArticlesMembers` | stl_news.6hr.py:84-94 | every article carries its block's category, every readable card gives its article, and every article comes from a card of the block |
| `Stl.AllArticlesMembers` | stl_news.6hr.py:83-96 | the articles are exactly those of the readable cards, each under its own block's category |
| `Stl.EveryCardAccounted` | stl_news.6hr.py:72-74 | the error lines and the articles together number the cards |
| `Stl.EveryReadableCardListed` | stl_news.6hr.py:76-99 | nothing is deduplicated: one article per readable card |
| `Stl.UntitledBlock` | stl_news.6hr.py:85-86 | a block without a title lists its articles under `Uncategorized`, after the earlier blocks' articles |
| `Stl.GetHeadlines` | stl_news.6hr.py:76-99 | a failed fetch prints its red error and gives no articles; otherwise one article per readable card, exactly the readable cards' articles, and one error line for each other card |
| `Stl.FormatMenuItem` | stl_news.6hr.py:101-106 | the bracketed category and headline, fitted to 75 characters, then the link; the tooltip is the summary |
| `Stl.CategoryAlwaysShown` | stl_news.6hr.py:101-106 | a short enough category survives the width rule |
| `Stl.Listing` | stl_news.6hr.py:112-127 | at most the first 90 articles are listed, in order, between the header and the footer; without articles, the no-headlines message |
| `Stl.Menu` | stl_news.6hr.py:108-119 | the error lines printed while fetching come before the `STL` header; a failed fetch gives its error line and then the no-headlines menu |
| `DailyNews.StlAllSkipsExcluded` | daily_news_uv.2hr.py:252-256 | no listed STL story carries an excluded category |
| `DailyNews.StlAllIsStandaloneRelabelled` | daily_news_uv.2hr.py:239-291 | before the cap, the combined STL list is the standalone scraper's list for the kept blocks, with titles abbreviated |
| `DailyNews.ReadBlock` | daily_news_uv.2hr.py:279-288 | the card loop never holds more than 15 stories, and below 15 it has read every readable card of the block |
| `DailyNews.SyncFetchStl` | daily_news_uv.2hr.py:239-291 | the STL section is the first 15 stories of the kept blocks, or the error text of a failed fetch |
| `DailyNews.FormatStlHeadline` | daily_news_uv.2hr.py:147-153 | the combined menu's STL line is the standalone menu item, nested as a submenu line |
| `DailyNews.FormatBndHeadline` | daily_news_uv.2hr.py:156-169 | the combined menu's BND line is the standalone menu item, nested as a submenu line |
| `DailyNews.ReadGrid` | daily_news_uv.2hr.py:360-366 | the grid loop stops at 15 stories; below 15 it equals the standalone grid pass, seen-set included |
| `DailyNews.ReadLatest` | daily_news_uv.2hr.py:369-375 | the latest loop continues from the grid's stories and seen-set, and stops at 15 |
| `DailyNews.SyncFetchBnd` | daily_news_uv.2hr.py:307-393 | the BND section is the first 15 of the standalone scraper's list, or the error text of a failed fetch |
| `DailyNews.SyncFetchBndDistinct` | daily_news_uv.2hr.py:377-380 | the capped BND list still has no two stories with the same normalised link |
| `DailyNews.Menu` | daily_news_uv.2hr.py:396-421 | the five sections are printed in order, STL before BND, and the footer ends in `Refresh` |
| `Microcenter.ParsePrice` | microcenter_deals_uv.6hr.py:79-88 | no price for empty text, or exactly when the digits and dots left are not a number; otherwise the number they denote |
| `Microcenter.ParsePriceDollars` | microcenter_deals_uv.6hr.py:79-88 | `$d.cc` parses to d + c/100 |
| `Microcenter.SearchMoneyFirst` | microcenter_deals_uv.6hr.py:139 | `re.search` finds the greedy match at the first `$` followed by a digit or comma, and nothing when there is none |
| `Microcenter.MatchParses` | microcenter_deals_uv.6hr.py:139-141 | a match parses exactly when it holds a digit; a match of commas only does not |
| `Microcenter.SavingsWin` | microcenter_deals_uv.6hr.py:135-146 | found savings fix the original price at current plus savings, and the original-price text is then ignored |
| `Microcenter.OriginalGivesSavings` | microcenter_deals_uv.6hr.py:144-151 | without savings, a non-zero original price gives savings of original minus current |
| `Microcenter.DiscountPercentage` | microcenter_deals_uv.6hr.py:46-51 | a percentage exists exactly for a positive original price, and is (original - current) / original * 100 |
| `Microcenter.Color` | microcenter_deals_uv.6hr.py:53-63 | green from 20%, blue from 10% up to 20%, and no colour otherwise |
| `Microcenter.CleanUrl` | microcenter_deals_uv.6hr.py:117-122 | a sign-in redirect becomes the product page, a relative link gets the site prefix, and every non-empty result is absolute |
| `Microcenter.ReadLink` | microcenter_deals_uv.6hr.py:104-169 | a deal keeps its link's SKU, has a positive price, a non-empty name of at most 100 characters and an absolute URL; a link missing any of these is skipped |
| `Microcenter.ParseDealsFacts` | microcenter_deals_uv.6hr.py:91-175 | deals have distinct SKUs; each is the deal of the first link with its SKU; no such deal is missed |
| `Microcenter.InvalidFirstHidesSku` | microcenter_deals_uv.6hr.py:105-126 | an unusable first link hides every later link with the same SKU, because the SKU is marked seen first |
| `Microcenter.SortDealsOrdered` | microcenter_deals_uv.6hr.py:192-199 | the sort is a permutation, puts larger (discount percentage, savings) keys first, and keeps page order among equal keys |
| `Microcenter.DisplayName` | microcenter_deals_uv.6hr.py:220 | a name over 60 characters keeps its first 60 and gains `...` |
| `Microcenter.FormatOutput` | microcenter_deals_uv.6hr.py:178-241 | no deals gives the empty menu; otherwise the header with the count of all deals, then the lines of each deal in sorted order, then the footer |
| `Microcenter.EveryDealListed` | microcenter_deals_uv.6hr.py:207-237 | every deal's SKU line is in the menu |
| `WishList.MakeProduct` | wish-list.6hr.py:10-22 | a product with a positive MSRP is created; a non-positive MSRP is rejected |
| `WishList.SelectorHasFilter` | wish-list.6hr.py:47-49 | the variant filter is appended exactly when a variant id is set |
| `WishList.PriceText` | wish-list.6hr.py:52-54 | the text handed to `float` has no `$` and no `,` |
| `WishList.PyFloat` | wish-list.6hr.py:52-54 | on digits and dots, `float` succeeds exactly when there is a digit and at most one dot, and gives the number denoted |
| `WishList.GetPrice` | wish-list.6hr.py:41-60 | a fetch error gives only the red warning; a missing element gives only the not-found line; a found element gives no line and the price `float` reads from its cleaned text, or raises when `float` rejects it |
| `WishList.GetPriceDollars` | wish-list.6hr.py:52-54 | a price element reading `$d.cc` gives d + c/100 |
| `WishList.PriceChange` | wish-list.6hr.py:63-73 | green exactly below the MSRP, red exactly above it, blue exactly at it; an MSRP of 0 with a different price divides by zero |
| `WishList.PercentShownPositive` | wish-list.6hr.py:63-73 | the printed percentage is positive on both sides of a positive MSRP |
| `WishList.ProductChangeDefined` | wish-list.6hr.py:63-73 | a validated product's comparison never divides by zero |
| `WishList.ReportShape` | wish-list.6hr.py:76-89 | a product shows its five-line block exactly when a price was read, and only the one warning otherwise |
| `WishList.Menu` | wish-list.6hr.py:76-89 | the menu starts with the icon, the separator and the update time |
| `WishList.MenuUpTo` | wish-list.6hr.py:76-89 | up to the first product whose report raises, the script prints the header and each product's report in order, then ends with that error; it ends normally when none raises |
| `AafesSales.ParsePrice` | aafees-deals.1d.py:21-22 | the price is the stripped text after the first `:`; text without a `:` raises |
| `AafesSales.ParsePriceLabelled` | aafees-deals.1d.py:21-22 | `tag:value` gives the stripped value |
| `AafesSales.CompleteLink` | aafees-deals.1d.py:52-54 | a link not starting with `http` gets the site prefix, and the result is always absolute |
| `AafesSales.CompleteLinkIdempotent` | aafees-deals.1d.py:52-54 | completing a completed link changes nothing |
| `AafesSales.ItemDefaults` | aafees-deals.1d.py:36-56 | a missing sale price or discount shows as `N/A`, and the link is always absolute |
| `AafesSales.ScrapeAll` | aafees-deals.1d.py:25-56 | when every item is readable, the script prints each item's line, in page order, and ends normally |
| `AafesSales.ScrapeStops` | aafees-deals.1d.py:25-56 | the first unreadable item ends the script with its error, after exactly the lines of the items before it |
| `Cprt.EntryTitle` | cprt.1d.py:63 | an empty title becomes `Untitled Post`, any other is stripped |
| `Cprt.BlankTitleStaysEmpty` | cprt.1d.py:63 | a title of blanks becomes the empty title, not the default |
| `Cprt.MissingTitleIsUntitled` | cprt.1d.py:147 | an item without a title yields an entry titled `Untitled Post` |
| `Cprt.EntryDate` | cprt.1d.py:76-88 | no date gives no instant; otherwise the zoned parse if it succeeds, else the unzoned one |
| `Cprt.MakeEntry` | cprt.1d.py:59-88 | the entry's title, url, content, date, id and category follow the constructor's rules |
| `Cprt.Classify` | cprt.1d.py:171-177 | `File` exactly for `/files/file/` links, `Profile` for other `/contact-list/` links, `Post` otherwise |
| `Cprt.ItemContent` | cprt.1d.py:152-159 | description wins over summary, which wins over the first content value; a present field wins even when empty |
| `Cprt.ReadItem` | cprt.1d.py:144-181 | an item's entry has the classified category, the title rule, the `id`-then-`guid` id and the `published`-then-`pubdate` date |
| `Cprt.ParseFeedOrdered` | cprt.1d.py:127-190 | the entries are a permutation of the items' entries, newest first, undated last, feed order kept among ties |
| `Cprt.Posts` | cprt.1d.py:217 | the posts are the entries of category `Post`, each as often as it occurs in the feed, and no other entry |
| `Cprt.PostsInOrder` | cprt.1d.py:217 | the list comprehension keeps the feed's order: splitting the feed splits its posts at the same point, and one entry is kept exactly when it is a post |
| `Cprt.Preview` | cprt.1d.py:231-233 | the preview is the first 200 characters with newlines as spaces, and `...` when the content is longer |
| `Cprt.PreviewOneLine` | cprt.1d.py:231 | a preview never contains a newline |
| `Cprt.MenuListsPosts` | cprt.1d.py:216-242 | the posts header counts the posts, that is the entries of category `Post` with repeats; every post's title line is printed, and below the header come only the posts' lines (or the no-posts line) and the footer |
| `Cprt.ListingShowsPosts` | cprt.1d.py:219-242 | a listing counts its posts in the posts header, prints the title line of each, and below the header prints only the posts' lines (or the no-posts line) and the footer |
| `Cprt.Run` | cprt.1d.py:193-214 | a failed fetch prints its error line and then the empty menu; a fetched document gives the menu of its entries |
| `Bball.ParseDate` | bball.1d.py:68-69 | the date parses exactly when `%m/%d` matches, and takes the given year; the result is a valid date for a year within `datetime`'s range |
| `Bball.ParseDateValid` | bball.py:26-27 | `mm/dd` parses exactly when the day exists in 1900 |
| `Bball.LeapDayRejected` | bball.1d.py:68-69 | `02/29` ends the script even in a leap year |
| `Bball.TipoffRoundTrip` | bball.1d.py:72-76 | a written `HH:MMAM`/`HH:MMPM` time reads back as that time of day |
| `Bball.TipoffIgnoresCase` | bball.py:30-34 | the tip-off time is read regardless of case |
| `Bball.NoTimeForTba` | bball.py:30-34 | `TBA` has no tip-off time |
| `Bball.HomeAway` | bball.1d.py:79-84 | `Away` exactly when there is an `@`, `Home` exactly for `vs` without `@`, otherwise `Neutral` |
| `Bball.Opponent` | bball.1d.py:87-89 | the stripped name span, or empty without one |
| `Bball.ScheduleRows` | bball.1d.py:54-65 | one game per row with at least four cells, in row order |
| `Bball.BadDateFails` | bball.py:50-61 | a wide row whose date does not parse ends the script |
| `Bball.ScheduleDatesValid` | bball.1d.py:54-65 | every parsed game has a valid date |
| `Bball.FutureGames` | bball.1d.py:105-114 | a schedule with games gives those games and prints nothing; a missing or empty schedule prints the message and gives nothing; a schedule that fails to parse raises its error without printing |
| `Bball.UntimedGameLine` | bball.1d.py:98-101 | a game without a tip-off time ends in two spaces after home/away |
| `Bball.Menu` | bball.1d.py:92-102 | the three header lines, then one line per game in schedule order; without games the message, then the script ends iterating `None`; a schedule error ends it right after the header |
| `News.ScottRoundTrip` | news.6hr.py:15-19 | the Scott date format reads back a date it wrote, as `m/d/yy` |
| `News.DaringRoundTrip` | news.6hr.py:22-26 | the Daring Fireball format reads back a date it wrote, whatever the time |
| `News.AtomRoundTrip` | news.6hr.py:90-93 | the Atom format reads back a date it wrote, as `mm/dd/yy` |
| `News.Rss2RoundTrip` | news.6hr.py:110-111 | the RSS 2.0 format reads back a date it wrote, as `mm/dd/yy` |
| `News.NoDateRejected` | news.6hr.py:50-51 | the `No date` placeholder is not a date, so an undated article ends the script |
| `News.Scott` | news.6hr.py:39-56 | a failed fetch logs the error and gives the stand-in story; a fetched page logs nothing |
| `News.ScottStory` | news.6hr.py:44-53 | a listing gives its story exactly when it has an `h1` link with an `href`, a readable `time` and a summary paragraph; a missing `h1` or summary `div` is the `find` AttributeError, a missing link or paragraph the `get_text` one, a missing `href` the KeyError |
| `News.ScottStories` | news.6hr.py:39-53 | a fetched page gives one story per listing, in page order, exactly when every listing is readable; otherwise the first unreadable listing's exception escapes |
| `News.UndatedListingFails` | news.6hr.py:47-51 | a listing without a `time` tag ends the script |
| `News.Daring` | news.6hr.py:59-79 | a failed fetch logs two lines and gives no stories; an empty feed logs the no-entries line |
| `News.DaringKeepsLinked` | news.6hr.py:67-76 | the entries with a title and a link are listed in feed order, each as its title, link and rewritten date, and every listed story comes from such an entry |
| `News.DaringListsLinked` | news.6hr.py:67-76 | every entry with a title and a link is listed with that title and link |
| `News.DaringUndatedFails` | news.6hr.py:69-70 | a kept entry without a publication date ends the script |
| `News.AppleStory` | news.6hr.py:86-98 | an entry gives its story exactly when it has a title, a link with an `href` and an `updated` date that parses; the missing title, link and `href` raise their own errors |
| `News.AppleStories` | news.6hr.py:82-99 | the Apple section succeeds exactly when every entry is readable; titles are stripped and dates zero-padded; otherwise the first unreadable entry's exception escapes |
| `News.Kennedy` | news.6hr.py:102-119 | a failed fetch logs the error and gives the stand-in story |
| `News.StoryLine` | news.6hr.py:132 | a story prints its line exactly when it has a date; otherwise a KeyError |
| `News.PrintUndated` | news.6hr.py:131-132 | an undated story ends the script at its line |
| `News.Unsponsored` | news.6hr.py:136-138 | the listed Daring Fireball stories are exactly those not marked `[Sponsor]` |
| `News.DaringSectionCounts` | news.6hr.py:135-138 | the Daring Fireball header counts every story, sponsored ones included |
| `News.UnsponsoredCount` | news.6hr.py:135-138 | the count matches the listed stories exactly when none is sponsored |
| `News.Menu` | news.6hr.py:122-150 | a crash in an earlier section prints nothing of the later ones; a failed Apple fetch ends the script after the Scott and Daring Fireball logs |
| `News.ScottFailureCrashes` | news.6hr.py:55-56 | a failed Scott fetch ends the script right after the Scott header |
| `News.KennedyFailureCrashes` | news.6hr.py:118-119 | a failed Michael Kennedy fetch ends the script right after its header |
| `SteamDeals.SalePrice` | steamDeals.60m.js:60-62 | the sale price is the text before the first `.` |
| `SteamDeals.CleanDescriptionFacts` | steamDeals.60m.js:75-80 | cleaning drops every line break and single quote, nothing else, and is idempotent |
| `SteamDeals.ReadTile` | steamDeals.60m.js:59-80 | a game's discount, title, rating and link are the tile's; its price has no `.` and its description no line break or quote |
| `SteamDeals.ByDiscountTotal` | steamDeals.60m.js:108-116 | on present discounts the comparator is a total preorder |
| `SteamDeals.SortGamesOrdered` | steamDeals.60m.js:108-116 | with every discount present, the sort is a permutation, in descending string order, stable among equal discounts |
| `SteamDeals.StringOrderOfDiscounts` | steamDeals.60m.js:108-116 | discounts compare as strings: `-9%` sorts ahead of `-75%` |
| `SteamDeals.MissingDiscountInconsistent` | steamDeals.60m.js:108-116 | once a discount is missing the comparator is not a consistent order |
| `SteamDeals.Stars` | steamDeals.60m.js:117-133 | a rating in the table shows its glyphs; anything else shows the shrug |
| `SteamDeals.StarsDefaults` | steamDeals.60m.js:117-133 | a missing rating shrugs, an empty one shows one star |
| `SteamDeals.GameLine` | steamDeals.60m.js:130-136 | a game prints its line exactly when it has a description |
| `SteamDeals.Menu` | steamDeals.60m.js:24-27 | the output always starts with the joystick header and the page link |
| `SteamDeals.Run` | steamDeals.60m.js:24-43 | the header is logged before the browser starts, so a rejected page load leaves only the header and ends the script with that rejection |
| `SteamDeals.MenuListsEveryGame` | steamDeals.60m.js:130-136 | with every description present, every game is printed, sorted, and no line is lost |
| `SteamDeals.MenuStopsWithoutDescription` | steamDeals.60m.js:130-136 | a game without a description throws and ends the output |
| `AafesDeals.BeforeLast` | aafesDeals.js:52-56 | `slice(-4, -1)` is the up to three characters just before the last one |
| `AafesDeals.ItemEntry` | aafesDeals.js:64-87 | an item gives its entry exactly when it has a name element with a link and a pricing block; a missing name link throws reading `textContent`, a missing name element or pricing block throws reading `querySelector` |
| `AafesDeals.DotdEntriesShape` | aafesDeals.js:42-87 | no items gives the one fallback entry; otherwise one entry per item, in order, unless an item throws |
| `AafesDeals.DotdMenu` | aafesDeals.js:22-95 | the header is always printed; the entries follow exactly when no item throws |
| `AafesDeals.DotdRun` | aafesDeals.js:22-27 | both header logs come before the page load, so a rejected `goto` leaves only them and ends the section with that rejection |
| `AafesDeals.DotdWithoutItems` | aafesDeals.js:42-59 | without items the fallback line is printed, with the key glyph and the default name when the page has nothing |
| `AafesDeals.CapitalizeIdempotent` | aafesDeals.js:122-124 | capitalising twice is capitalising once |
| `AafesDeals.CategoryName` | aafesDeals.js:168-173 | a tile has a name exactly when `Off ` occurs after the first `select ` is removed, and the name has no `Off ` |
| `AafesDeals.CategoryNameRoundTrip` | aafesDeals.js:168-173 | a tile reading `select <p>Off <name>` gives the category `name` |
| `AafesDeals.CategoryEntry` | aafesDeals.js:176-179 | the entry is empty exactly for a missing, empty or banned name; otherwise the capitalised name and the link |
| `AafesDeals.BannedInAnyCase` | aafesDeals.js:108-116 | a banned category stays hidden whatever its capitalisation |
| `AafesDeals.CategoryMenu` | aafesDeals.js:104-187 | the section prints exactly when every tile has a link; a missing link rejects it and prints nothing |
| `AafesDeals.CategoryMenuPrintsNonEmpty` | aafesDeals.js:218-223 | after the header, the printed categories are exactly the non-empty entries |

## Left out

- Network access, the headless browser and HTML, feed and JSON parsing are replaced by
  input datatypes holding what each script reads; `requests`, `httpx`, `feedparser`,
  BeautifulSoup and Puppeteer are not modelled.
- Concurrency is not modelled. `asyncio.gather` in `daily_news_uv.2hr.py` is reduced to its
  result order. The interleaving of the two independent async blocks in `aafesDeals.js` is
  not modelled: each block's output is modelled on its own.
- In `aafesDeals.js`, `getSalesItemsFromSalesCategories` is called but its result is never
  awaited or printed, and `getCategoryDOM` is never called; neither is modelled.
- Float rendering (`:.2f`, `:.0f`, `str(float)`) is a parameter. Prices are exact reals, so
  binary floating-point rounding is not modelled.
- `Dates.Strptime`: `%z` accepts `Z`, `±HHMM` and `±HH:MM` only, not the forms with seconds
  or fractions, and its range check is simplified to hours below 24. Weekday names are
  checked for form only, not against the date, as `strptime` does when the day is given.
- `Text.IsSpace` is Python's whitespace restricted to the Latin-1 range, and `Text.Strip`
  built on it also stands for JavaScript's `trim` in `steamDeals.60m.js` and `aafesDeals.js`.
  There the two differ: `trim` keeps U+001C to U+001F and U+0085, which `Text.Strip` removes,
  and removes U+1680, U+2000 to U+200A, U+2028, U+2029, U+202F, U+205F, U+3000 and U+FEFF,
  which it keeps. Python's `isspace` also treats some code points beyond Latin-1 as whitespace.
- `Cprt.ParseFeedOrdered`: the sort at `cprt.1d.py` line 189 compares `datetime` values, and
  raises TypeError when aware and naive datetimes meet, including `datetime.min` standing in
  for an undated entry beside an aware one. The model compares all dates in one total
  order and does not model that exception.
- `Microcenter.ReadLink`: pydantic's `HttpUrl` validation and normalisation of the deal URL
  are not modelled. A URL it rejects (such as `httpx` or `http:/x`) makes the source skip the
  link, and the model lists it; a URL it accepts is stored as written, not normalised.
- `WishList.MakeProduct`: pydantic's `HttpUrl` check on `Product.url` is not modelled. The
  source rejects a URL without an `http`/`https` scheme or a host, which ends the script
  while it builds its product list, and stores an accepted URL normalised (a bare host
  gains a trailing `/`). The model accepts any URL text and stores it as written. The
  model's message for a non-positive MSRP is the validator's; pydantic reports the
  `gt=0` field constraint first, with its own wording.
- `Text.Upper` and `Text.Lower` map ASCII letters only. Python's `upper()` and JavaScript's
  `toUpperCase()`/`toLowerCase()` also map non-ASCII letters.
- Strings are sequences of code points. JavaScript strings are UTF-16 code units, which
  matters to `slice`, `charAt` and `<` only outside the Basic Multilingual Plane.
- `SteamDeals.SortGames`: with a missing discount, the comparator is not a consistent
  order, and V8's sort may then give any order. The model uses the stable insertion sort
  throughout, and the ordering lemma assumes every discount is present.
- `SteamDeals.Stars`: inherited `Object.prototype` keys of `ratingScale` (such as
  `constructor`) are not modelled.
- `bball.py` prints each game with pydantic's `repr`; that output format is not modelled.
  Its parsing functions are the same as in `bball.1d.py` and are modelled there.
- `bball.1d.py`'s `fetch_school_data` reads the school's name, record and ranking from a
  page. These are inputs of `Bball.Menu`. The current year is a parameter.
- `DEBUG` branches in `cprt.1d.py` and elsewhere are off in the source and are not modelled.
- Time stamps (`datetime.now()` renderings) are parameters.
- `Cprt.EntryDate`: the two date parses are parameters of the environment, because the
  script's RSS date formats depend on `%z` rules beyond those `Dates.Strptime` models.
- `News.Menu`: the Apple section raises inside `requests` when the fetch fails, and the
  model passes that on as a failure, without the exception's text.

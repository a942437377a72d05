/** The Steam Mac deals plugin (steamDeals.60m.js): the texts read from each
    sale tile, the descending sort by discount, the rating glyphs and the
    printed line. The browser automation is a parameter: each tile arrives as
    the texts its selectors found, None where a selector found nothing (the
    `?.` chains give `undefined`). */
module SteamDeals {
  import opened Wrappers
  import opened Text
  import opened Headlines
  import Sorting

  const PageUrl: string := "https://store.steampowered.com/specials/?facets13268=6%3A2&offset=12/"

  /** The texts of one sale tile, straight from the page. */
  datatype Tile = Tile(price: Option<string>, discount: Option<string>, rating: Option<string>,
                       title: Option<string>, link: Option<string>, description: Option<string>)

  /** One entry of `gameJSON`. */
  datatype Game = Game(salePrice: Option<string>, discount: Option<string>, title: Option<string>,
                       link: Option<string>, rating: Option<string>, description: Option<string>)

  /** `textContent.split('.')[0]`: the text before the first `.`. */
  function SalePrice(text: string): (r: string)
    ensures r <= text && '.' !in r
    ensures |r| < |text| ==> text[|r|] == '.'
  {
    CutAt(text, '.')
  }

  /** What the first `replace` removes: the line breaks. */
  const LineBreaks: set<char> := {'\r', '\n'}

  /** What the second `replace` removes: single quotes. */
  const Quotes: set<char> := {'\''}

  /** Everything the two `replace` calls remove between them. */
  const Unwanted: set<char> := LineBreaks + Quotes

  /** The two `replace` calls: line breaks go, then single quotes. */
  function CleanDescription(text: string): (r: string)
    ensures forall i :: 0 <= i < |r| ==> r[i] !in Unwanted && r[i] in text
  {
    DropCharsTwice(text, LineBreaks, Quotes);
    DropChars(DropChars(text, LineBreaks), Quotes)
  }

  /** Cleaning is the same as dropping the three characters in one pass, and
      cleaning twice changes nothing more. */
  lemma {:induction false} CleanDescriptionFacts(text: string)
    ensures CleanDescription(text) == DropChars(text, Unwanted)
    ensures CleanDescription(CleanDescription(text)) == CleanDescription(text)
    ensures (forall i :: 0 <= i < |text| ==> text[i] !in Unwanted) ==> CleanDescription(text) == text
  {
    var once := CleanDescription(text);
    DropCharsTwice(text, LineBreaks, Quotes);
    DropCharsTwice(once, LineBreaks, Quotes);
    DropCharsIdempotent(text, Unwanted);
  }

  function Map(o: Option<string>, f: string -> string): (r: Option<string>)
    ensures r.Some? <==> o.Some?
  {
    if o.Some? then Some(f(o.value)) else None
  }

  /** The `gamesArray.forEach` body: one game per tile. */
  function ReadTile(t: Tile): (g: Game)
    ensures g.salePrice.Some? ==> '.' !in g.salePrice.value
    ensures g.description.Some? ==> forall i :: 0 <= i < |g.description.value| ==> g.description.value[i] !in Unwanted
    ensures g.discount == t.discount && g.title == t.title && g.rating == t.rating && g.link == t.link
  {
    Game(Map(t.price, SalePrice), t.discount, t.title, t.link, t.rating, Map(t.description, CleanDescription))
  }

  /** JavaScript's `a < b` where either side may be `undefined`: a comparison
      with `undefined` is false. */
  predicate JsLess(a: Option<string>, b: Option<string>) {
    a.Some? && b.Some? && LexLess(a.value, b.value)
  }

  /** The comparator returns at most 0, keeping `a` ahead of `b`, exactly
      when `a`'s discount is not less than `b`'s. */
  predicate MayPrecede(a: Game, b: Game) {
    !JsLess(a.discount, b.discount)
  }

  /** `gameJSON.sort(...)`: a stable sort under the comparator. */
  function SortGames(games: seq<Game>): (r: seq<Game>)
    ensures multiset(r) == multiset(games)
  {
    Sorting.SortDescending(games, MayPrecede)
  }

  /** The comparison on present discounts only, which is a total preorder. */
  predicate ByDiscount(a: Game, b: Game) {
    !LexLess(a.discount.GetOr(""), b.discount.GetOr(""))
  }

  lemma {:induction false} ByDiscountTotal()
    ensures Sorting.TotalPreorder(ByDiscount)
  {
    forall a: Game, b: Game ensures ByDiscount(a, b) || ByDiscount(b, a) {
      LexTrichotomy(a.discount.GetOr(""), b.discount.GetOr(""));
    }
    forall a: Game, b: Game, c: Game | ByDiscount(a, b) && ByDiscount(b, c) ensures ByDiscount(a, c) {
      var x, y, z := a.discount.GetOr(""), b.discount.GetOr(""), c.discount.GetOr("");
      LexTrichotomy(x, y);
      LexTrichotomy(y, z);
      LexTrichotomy(x, z);
      if LexLess(y, x) && LexLess(x, z) { LexTransitive(y, x, z); }
    }
  }

  predicate AllDiscounted(games: seq<Game>) {
    forall i :: 0 <= i < |games| ==> games[i].discount.Some?
  }

  /** When every game has a discount the sort is a permutation that puts
      greater discount strings (compared as strings, so `-9%` ahead of
      `-75%`) first and keeps the page order among equal ones. */
  lemma {:induction false} SortGamesOrdered(games: seq<Game>, k: Game)
    requires AllDiscounted(games) && k.discount.Some?
    ensures multiset(SortGames(games)) == multiset(games)
    ensures AllDiscounted(SortGames(games))
    ensures forall i, j :: 0 <= i < j < |SortGames(games)| ==>
      !LexLess(SortGames(games)[i].discount.value, SortGames(games)[j].discount.value)
    ensures Sorting.TiedWith(SortGames(games), k, MayPrecede) == Sorting.TiedWith(games, k, MayPrecede)
  {
    forall a, b | a in games && b in games ensures MayPrecede(a, b) == ByDiscount(a, b) {
      var i :| 0 <= i < |games| && games[i] == a;
      var j :| 0 <= j < |games| && games[j] == b;
    }
    Sorting.SortAgree(games, MayPrecede, ByDiscount);
    ByDiscountTotal();
    Sorting.SortDescendingSorted(games, ByDiscount);
    Sorting.SortDescendingStable(games, k, ByDiscount);
    var r := SortGames(games);
    forall i | 0 <= i < |r| ensures r[i] in games && r[i].discount.Some? {
      assert r[i] in multiset(r);
      var j :| 0 <= j < |games| && games[j] == r[i];
    }
    TiedAgree(r, k, games);
    TiedAgree(games, k, games);
  }

  lemma {:induction false} TiedAgree(s: seq<Game>, k: Game, games: seq<Game>)
    requires k.discount.Some? && forall i :: 0 <= i < |s| ==> s[i].discount.Some?
    ensures Sorting.TiedWith(s, k, MayPrecede) == Sorting.TiedWith(s, k, ByDiscount)
    decreases |s|
  {
    if |s| > 0 {
      TiedAgree(s[1..], k, games);
    }
  }

  function WithDiscount(d: Option<string>): Game {
    Game(None, d, None, None, None, None)
  }

  /** Discounts compare as strings: a 9% discount goes ahead of a 75% one,
      and two equal discounts keep their page order. */
  lemma {:induction false} StringOrderOfDiscounts()
    ensures var nine, big := WithDiscount(Some("-9%")), WithDiscount(Some("-75%"));
      SortGames([big, nine]) == [nine, big]
    ensures var a, b := WithDiscount(Some("-50%")), WithDiscount(Some("-50%")).(title := Some("b"));
      SortGames([a, b]) == [a, b]
  {
    assert LexLess("-75%", "-9%") by {
      assert "-75%"[1..] == "75%" && "-9%"[1..] == "9%";
    }
    assert !LexLess("-9%", "-75%") by {
      LexTrichotomy("-9%", "-75%");
    }
    assert !LexLess("-50%", "-50%") by {
      LexTrichotomy("-50%", "-50%");
    }
  }

  /** A game without a discount compares equal to every game, so the
      comparator is not a consistent order once a discount is missing: the
      undiscounted game may precede a 50% game and follow a 10% one, yet the
      10% game may not precede the 50% one. */
  lemma {:induction false} MissingDiscountInconsistent()
    ensures var none, ten, half := WithDiscount(None), WithDiscount(Some("-10%")), WithDiscount(Some("-50%"));
      MayPrecede(ten, none) && MayPrecede(none, half) && !MayPrecede(ten, half)
  {
    assert LexLess("-10%", "-50%") by {
      assert "-10%"[1..] == "10%" && "-50%"[1..] == "50%";
    }
  }

  /** The `ratingScale` table. */
  const RatingScale: map<string, string> := map[
    "Overwhelmingly Positive" := "⭐⭐⭐⭐",
    "Very Positive" := "⭐⭐⭐",
    "Positive" := "⭐⭐",
    "Mostly Positive" := "⭐",
    "Mixed" := "❓",
    "Mostly Negative" := ThumbDown,
    "Negative" := ThumbDown + ThumbDown,
    "Very Negative" := ThumbDown + ThumbDown + ThumbDown,
    "Overwhelmingly Negative" := ThumbDown + ThumbDown + ThumbDown + ThumbDown,
    "" := "⭐"]

  const ThumbDown: string := "\U{1F44E}\U{1F3FE}"

  /** The fallback after `??`. */
  const Shrug: string := "\U{1F937}\U{1F3FD}‍♂️"

  /** Template text of a possibly `undefined` value. */
  function Show(o: Option<string>): string {
    if o.Some? then o.value else "undefined"
  }

  /** `ratingScale[g.gameRating] ?? '🤷🏽‍♂️'`: an `undefined` rating looks up
      the key `undefined`, which the table does not have. */
  function Stars(rating: Option<string>): (r: string)
    ensures r == Shrug <==> Show(rating) !in RatingScale
    ensures Show(rating) in RatingScale ==> r == RatingScale[Show(rating)]
  {
    var key := Show(rating);
    ShrugNotAGlyph();
    if key in RatingScale then RatingScale[key] else Shrug
  }

  lemma {:induction false} ShrugNotAGlyph()
    ensures forall k :: k in RatingScale ==> RatingScale[k] != Shrug
  {
    forall k | k in RatingScale ensures RatingScale[k] != Shrug {
      assert RatingScale[k][0] in {'⭐', '❓', '\U{1F44E}'};
    }
  }

  /** A missing rating and any rating outside the table shrug; an empty
      rating gets one star. */
  lemma {:induction false} StarsDefaults(rating: string)
    ensures Stars(None) == Shrug
    ensures Stars(Some("")) == "⭐"
    ensures rating !in RatingScale ==> Stars(Some(rating)) == Shrug
  {
    assert "undefined" !in RatingScale;
  }

  const NoDescription: string := "TypeError: Cannot read properties of undefined (reading 'toString')"

  /** The printed line of a game; a game without a description throws. */
  function GameLine(g: Game): (r: Result<string>)
    ensures r.Success? <==> g.description.Some?
  {
    match g.description
    case None => Failure(NoDescription)
    case Some(d) =>
      Success(Show(g.salePrice) + " [" + Show(g.discount) + "] " + Show(g.title) + " " + Stars(g.rating)
              + " | tooltip= \"" + d + "\" href=" + Show(g.link))
  }

  const Joystick: string := "\U{1F579}️"

  /** The two header `console.log` calls, each ending in an empty line. */
  const Header: seq<string> := [Joystick, "---", "", "Steam Mac Deals | href= " + PageUrl, "---", ""]

  /** The plugin's output: the header, then one line per game, best
      discount first, until a game without a description throws. */
  function Menu(tiles: seq<Tile>): (r: Output)
    ensures |r.lines| >= |Header| && r.lines[..|Header|] == Header
  {
    PrintEach(Output(Header, None), SortGames(ReadTiles(tiles)), GameLine)
  }

  /** The whole run: the header is logged before the browser starts, so a
      rejected `goto` or `waitForSelector` (a timeout, say) leaves only the
      header and ends the script with that rejection. */
  function Run(load: Result<seq<Tile>>): (r: Output)
    ensures |r.lines| >= |Header| && r.lines[..|Header|] == Header
    ensures load.Failure? ==> r.lines == Header && r.crash == Some(load.error)
    ensures r.crash.None? <==> load.Success? && Menu(load.value).crash.None?
    ensures load.Success? ==> r.lines == Menu(load.value).lines
  {
    match load
    case Failure(e) => Output(Header, Some(e))
    case Success(tiles) => Menu(tiles)
  }

  function ReadTiles(tiles: seq<Tile>): (r: seq<Game>)
    ensures |r| == |tiles| && forall i :: 0 <= i < |tiles| ==> r[i] == ReadTile(tiles[i])
  {
    seq(|tiles|, i requires 0 <= i < |tiles| => ReadTile(tiles[i]))
  }

  /** When every tile has a description, every game is printed, the sort is
      a permutation of the tiles, and no line is lost. */
  lemma {:induction false} MenuListsEveryGame(tiles: seq<Tile>)
    requires forall i :: 0 <= i < |tiles| ==> tiles[i].description.Some?
    ensures Menu(tiles).crash.None?
    ensures |Menu(tiles).lines| == |Header| + |tiles|
    ensures forall i :: 0 <= i < |tiles| ==>
      GameLine(SortGames(ReadTiles(tiles))[i]) == Success(Menu(tiles).lines[|Header| + i])
  {
    var games := ReadTiles(tiles);
    var sorted := SortGames(games);
    forall i | 0 <= i < |sorted| ensures GameLine(sorted[i]).Success? {
      assert sorted[i] in multiset(games);
      var j :| 0 <= j < |games| && games[j] == sorted[i];
    }
    assert |sorted| == |games| by {
      assert |multiset(sorted)| == |multiset(games)|;
    }
    PrintEachAll(Header, sorted, GameLine);
  }

  /** A tile without a description stops the output at that game. */
  lemma {:induction false} MenuStopsWithoutDescription(tiles: seq<Tile>, k: nat)
    requires k < |tiles| && tiles[k].description.None?
    ensures Menu(tiles).crash == Some(NoDescription)
  {
    var games := ReadTiles(tiles);
    var sorted := SortGames(games);
    assert games[k] in multiset(sorted);
    var j :| 0 <= j < |sorted| && sorted[j] == games[k];
    var first := FirstFailure(sorted, j);
    PrintEachStops(Header, sorted, GameLine, first);
  }

  /** The first game at or before `j` whose line throws. */
  function FirstFailure(s: seq<Game>, j: nat): (k: nat)
    requires j < |s| && GameLine(s[j]).Failure?
    ensures k <= j && GameLine(s[k]).Failure?
    ensures forall i :: 0 <= i < k ==> GameLine(s[i]).Success?
    decreases j
  {
    if j == 0 then 0
    else if forall i :: 0 <= i < j ==> GameLine(s[i]).Success? then j
    else
      var i :| 0 <= i < j && GameLine(s[i]).Failure?;
      FirstFailure(s, i)
  }
}

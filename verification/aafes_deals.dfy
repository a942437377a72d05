/** The Exchange deals plugin written for Node (aafesDeals.js): the deal of
    the day section and the weekly sale categories section. Each section is
    one page evaluation whose result is printed line by line; the page is a
    parameter, given as the texts and links its selectors found (None where
    a selector found nothing). */
module AafesDeals {
  import opened Wrappers
  import opened Text
  import opened Headlines

  const DotdUrl: string := "https://www.shopmyexchange.com/s?Dy=1&Nty=1&Ntt=dotd"
  const SavingsUrl: string := "https://www.shopmyexchange.com/savings-center"

  const Key: string := "\U{1F511}"
  const NoSales: string := "No sales items found today"

  /** `s || fallback` on a string that may be `undefined`: an empty or
      missing string gives the fallback. */
  function OrElse(s: Option<string>, fallback: string): (r: string)
    ensures s.Some? && s.value != "" ==> r == s.value
    ensures s.None? || s.value == "" ==> r == fallback
  {
    if s.Some? && s.value != "" then s.value else fallback
  }

  /** `s.slice(-4, -1)`: up to three characters ending just before the last
      one. */
  function BeforeLast(s: string): (r: string)
    ensures |s| <= 1 ==> r == ""
    ensures |s| >= 1 ==> |r| == if |s| >= 4 then 3 else |s| - 1
    ensures |s| >= 1 ==> r + [s[|s| - 1]] == s[|s| - |r| - 1..]
  {
    var lo := if |s| >= 4 then |s| - 4 else 0;
    var hi := if |s| >= 1 then |s| - 1 else 0;
    s[lo..hi]
  }

  function MapText(o: Option<string>, f: string -> string): (r: Option<string>)
    ensures r.Some? <==> o.Some?
    ensures o.Some? ==> r.value == f(o.value)
  {
    if o.Some? then Some(f(o.value)) else None
  }

  function TrimmedCents(t: string): string {
    CutAt(Strip(t), '.')
  }

  function TrimmedTail(t: string): string {
    BeforeLast(Strip(t))
  }

  // ---------------------------------------------------------------------------
  // Deal of the day
  // ---------------------------------------------------------------------------

  /** One `.aafes-thumbnail-item.col-xs-12`: whether it has an
      `.aafes-item-name` element, the text of that element's link, whether it
      has an `.item-pricing` element, the texts of its sale-price and saved
      elements, and the `href` of its first link. */
  datatype DotdItem = DotdItem(nameBlock: bool, name: Option<string>, pricing: bool, sale: Option<string>,
                               saved: Option<string>, href: string)

  /** The deal page: the page heading, the page-level sale-price and saved
      texts, and the items. */
  datatype DotdPage = DotdPage(head: Option<string>, sale: Option<string>, saved: Option<string>,
                               items: seq<DotdItem>)

  const NullText: string := "TypeError: Cannot read properties of null (reading 'textContent')"
  const NullQuery: string := "TypeError: Cannot read properties of null (reading 'querySelector')"

  /** The entry built from the page itself when no item is found. */
  function FallbackEntry(p: DotdPage): (r: string)
    ensures p.head.None? && (p.sale.None? || TrimmedCents(p.sale.value) == "") ==>
              r == Key + " [-" + OrElse(MapText(p.saved, TrimmedTail), "") + "] " + NoSales + " | href=" + DotdUrl
  {
    var name := if p.head.Some? then Strip(p.head.value) else NoSales;
    var price := OrElse(MapText(p.sale, TrimmedCents), Key);
    var discount := OrElse(MapText(p.saved, TrimmedTail), "");
    price + " [-" + discount + "] " + name + " | href=" + DotdUrl
  }

  /** Whether an item's entry can be made: it has a name element holding a
      link, and a pricing block. */
  predicate ItemReadable(it: DotdItem) {
    it.nameBlock && it.name.Some? && it.pricing
  }

  /** The entry of one item; a missing name element, name link or pricing
      block throws, each on the first property read of the null it gives. */
  function ItemEntry(it: DotdItem): (r: Result<string>)
    ensures r.Success? <==> ItemReadable(it)
    ensures r.Failure? ==> r.error == (if it.nameBlock && it.name.None? then NullText else NullQuery)
  {
    if !it.nameBlock then Failure(NullQuery)
    else if it.name.None? then Failure(NullText)
    else if !it.pricing then Failure(NullQuery)
    else
      var price := OrElse(MapText(it.sale, TrimmedTail), Key);
      var discount := OrElse(MapText(it.saved, TrimmedTail), "");
      Success(price + " " + discount + " " + Strip(it.name.value) + " | href=" + it.href)
  }

  /** The `menuArray` the page evaluation returns. */
  function DotdEntries(p: DotdPage): (r: Result<seq<string>>)
  {
    if |p.items| == 0 then Success([FallbackEntry(p)]) else Traverse(p.items, ItemEntry)
  }

  /** A page without items yields exactly the one fallback entry; a page with
      items yields one entry per item, in order, and no fallback, unless an
      item throws. */
  lemma {:induction false} DotdEntriesShape(p: DotdPage)
    ensures |p.items| == 0 ==> DotdEntries(p) == Success([FallbackEntry(p)])
    ensures |p.items| > 0 ==>
              (DotdEntries(p).Success? <==> forall i :: 0 <= i < |p.items| ==> ItemReadable(p.items[i]))
    ensures |p.items| > 0 && DotdEntries(p).Success? ==>
              |DotdEntries(p).value| == |p.items|
              && forall i :: 0 <= i < |p.items| ==> ItemEntry(p.items[i]) == Success(DotdEntries(p).value[i])
  {
    TraverseAll(p.items, ItemEntry);
  }

  /** The lines printed before the page is read. */
  const DotdHeader: seq<string> := ["BX", "---", "", "test", "---", ""]

  /** The deal section's output: the two header logs, then every entry; an
      item that throws rejects the evaluation and nothing more is printed. */
  function DotdMenu(p: DotdPage): (r: Output)
    ensures |r.lines| >= |DotdHeader| && r.lines[..|DotdHeader|] == DotdHeader
    ensures r.crash.None? <==> DotdEntries(p).Success?
  {
    match DotdEntries(p)
    case Failure(e) => Output(DotdHeader, Some(e))
    case Success(entries) => Print(Output(DotdHeader, None), entries)
  }

  /** The deal section with its page load: the header is logged before the
      browser starts, so a rejected `goto` leaves only the header and ends the
      section with that rejection. */
  function DotdRun(load: Result<DotdPage>): (r: Output)
    ensures |r.lines| >= |DotdHeader| && r.lines[..|DotdHeader|] == DotdHeader
    ensures load.Failure? ==> r.lines == DotdHeader && r.crash == Some(load.error)
    ensures r.crash.None? <==> load.Success? && DotdEntries(load.value).Success?
    ensures load.Success? ==> r.lines == DotdMenu(load.value).lines
  {
    match load
    case Failure(e) => Output(DotdHeader, Some(e))
    case Success(p) => DotdMenu(p)
  }

  /** On a day without items the section prints the header and the one
      fallback line, whose defaults show through when the page has nothing. */
  lemma {:induction false} DotdWithoutItems(p: DotdPage)
    requires |p.items| == 0
    ensures DotdMenu(p) == Output(DotdHeader + [FallbackEntry(p)], None)
    ensures p == DotdPage(None, None, None, []) ==>
              DotdMenu(p).lines[|DotdHeader|] == Key + " [-] " + NoSales + " | href=" + DotdUrl
  {
  }

  // ---------------------------------------------------------------------------
  // Weekly sale categories
  // ---------------------------------------------------------------------------

  /** `capitalizeFirstLetter`: the first character upper-cased, the rest as
      it is. */
  function Capitalize(s: string): (r: string)
    ensures |r| == |s|
    ensures |s| > 0 ==> r[0] == ToUpper(s[0]) && r[1..] == s[1..]
  {
    if |s| == 0 then "" else [ToUpper(s[0])] + s[1..]
  }

  /** Capitalising twice is capitalising once. */
  lemma {:induction false} CapitalizeIdempotent(s: string)
    ensures Capitalize(Capitalize(s)) == Capitalize(s)
  {
    if |s| > 0 {
      assert ToUpper(ToUpper(s[0])) == ToUpper(s[0]);
    }
  }

  const Banned: seq<string> := ["bras", "garmin", "fujifilm", "military pride", "blue topaz",
                                "burt's bees gift sets", "diamond jewelry"]

  /** The link of one `.item-content` tile: its text and `href`. */
  datatype Anchor = Anchor(text: string, href: string)

  /** `categoryName`: the trimmed link text with the first `select ` removed,
      then the piece after the first `Off `, up to the next one; absent when
      there is no `Off `. */
  function CategoryName(text: string): (r: Option<string>)
    ensures r.None? <==> !Contains(ReplaceFirst(Strip(text), "select ", ""), "Off ")
    ensures r.Some? ==> !Contains(r.value, "Off ")
  {
    SecondField(ReplaceFirst(Strip(text), "select ", ""), "Off ")
  }

  /** The first `Off ` of `p + "Off " + q` is the one after `p` when `p`
      has none: the pattern cannot start inside `p` and run into the next
      `Off `. */
  lemma {:induction false} FirstOffAfter(p: string, q: string)
    requires !Contains(p, "Off ")
    ensures IndexOf(p + "Off " + q, "Off ") == Some(|p|)
  {
    var s := p + "Off " + q;
    assert s[|p|..|p| + 4] == "Off ";
    assert Occurs(s, "Off ", |p|);
    forall j | 0 <= j < |p| ensures !Occurs(s, "Off ", j) {
      NoOffBefore(p, q, j);
    }
  }

  lemma {:induction false} NoOffBefore(p: string, q: string, j: nat)
    requires !Contains(p, "Off ") && j < |p|
    ensures !Occurs(p + "Off " + q, "Off ", j)
  {
    var s := p + "Off " + q;
    if j + 4 <= |p| {
      assert s[j..j + 4] == p[j..j + 4];
      assert !Occurs(p, "Off ", j);
    } else if j + 4 <= |s| {
      assert s[j..j + 4][|p| - j] == s[|p|] == 'O';
    }
  }

  /** A tile reading `select <p>Off <name>` is the category `name`. */
  lemma {:induction false} CategoryNameRoundTrip(p: string, name: string)
    requires !Contains(p, "Off ") && !Contains(name, "Off ")
    requires |name| > 0 && !IsSpace(name[|name| - 1])
    ensures CategoryName("select " + p + "Off " + name) == Some(name)
  {
    var rest := p + "Off " + name;
    var text := "select " + rest;
    assert "select " + p + "Off " + name == text;
    assert text[0] == 's' && text[|text| - 1] == name[|name| - 1];
    assert Strip(text) == text;
    SelectRemoved(rest);
    OffField(p, name);
  }

  /** The leading `select ` is what the replacement removes. */
  lemma {:induction false} SelectRemoved(rest: string)
    ensures ReplaceFirst("select " + rest, "select ", "") == rest
  {
    var text := "select " + rest;
    assert Occurs(text, "select ", 0);
    assert IndexOf(text, "select ") == Some(0);
    assert text[7..] == rest;
  }

  /** The piece after the first `Off ` is `name` when neither side has another. */
  lemma {:induction false} OffField(p: string, name: string)
    requires !Contains(p, "Off ") && !Contains(name, "Off ")
    ensures SecondField(p + "Off " + name, "Off ") == Some(name)
  {
    FirstOffAfter(p, name);
    assert (p + "Off " + name)[|p| + 4..] == name;
  }

  /** The entry of one category: empty when there is no name, the name is
      empty, or its lower case is banned; otherwise the capitalised name and
      the link. */
  function CategoryEntry(a: Anchor): (r: string)
    ensures r == "" <==> (var n := CategoryName(a.text); n.None? || n.value == "" || Lower(n.value) in Banned)
    ensures r != "" ==> r == Capitalize(CategoryName(a.text).value) + "| href= " + a.href
  {
    var n := CategoryName(a.text);
    if n.None? || n.value == "" || Lower(n.value) in Banned then ""
    else Capitalize(n.value) + "| href= " + a.href
  }

  /** A banned category stays hidden whatever its capitalisation. */
  lemma {:induction false} BannedInAnyCase(p: string, name: string, href: string)
    requires !Contains(p, "Off ") && !Contains(name, "Off ")
    requires |name| > 0 && !IsSpace(name[|name| - 1])
    requires Lower(name) in Banned
    ensures CategoryEntry(Anchor("select " + p + "Off " + name, href)) == ""
  {
    CategoryNameRoundTrip(p, name);
  }

  /** The header log of the categories section. */
  const CategoryHeader: seq<string> := ["Weekly Sale Categories | href= " + SavingsUrl, "---", ""]

  const NoAnchor: string := "TypeError: Cannot read properties of null (reading 'textContent')"

  function NonEmpty(s: string): Option<string> {
    if s != "" then Some(s) else None
  }

  /** The entry of each tile, in order. */
  function Entries(anchors: seq<Anchor>): (r: seq<string>)
    ensures |r| == |anchors| && forall i :: 0 <= i < |anchors| ==> r[i] == CategoryEntry(anchors[i])
  {
    seq(|anchors|, i requires 0 <= i < |anchors| => CategoryEntry(anchors[i]))
  }

  /** The links of tiles that all have one. */
  function Links(tiles: seq<Option<Anchor>>): (r: seq<Anchor>)
    requires forall i :: 0 <= i < |tiles| ==> tiles[i].Some?
    ensures |r| == |tiles| && forall i :: 0 <= i < |tiles| ==> r[i] == tiles[i].value
  {
    seq(|tiles|, i requires 0 <= i < |tiles| && tiles[i].Some? => tiles[i].value)
  }

  /** Printing a header and then the non-empty entries: every printed entry
      is a non-empty one and every non-empty one is printed. */
  lemma {:induction false} PrintNonEmpty(header: seq<string>, entries: seq<string>)
    ensures var r := Print(Output([], None), header + FilterMap(entries, NonEmpty));
      && r.crash.None? && |r.lines| >= |header| && r.lines[..|header|] == header
      && (forall l :: l in r.lines[|header|..] ==> l != "" && l in entries)
      && (forall i :: 0 <= i < |entries| && entries[i] != "" ==> entries[i] in r.lines[|header|..])
  {
    var kept := FilterMap(entries, NonEmpty);
    FilterMapMembers(entries, NonEmpty);
    var r := Print(Output([], None), header + kept);
    assert r.lines == header + kept;
    assert r.lines[|header|..] == kept;
    forall i | 0 <= i < |entries| && entries[i] != "" ensures entries[i] in kept {
      assert entries[i] in entries;
    }
  }

  /** The categories section: each tile's entry, with the empty ones skipped
      when printing. A tile without a link rejects the evaluation, so
      nothing of the section is printed. */
  function CategoryMenu(tiles: seq<Option<Anchor>>): (r: Output)
    ensures r.crash.None? <==> forall i :: 0 <= i < |tiles| ==> tiles[i].Some?
    ensures r.crash.Some? ==> r.lines == []
  {
    if forall i :: 0 <= i < |tiles| ==> tiles[i].Some? then
      Print(Output([], None), CategoryHeader + FilterMap(Entries(Links(tiles)), NonEmpty))
    else Output([], Some(NoAnchor))
  }

  lemma {:induction false} CategoryMenuUnfold(tiles: seq<Option<Anchor>>)
    requires forall i :: 0 <= i < |tiles| ==> tiles[i].Some?
    ensures CategoryMenu(tiles) == Print(Output([], None), CategoryHeader + FilterMap(Entries(Links(tiles)), NonEmpty))
  {
  }

  /** The printed categories are exactly the non-empty entries: no empty
      entry is printed and no non-empty one is lost. */
  lemma {:induction false} CategoryMenuPrintsNonEmpty(tiles: seq<Option<Anchor>>)
    requires forall i :: 0 <= i < |tiles| ==> tiles[i].Some?
    ensures CategoryMenu(tiles).crash.None?
    ensures |CategoryMenu(tiles).lines| >= |CategoryHeader|
    ensures CategoryMenu(tiles).lines[..|CategoryHeader|] == CategoryHeader
    ensures forall l :: l in CategoryMenu(tiles).lines[|CategoryHeader|..] ==>
              l != "" && exists i :: 0 <= i < |tiles| && CategoryEntry(tiles[i].value) == l
    ensures forall i :: 0 <= i < |tiles| && CategoryEntry(tiles[i].value) != "" ==>
              CategoryEntry(tiles[i].value) in CategoryMenu(tiles).lines[|CategoryHeader|..]
  {
    CategoryMenuUnfold(tiles);
    var entries := Entries(Links(tiles));
    PrintNonEmpty(CategoryHeader, entries);
    TileEntries(tiles);
    var lines := CategoryMenu(tiles).lines[|CategoryHeader|..];
    forall l | l in lines ensures l != "" && exists i :: 0 <= i < |tiles| && CategoryEntry(tiles[i].value) == l {
      var j :| 0 <= j < |entries| && entries[j] == l;
    }
  }

  /** The entry of each tile, in tile order. */
  lemma {:induction false} TileEntries(tiles: seq<Option<Anchor>>)
    requires forall i :: 0 <= i < |tiles| ==> tiles[i].Some?
    ensures |Entries(Links(tiles))| == |tiles|
    ensures forall i :: 0 <= i < |tiles| ==> Entries(Links(tiles))[i] == CategoryEntry(tiles[i].value)
  {
    var links := Links(tiles);
    forall i | 0 <= i < |tiles| ensures Entries(links)[i] == CategoryEntry(tiles[i].value) {
      assert links[i] == tiles[i].value;
    }
  }
}

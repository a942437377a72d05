/** The Exchange deal-of-the-day plugin (aafees-deals.1d.py): the sale-price
    text, the `N/A` defaults, link completion and the item line. */
module AafesSales {
  import opened Wrappers
  import opened Text
  import opened Headlines

  const SiteUrl: string := "https://www.shopmyexchange.com"

  /** `parse_price`: the stripped text between the first and the second `:`.
      Text without a `:` has no second field, and the IndexError escapes. */
  function ParsePrice(price: string): (r: Result<string>)
    ensures r.Failure? <==> !Contains(price, ":")
    ensures r.Success? ==> !Contains(r.value, ":")
    ensures r.Success? ==> r.value == Strip(SecondField(price, ":").value)
  {
    match SecondField(price, ":")
    case None => Failure("IndexError: list index out of range")
    case Some(field) =>
      var r := Strip(field);
      ContainsChar(field, ':');
      ContainsChar(r, ':');
      StripInside(field);
      Success(r)
  }

  /** A tag and a price: the price is what follows the `:`, unpadded. */
  lemma {:induction false} ParsePriceLabelled(tag: string, value: string)
    requires !Contains(tag, ":") && !Contains(value, ":")
    ensures ParsePrice(tag + ":" + value) == Success(Strip(value))
  {
    var s := tag + ":" + value;
    assert Occurs(s, ":", |tag|);
    var i := IndexOf(s, ":").value;
    if i < |tag| {
      assert s[i] == tag[i];
      assert Occurs(tag, ":", i);
    }
    assert s[i + 1..] == value;
  }

  /** `item_link` after completion: a link not starting with `http` gets the
      site prefix. */
  function CompleteLink(link: string): (r: string)
    ensures IsAbsolute(link) ==> r == link
    ensures !IsAbsolute(link) ==> r == SiteUrl + link
    ensures IsAbsolute(r)
  {
    if IsAbsolute(link) then link
    else
      var r := SiteUrl + link;
      assert r[..4] == SiteUrl[..4];
      r
  }

  /** Completing a completed link changes nothing. */
  lemma {:induction false} CompleteLinkIdempotent(link: string)
    ensures CompleteLink(CompleteLink(link)) == CompleteLink(link)
  {
  }

  const NotSubscriptable: string := "TypeError: 'NoneType' object is not subscriptable"
  const NoHref: string := "KeyError: 'href'"

  /** One `.aafes-thumbnail-item`: the text of its name element, its first
      link (`None` when there is no `a`, `Some(None)` when that `a` has no
      `href`), and the texts of its sale-price and saved elements. None
      stands for a missing element. */
  datatype Item = Item(name: Option<string>, href: Option<Option<string>>, sale: Option<string>, saved: Option<string>)

  /** The line printed for one item, or the exception reading it raises: a
      missing name element, link or `href` is fatal, and so is a sale-price
      text without a `:`. */
  function ItemLine(it: Item): (r: Result<string>)
    ensures r.Success? <==>
              it.name.Some? && it.href.Some? && it.href.value.Some? && (it.sale.None? || Contains(it.sale.value, ":"))
    ensures it.name.Some? && it.href.None? ==> r == Failure(NotSubscriptable)
    ensures it.name.Some? && it.href == Some(None) ==> r == Failure(NoHref)
  {
    match it.name
    case None => Failure("AttributeError: 'NoneType' object has no attribute 'get_text'")
    case Some(name) =>
      match it.href
      case None => Failure(NotSubscriptable)
      case Some(None) => Failure(NoHref)
      case Some(Some(href)) =>
        var price := if it.sale.Some? then ParsePrice(it.sale.value) else Success("N/A");
        match price
        case Failure(e) => Failure(e)
        case Success(p) =>
          Success(Line(p, it.saved.GetOr("N/A"), name, CompleteLink(href)))
  }

  /** The printed shape `-{price} [-{discount}]{name} |href={link}`. */
  function Line(price: string, discount: string, name: string, link: string): string {
    "-" + price + " [-" + discount + "]" + name + " |href=" + link
  }

  /** The line starts with `-` and the price, then ` [`, and ends with the
      link. */
  lemma {:induction false} LineFields(price: string, discount: string, name: string, link: string)
    ensures Line(price, discount, name, link)[..|price| + 1] == "-" + price
    ensures Line(price, discount, name, link)[|price| + 1..|price| + 3] == " ["
    ensures Line(price, discount, name, link)[|Line(price, discount, name, link)| - |link|..] == link
  {
    var l := Line(price, discount, name, link);
    assert l == "-" + price + (" [-" + discount + "]" + name + " |href=" + link);
    assert l == ("-" + price + " [-" + discount + "]" + name + " |href=") + link;
  }

  /** The defaults: an item without a sale-price element shows `N/A` as its
      price, one without a saved element shows `[-N/A]`, and the link is
      always absolute. */
  lemma {:induction false} ItemDefaults(it: Item)
    requires it.name.Some? && it.href.Some? && it.href.value.Some?
    ensures it.sale.None? ==> ItemLine(it) == Success(Line("N/A", it.saved.GetOr("N/A"), it.name.value, CompleteLink(it.href.value.value)))
    ensures it.saved.None? && ItemLine(it).Success? ==>
              exists p :: ItemLine(it).value == Line(p, "N/A", it.name.value, CompleteLink(it.href.value.value))
    ensures ItemLine(it).Success? ==> IsAbsolute(CompleteLink(it.href.value.value))
  {
    if it.saved.None? && ItemLine(it).Success? {
      var p := if it.sale.Some? then ParsePrice(it.sale.value).value else "N/A";
      assert ItemLine(it).value == Line(p, "N/A", it.name.value, CompleteLink(it.href.value.value));
    }
  }

  /** An item whose line can be made: it has a name element and a link
      with an `href`, and its sale-price text, if any, holds a `:`. */
  predicate Readable(it: Item) {
    it.name.Some? && it.href.Some? && it.href.value.Some? && (it.sale.None? || Contains(it.sale.value, ":"))
  }

  /** `scrape_aafes_deals`: prints one line per item, in page order; reading
      an item that raises ends the script after the lines already printed. */
  function Scrape(items: seq<Item>): Output {
    PrintEach(Output([], None), items, ItemLine)
  }

  /** When every item is readable, every item's line is printed in page order
      and the script ends normally. */
  lemma {:induction false} ScrapeAll(items: seq<Item>)
    requires forall i :: 0 <= i < |items| ==> Readable(items[i])
    ensures Scrape(items).crash.None? && |Scrape(items).lines| == |items|
    ensures forall i :: 0 <= i < |items| ==> ItemLine(items[i]) == Success(Scrape(items).lines[i])
  {
    assert forall i :: 0 <= i < |items| ==> ItemLine(items[i]).Success? by {
      forall i | 0 <= i < |items| ensures ItemLine(items[i]).Success? {
        ReadableLine(items[i]);
      }
    }
    PrintEachFresh(items, ItemLine);
  }

  /** A readable item prints its line. */
  lemma {:induction false} ReadableLine(it: Item)
    requires Readable(it)
    ensures ItemLine(it).Success?
  {
  }

  /** The first unreadable item ends the script: the lines of the items before
      it have been printed, in order, and nothing after. */
  lemma {:induction false} ScrapeStops(items: seq<Item>, k: nat)
    requires k < |items| && !Readable(items[k])
    requires forall i :: 0 <= i < k ==> Readable(items[i])
    ensures Scrape(items).crash == Some(ItemLine(items[k]).error)
    ensures |Scrape(items).lines| == k
    ensures forall i :: 0 <= i < k ==> ItemLine(items[i]) == Success(Scrape(items).lines[i])
  {
    assert forall i :: 0 <= i < k ==> ItemLine(items[i]).Success? by {
      forall i | 0 <= i < k ensures ItemLine(items[i]).Success? {
        ReadableLine(items[i]);
      }
    }
    UnreadableLine(items[k]);
    PrintEachStopsFresh(items, ItemLine, k);
  }

  /** An unreadable item raises. */
  lemma {:induction false} UnreadableLine(it: Item)
    requires !Readable(it)
    ensures ItemLine(it).Failure?
  {
  }
}

/** The price-watch plugin (wish-list.6hr.py): product validation, the price
    selector, the price-text parse and the three-way comparison against the
    MSRP. The page lookup is a parameter: `select(selector)` is the text of
    the first element the CSS selector matches, if any. */
module WishList {
  import opened Wrappers
  import opened Text
  import opened Headlines
  import opened Prices

  /** A watched product, as validated by its model. */
  datatype Product = Product(name: string, url: string, msrp: real, selector: string, variantId: Option<string>)

  /** Constructing a `Product`: a non-positive MSRP is rejected (both the
      field constraint and the validator say so). URL validation is not
      modelled. */
  function MakeProduct(name: string, url: string, msrp: real, selector: string, variantId: Option<string>): (r: Result<Product>)
    ensures r.Success? <==> msrp > 0.0
    ensures r.Success? ==> r.value == Product(name, url, msrp, selector, variantId)
  {
    if msrp <= 0.0 then Failure("ValidationError: MSRP must be positive")
    else Success(Product(name, url, msrp, selector, variantId))
  }

  /** The variant filter appended to the selector. */
  function VariantFilter(id: string): string {
    "[bss-b2b-variant-id=\"" + id + "\"]"
  }

  /** The selector `get_price` looks up: the product's selector, with the
      variant filter appended when the variant id is set and not empty. */
  function Selector(p: Product): (r: string)
    ensures p.selector <= r
    ensures p.variantId.Some? && p.variantId.value != "" ==> r[|p.selector|..] == VariantFilter(p.variantId.value)
    ensures p.variantId.None? || p.variantId.value == "" ==> r == p.selector
  {
    if p.variantId.Some? && p.variantId.value != "" then p.selector + VariantFilter(p.variantId.value)
    else p.selector
  }

  /** The variant filter is appended exactly when a variant id is set. */
  lemma {:induction false} SelectorHasFilter(p: Product)
    ensures |Selector(p)| > |p.selector| <==> p.variantId.Some? && p.variantId.value != ""
  {
  }

  /** The characters removed from the price text. */
  const Noise: set<char> := {'$', ','}

  /** The text handed to `float`: the stripped element text with every `$`
      removed, then every `,`. */
  function PriceText(text: string): (r: string)
    ensures forall i :: 0 <= i < |r| ==> r[i] != '$' && r[i] != ','
  {
    DropChars(DropChars(Strip(text), {'$'}), {','})
  }

  /** A price text without `$` or `,` reaches `float` as it is (once stripped). */
  lemma {:induction false} PriceTextKeepsClean(text: string)
    requires forall i :: 0 <= i < |text| ==> text[i] !in Noise
    requires |text| == 0 || (!IsSpace(text[0]) && !IsSpace(text[|text| - 1]))
    ensures PriceText(text) == text
  {
  }

  /** Python `float(s)`. Texts of digits and dots are decided here; every
      other text (signs, exponents, `inf`, underscores) is left to `other`. */
  function PyFloat(s: string, other: string -> Option<real>): (r: Option<real>)
    ensures DigitsAndDots(s) ==> (r.Some? <==> HasDigit(s) && AtMostOneDot(s))
    ensures DigitsAndDots(s) && r.Some? ==> r.value == DecimalOf(s)
  {
    if DigitsAndDots(s) then FloatOfDigits(s) else other(s)
  }

  /** `get_price`: the warning lines it prints, and the price or None. A
      failed fetch or a missing element prints a warning and gives None; a
      text `float` rejects raises a ValueError nothing catches (Failure). */
  function GetPrice(p: Product, fetched: Result<string -> Option<string>>, other: string -> Option<real>)
    : (r: Result<(seq<string>, Option<real>)>)
    ensures r.Success? ==> (|r.value.0| == 1 <==> r.value.1.None?) && (|r.value.0| == 0 <==> r.value.1.Some?)
    ensures fetched.Failure? ==> r == Success((["----Error fetching price for " + p.name + ": " + fetched.error + " | color=red"], None))
    ensures fetched.Success? && fetched.value(Selector(p)).None? ==>
              r == Success((["----Price element not found for " + p.name + " | color=red"], None))
    ensures fetched.Success? && fetched.value(Selector(p)).Some? ==>
              (r.Success? <==> PyFloat(PriceText(fetched.value(Selector(p)).value), other).Some?)
    ensures fetched.Success? && fetched.value(Selector(p)).Some? && r.Success? ==>
              r.value == ([], PyFloat(PriceText(fetched.value(Selector(p)).value), other))
  {
    match fetched
    case Failure(e) => Success((["----Error fetching price for " + p.name + ": " + e + " | color=red"], None))
    case Success(select) =>
      match select(Selector(p))
      case None => Success((["----Price element not found for " + p.name + " | color=red"], None))
      case Some(text) =>
        match PyFloat(PriceText(text), other)
        case None => Failure("ValueError: could not convert string to float")
        case Some(price) => Success(([], Some(price)))
  }

  /** A price element reading `$d.cc` gives its amount. */
  lemma {:induction false} GetPriceDollars(p: Product, select: string -> Option<string>, other: string -> Option<real>, d: nat, c: nat)
    requires c < 100
    requires select(Selector(p)) == Some("$" + (NatToString(d) + "." + Pad2(c)))
    ensures GetPrice(p, Success(select), other).Success?
    ensures GetPrice(p, Success(select), other).value.1.Some?
    ensures GetPrice(p, Success(select), other).value.1.value == d as real + c as real / 100.0
  {
    DecimalOfCents(d, c);
    GetPriceDecimal(p, select, other, NatToString(d) + "." + Pad2(c));
  }

  /** A price element reading `$` and a decimal text gives the number the
      text denotes. */
  lemma {:induction false} GetPriceDecimal(p: Product, select: string -> Option<string>, other: string -> Option<real>, t: string)
    requires IsDecimal(t)
    requires select(Selector(p)) == Some("$" + t)
    ensures GetPrice(p, Success(select), other) == Success(([], Some(DecimalOf(t))))
  {
    PriceTextDollar(t);
    PyFloatDecimal(t, other);
  }

  /** `float` reads a decimal text as the number it denotes. */
  lemma {:induction false} PyFloatDecimal(s: string, other: string -> Option<real>)
    requires IsDecimal(s)
    ensures PyFloat(s, other) == Some(DecimalOf(s))
  {
  }

  /** A leading `$` is the only thing removed from a decimal text. */
  lemma {:induction false} PriceTextDollar(t: string)
    requires DigitsAndDots(t) && |t| > 0
    ensures PriceText("$" + t) == t
  {
    var text := "$" + t;
    assert text[|text| - 1] == t[|t| - 1];
    assert IsDigit(t[|t| - 1]) || t[|t| - 1] == '.';
    assert Strip(text) == text;
    NoNoise(t);
    assert text[1..] == t;
    assert DropChars(text, {'$'}) == t;
  }

  /** A decimal text holds neither `$` nor `,`. */
  lemma {:induction false} NoNoise(t: string)
    requires DigitsAndDots(t)
    ensures DropChars(t, {'$'}) == t && DropChars(t, {','}) == t
  {
    forall i | 0 <= i < |t| ensures t[i] !in {'$'} && t[i] !in {','} {
      assert IsDigit(t[i]) || t[i] == '.';
    }
  }

  /** The relative change of `price` against `msrp`, in percent. */
  function Percent(price: real, msrp: real): real
    requires msrp != 0.0
  {
    (price - msrp) / msrp * 100.0
  }

  /** The change log and colour of `calculate_price_change`. */
  datatype Change = Change(log: string, color: string)

  /** `calculate_price_change`. `money` renders `:.2f`. An MSRP of 0 with a
      different price divides by zero (Failure); a `Product` never has one. */
  function PriceChange(price: real, msrp: real, money: real -> string): (r: Result<Change>)
    ensures r.Failure? <==> msrp == 0.0 && price != msrp
    ensures r.Success? ==> (r.value.color == "green" <==> price < msrp)
    ensures r.Success? ==> (r.value.color == "red" <==> price > msrp)
    ensures r.Success? ==> (r.value.color == "blue" <==> price == msrp)
    ensures price == msrp ==> r == Success(Change("⚖️", "blue"))
    ensures r.Success? && price < msrp ==>
              r.value.log == " 📉 $" + money(price - msrp) + " (" + money(-Percent(price, msrp)) + "%) | color=green"
    ensures r.Success? && price > msrp ==>
              r.value.log == " 📈 $" + money(price - msrp) + " (" + money(Percent(price, msrp)) + "%) | color=red"
  {
    if price != msrp && msrp == 0.0 then Failure("ZeroDivisionError: float division by zero")
    else if price < msrp then
      Success(Change(" 📉 $" + money(price - msrp) + " (" + money(-Percent(price, msrp)) + "%) | color=green", "green"))
    else if price > msrp then
      Success(Change(" 📈 $" + money(price - msrp) + " (" + money(Percent(price, msrp)) + "%) | color=red", "red"))
    else Success(Change("⚖️", "blue"))
  }

  /** The printed percentage is positive on both sides of a positive MSRP:
      below it the change is negated, above it it is not. */
  lemma {:induction false} PercentShownPositive(price: real, msrp: real)
    requires msrp > 0.0 && price != msrp
    ensures price < msrp ==> -Percent(price, msrp) > 0.0
    ensures price > msrp ==> Percent(price, msrp) > 0.0
  {
    var q := (price - msrp) / msrp;
    assert q * msrp == price - msrp;
    if price < msrp {
      assert q < 0.0;
    } else {
      assert q > 0.0;
    }
  }

  /** A validated product's comparison never divides by zero. */
  lemma {:induction false} ProductChangeDefined(p: Product, price: real, money: real -> string)
    requires MakeProduct(p.name, p.url, p.msrp, p.selector, p.variantId) == Success(p)
    ensures PriceChange(price, p.msrp, money).Success?
  {
  }

  /** The block `main` prints for one product: nothing without a price. */
  function Block(p: Product, price: Option<real>, money: real -> string): (r: Result<seq<string>>)
    ensures price.None? ==> r == Success([])
    ensures price.Some? && p.msrp > 0.0 ==> r.Success? && |r.value| == 5
    ensures r.Success? && price.Some? ==>
              |r.value| == 5 && r.value[1] == "--Current Price: $" + money(price.value) + " | color=blue"
              && r.value[3] == "--Open " + p.name + " Page | href=" + p.url
  {
    match price
    case None => Success([])
    case Some(x) =>
      match PriceChange(x, p.msrp, money)
      case Failure(e) => Failure(e)
      case Success(c) =>
        Success([p.name + " " + c.log + " | color=" + c.color,
                 "--Current Price: $" + money(x) + " | color=blue",
                 "--MSRP: $" + money(p.msrp) + " | color=blue",
                 "--Open " + p.name + " Page | href=" + p.url,
                 "-----"])
  }

  /** What one product contributes to the menu: `get_price`'s warning, or the
      product's block. A failure ends the script. */
  function Report(p: Product, fetched: Result<string -> Option<string>>, other: string -> Option<real>,
                  money: real -> string): (r: Result<seq<string>>)
  {
    match GetPrice(p, fetched, other)
    case Failure(e) => Failure(e)
    case Success(got) =>
      match Block(p, got.1, money)
      case Failure(e) => Failure(e)
      case Success(block) => Success(got.0 + block)
  }

  /** A product is shown with its block exactly when a price was read; with no
      price only the one warning line appears. */
  lemma {:induction false} ReportShape(p: Product, fetched: Result<string -> Option<string>>, other: string -> Option<real>,
                    money: real -> string)
    requires p.msrp > 0.0
    requires GetPrice(p, fetched, other).Success?
    ensures Report(p, fetched, other, money).Success?
    ensures GetPrice(p, fetched, other).value.1.None? <==> |Report(p, fetched, other, money).value| == 1
    ensures GetPrice(p, fetched, other).value.1.Some? <==> |Report(p, fetched, other, money).value| == 5
  {
  }

  /** The lines `main` prints before the products. */
  function MenuHeader(stamp: string): seq<string> {
    ["$ | color=blue", "---", "Last update: " + stamp]
  }

  /** `main`: the menu-bar line, the time stamp, then each product's report
      in order. `fetches[i]` is the page of `products[i]`; `stamp` is the
      formatted clock time. A product whose report raises ends the script
      after the lines already printed. */
  function Menu(stamp: string, products: seq<Product>, fetches: seq<Result<string -> Option<string>>>,
                other: string -> Option<real>, money: real -> string): (r: Output)
    requires |fetches| == |products|
    ensures |r.lines| >= 3 && r.lines[..3] == MenuHeader(stamp)
  {
    PrintBlocks(Output(MenuHeader(stamp), None), Reports(products, fetches, other, money))
  }

  /** The report of each product, in order. */
  function Reports(products: seq<Product>, fetches: seq<Result<string -> Option<string>>>,
                   other: string -> Option<real>, money: real -> string): (r: seq<Result<seq<string>>>)
    requires |fetches| == |products|
    ensures |r| == |products|
    ensures forall i :: 0 <= i < |r| ==> r[i] == Report(products[i], fetches[i], other, money)
  {
    seq(|products|, i requires 0 <= i < |products| => Report(products[i], fetches[i], other, money))
  }

  /** `k` is the first product whose report raises (or the number of products
      when none does): the script prints the header and the reports of the
      products before `k`, in order, and then ends with that product's error. */
  lemma {:induction false} MenuUpTo(stamp: string, products: seq<Product>, fetches: seq<Result<string -> Option<string>>>,
                 other: string -> Option<real>, money: real -> string, k: nat)
    requires |fetches| == |products| && k <= |products|
    requires forall i :: 0 <= i < k ==> Report(products[i], fetches[i], other, money).Success?
    requires k < |products| ==> Report(products[k], fetches[k], other, money).Failure?
    ensures var r := Menu(stamp, products, fetches, other, money);
      && r.lines == MenuHeader(stamp) + Flatten(Printed(Reports(products, fetches, other, money)[..k]))
      && (k < |products| ==> r.crash == Some(Report(products[k], fetches[k], other, money).error))
      && (k == |products| ==> r.crash.None?)
  {
    PrintBlocksUpTo(MenuHeader(stamp), Reports(products, fetches, other, money), k);
  }
}

/** The Micro Center top-deals plugin (microcenter_deals_uv.6hr.py): price
    parsing, the per-link deal rules of `parse_deals`, the deal's discount
    and colour, and the sorted menu of `format_output`. Prices are exact
    reals; the `:.2f` and `:.0f` renderings are parameters. */
module Microcenter {
  import opened Wrappers
  import opened Text
  import opened Headlines
  import opened Prices
  import Sorting

  const SiteUrl: string := "https://www.microcenter.com"
  const DealsUrl: string := "https://www.microcenter.com/search/search_results.aspx?fq=Micro+Center+Deals:Top+Deals"

  /** Longest stored name, and the display width of a name. */
  const NameLimit: nat := 100
  const DisplayLimit: nat := 60

  /** The characters `parse_price` keeps. */
  const PriceChars: set<char> := Digits + {'.'}

  // ---------------------------------------------------------------------------
  // parse_price
  // ---------------------------------------------------------------------------

  /** The text `parse_price` hands to `float`: its digits and dots. */
  function Cleaned(text: string): (r: string)
    ensures DigitsAndDots(r) && |r| <= |text|
  {
    var r := KeepChars(text, PriceChars);
    assert forall i :: 0 <= i < |r| ==> r[i] in PriceChars;
    forall i | 0 <= i < |r| ensures IsDigit(r[i]) || r[i] == '.' {
      DigitsAreDigits(r[i]);
    }
    r
  }

  /** `parse_price`: None for empty text, and None exactly when what is left
      after dropping every character but digits and dots is not a number. */
  function ParsePrice(text: string): (r: Option<real>)
    ensures r.None? <==> text == "" || !HasDigit(Cleaned(text)) || !AtMostOneDot(Cleaned(text))
    ensures r.Some? ==> r.value >= 0.0 && r.value == DecimalOf(Cleaned(text))
  {
    if text == "" then None else FloatOfDigits(Cleaned(text))
  }

  /** A price written `$d.cc` parses to its amount. */
  lemma {:induction false} ParsePriceDollars(d: nat, c: nat)
    requires c < 100
    ensures ParsePrice("$" + (NatToString(d) + "." + Pad2(c))).Some?
    ensures ParsePrice("$" + (NatToString(d) + "." + Pad2(c))).value == d as real + c as real / 100.0
  {
    DecimalOfCents(d, c);
    ParsePriceDecimal(NatToString(d) + "." + Pad2(c));
  }

  /** A `$` ahead of a decimal text is dropped, and the text is read as the
      number it denotes. */
  lemma {:induction false} ParsePriceDecimal(t: string)
    requires IsDecimal(t)
    ensures ParsePrice("$" + t) == Some(DecimalOf(t))
  {
    assert forall i :: 0 <= i < |t| ==> t[i] in PriceChars by {
      forall i | 0 <= i < |t| ensures t[i] in PriceChars {
        assert IsDigit(t[i]) || t[i] == '.';
        DigitsAreDigits(t[i]);
      }
    }
    assert ("$" + t)[1..] == t;
    assert Cleaned("$" + t) == t;
  }

  // ---------------------------------------------------------------------------
  // The `\$[\d,]+\.?\d*` search
  // ---------------------------------------------------------------------------

  predicate DigitOrComma(c: char) {
    IsDigit(c) || c == ','
  }

  /** A match can start at `i`: a `$` followed by a digit or a comma. */
  predicate MoneyStart(s: string, i: nat) {
    i + 1 < |s| && s[i] == '$' && DigitOrComma(s[i + 1])
  }

  /** Length of the longest prefix of digits (and commas, when allowed). */
  function Run(s: string, commas: bool): (n: nat)
    ensures n <= |s|
    ensures forall k :: 0 <= k < n ==> IsDigit(s[k]) || (commas && s[k] == ',')
    ensures n < |s| ==> !(IsDigit(s[n]) || (commas && s[n] == ','))
  {
    if |s| > 0 && (IsDigit(s[0]) || (commas && s[0] == ',')) then 1 + Run(s[1..], commas) else 0
  }

  /** The greedy match of `[\d,]+\.?\d*` at the start of `rest`, after a `$`. */
  function MoneyFrom(rest: string): (m: string)
    requires |rest| > 0 && DigitOrComma(rest[0])
    ensures |m| >= 2 && m[0] == '$' && DigitOrComma(m[1])
    ensures forall k :: 1 <= k < |m| ==> DigitOrComma(m[k]) || m[k] == '.'
    ensures forall k, l :: 1 <= k < l < |m| && m[k] == '.' ==> m[l] != '.'
  {
    var n := Run(rest, true);
    var after := rest[n..];
    var tail := if |after| > 0 && after[0] == '.' then "." + after[1..][..Run(after[1..], false)] else "";
    var m := "$" + rest[..n] + tail;
    assert forall k :: 1 <= k <= n ==> m[k] == rest[k - 1];
    assert forall k :: n + 1 <= k < |m| ==> m[k] == tail[k - n - 1];
    m
  }

  /** The greedy match starting at `i`. */
  function MoneyAt(s: string, i: nat): (m: string)
    requires MoneyStart(s, i)
  {
    MoneyFrom(s[i + 1..])
  }

  /** A match shaped like the pattern: `$`, a digit or comma, then digits,
      commas and at most one dot. */
  predicate MoneyShaped(m: string) {
    && |m| >= 2 && m[0] == '$'
    && (forall k :: 1 <= k < |m| ==> DigitOrComma(m[k]) || m[k] == '.')
    && (forall k, l :: 1 <= k < l < |m| && m[k] == '.' ==> m[l] != '.')
  }

  /** `re.search(r'\$[\d,]+\.?\d*', s)`: the first match, if any. */
  function SearchMoney(s: string): (r: Option<string>)
    ensures r.Some? ==> MoneyShaped(r.value)
    decreases |s|
  {
    if |s| < 2 then None
    else if MoneyStart(s, 0) then Some(MoneyAt(s, 0))
    else SearchMoney(s[1..])
  }

  /** The search finds the match at the first `$` followed by a digit or a
      comma, and nothing when there is none. */
  lemma {:induction false} SearchMoneyFirst(s: string)
    ensures SearchMoney(s).None? <==> forall i :: 0 <= i < |s| ==> !MoneyStart(s, i)
    ensures SearchMoney(s).Some? ==>
              exists i :: 0 <= i < |s| && MoneyStart(s, i) && SearchMoney(s).value == MoneyAt(s, i)
                          && forall j :: 0 <= j < i ==> !MoneyStart(s, j)
    decreases |s|
  {
    if |s| >= 2 && !MoneyStart(s, 0) {
      SearchMoneyFirst(s[1..]);
      SearchMoneyStep(s);
    } else if |s| >= 2 {
      assert SearchMoney(s).value == MoneyAt(s, 0);
    }
  }

  /** The search's answer for `s[1..]` carries over to `s` when no match
      starts at 0. */
  lemma {:induction false} SearchMoneyStep(s: string)
    requires |s| >= 2 && !MoneyStart(s, 0)
    requires SearchMoney(s[1..]).None? <==> forall i :: 0 <= i < |s[1..]| ==> !MoneyStart(s[1..], i)
    requires SearchMoney(s[1..]).Some? ==>
              exists i :: 0 <= i < |s[1..]| && MoneyStart(s[1..], i) && SearchMoney(s[1..]).value == MoneyAt(s[1..], i)
                          && forall j :: 0 <= j < i ==> !MoneyStart(s[1..], j)
    ensures SearchMoney(s).None? <==> forall i :: 0 <= i < |s| ==> !MoneyStart(s, i)
    ensures SearchMoney(s).Some? ==>
              exists i :: 0 <= i < |s| && MoneyStart(s, i) && SearchMoney(s).value == MoneyAt(s, i)
                          && forall j :: 0 <= j < i ==> !MoneyStart(s, j)
  {
    var t := s[1..];
    assert SearchMoney(s) == SearchMoney(t);
    MoneyStartShift(s);
    if SearchMoney(t).Some? {
      var i :| 0 <= i < |t| && MoneyStart(t, i) && SearchMoney(t).value == MoneyAt(t, i)
               && forall j :: 0 <= j < i ==> !MoneyStart(t, j);
      assert MoneyStart(s, i + 1);
      assert t[i + 1..] == s[i + 2..];
      assert MoneyAt(s, i + 1) == MoneyAt(t, i);
      forall j | 0 <= j < i + 1 ensures !MoneyStart(s, j) {
        if j > 0 { assert !MoneyStart(t, j - 1); }
      }
    } else {
      forall j | 0 <= j < |s| ensures !MoneyStart(s, j) {
        if j > 0 { assert !MoneyStart(t, j - 1); }
      }
    }
  }

  /** A match starts at `i + 1` in `s` exactly when it starts at `i` in `s[1..]`. */
  lemma {:induction false} MoneyStartShift(s: string)
    requires |s| > 0
    ensures forall i :: 0 <= i < |s| - 1 ==> (MoneyStart(s, i + 1) <==> MoneyStart(s[1..], i))
  {
  }

  /** A match is always shaped like a price: it parses exactly when it holds a
      digit (a match of commas only does not). */
  lemma {:induction false} MatchParses(m: string)
    requires MoneyShaped(m)
    ensures ParsePrice(m).Some? <==> exists k :: 1 <= k < |m| && IsDigit(m[k])
  {
    var c := Cleaned(m);
    var t := m[1..];
    assert m == [m[0]] + t;
    assert '$' !in PriceChars;
    assert c == KeepChars(t, PriceChars);
    KeepCharsDropsCommas(t);
    assert AtMostOneDot(c) by {
      AtMostOneDotKept(t);
    }
    if exists k :: 1 <= k < |m| && IsDigit(m[k]) {
      var k :| 1 <= k < |m| && IsDigit(m[k]);
      DigitsAreDigits(t[k - 1]);
      KeepCharsKeeps(t, k - 1);
    } else {
      assert !HasDigit(c) by {
        if HasDigit(c) {
          var k :| 0 <= k < |c| && IsDigit(c[k]);
          KeepCharsFrom(t, k);
        }
      }
    }
  }

  lemma {:induction false} KeepCharsDropsCommas(t: string)
    ensures forall k :: 0 <= k < |KeepChars(t, PriceChars)| ==> KeepChars(t, PriceChars)[k] != ','
  {
  }

  /** A kept character comes from the input. */
  lemma {:induction false} KeepCharsFrom(t: string, k: nat)
    requires k < |KeepChars(t, PriceChars)|
    ensures KeepChars(t, PriceChars)[k] in t
    decreases |t|
  {
    if t[0] in PriceChars {
      if k > 0 { KeepCharsFrom(t[1..], k - 1); }
    } else {
      KeepCharsFrom(t[1..], k);
    }
  }

  /** A character of the input that is kept appears in the result. */
  lemma {:induction false} KeepCharsKeeps(t: string, k: nat)
    requires k < |t| && t[k] in PriceChars
    ensures t[k] in KeepChars(t, PriceChars)
    decreases |t|
  {
    if k > 0 {
      KeepCharsKeeps(t[1..], k - 1);
    }
  }

  /** Filtering characters never adds a dot. */
  lemma {:induction false} AtMostOneDotKept(t: string)
    requires AtMostOneDot(t)
    ensures AtMostOneDot(KeepChars(t, PriceChars))
    decreases |t|
  {
    if |t| > 0 {
      var rest := t[1..];
      assert AtMostOneDot(rest) by {
        forall i, j | 0 <= i < j < |rest| && rest[i] == '.' ensures rest[j] != '.' {
          assert t[i + 1] == '.';
        }
      }
      AtMostOneDotKept(rest);
      var kr := KeepChars(rest, PriceChars);
      if t[0] == '.' {
        assert '.' !in rest;
        assert '.' !in kr by {
          if '.' in kr {
            var j :| 0 <= j < |kr| && kr[j] == '.';
            KeepCharsFrom(rest, j);
          }
        }
        var r := KeepChars(t, PriceChars);
        assert r == ['.'] + kr;
        assert forall j :: 0 < j < |r| ==> r[j] == kr[j - 1];
      }
    }
  }

  // ---------------------------------------------------------------------------
  // Savings and original price
  // ---------------------------------------------------------------------------

  /** Python truthiness of an optional number: present and not zero. */
  predicate Truthy(x: Option<real>) {
    x.Some? && x.value != 0.0
  }

  /** The original price and savings found next to a deal. */
  datatype Derived = Derived(original: Option<real>, savings: Option<real>)

  /** The text around a deal's link in its `<li>`: the text of the element
      holding a `Save $` string, that of the element holding an `Original
      price` string, and whether an in-store-only marker is present. */
  datatype Parent = Parent(saveText: Option<string>, originalText: Option<string>, inStore: bool)

  /** The `Save $` rule. A match that is not a number makes `current +
      savings` raise a TypeError (Failure), and the link is skipped. */
  function FromSave(current: real, saveText: Option<string>): (r: Result<Derived>)
    ensures r.Success? && r.value.savings.Some? ==> r.value.original == Some(current + r.value.savings.value)
    ensures r.Success? && r.value.savings.None? ==> r.value == Derived(None, None)
  {
    match saveText
    case None => Success(Derived(None, None))
    case Some(t) =>
      match SearchMoney(t)
      case None => Success(Derived(None, None))
      case Some(m) =>
        match ParsePrice(m)
        case None => Failure("TypeError: unsupported operand type(s) for +: 'float' and 'NoneType'")
        case Some(s) => Success(Derived(Some(current + s), Some(s)))
  }

  /** The `Original price` rule, consulted only when no original price was
      derived; it recomputes the savings when the original is a non-zero
      number. */
  function FromOriginal(current: real, d: Derived, originalText: Option<string>): (r: Derived)
    ensures Truthy(d.original) || originalText.None? ==> r == d
  {
    if originalText.Some? && !Truthy(d.original) then
      match SearchMoney(originalText.value)
      case None => d
      case Some(m) =>
        var o := ParsePrice(m);
        if Truthy(o) && current != 0.0 then Derived(o, Some(o.value - current)) else Derived(o, d.savings)
    else d
  }

  /** The price details `parse_deals` reads from the link's `<li>`, and the
      in-store flag; no `<li>` means none of them. */
  function Details(current: real, parent: Option<Parent>): (r: Result<(Derived, bool)>)
    ensures parent.None? ==> r == Success((Derived(None, None), false))
  {
    match parent
    case None => Success((Derived(None, None), false))
    case Some(p) =>
      match FromSave(current, p.saveText)
      case Failure(e) => Failure(e)
      case Success(d) => Success((FromOriginal(current, d, p.originalText), p.inStore))
  }

  /** Found savings fix the original price at current + savings, and the
      `Original price` text is then ignored. */
  lemma {:induction false} SavingsWin(current: real, p: Parent, s: real)
    requires current > 0.0 && s >= 0.0
    requires FromSave(current, p.saveText) == Success(Derived(Some(current + s), Some(s)))
    ensures Details(current, Some(p)) == Success((Derived(Some(current + s), Some(s)), p.inStore))
  {
  }

  /** Without found savings, a non-zero original price gives savings =
      original - current. */
  lemma {:induction false} OriginalGivesSavings(current: real, p: Parent, m: string, o: real)
    requires current > 0.0 && o != 0.0
    requires FromSave(current, p.saveText) == Success(Derived(None, None))
    requires p.originalText.Some? && SearchMoney(p.originalText.value) == Some(m) && ParsePrice(m) == Some(o)
    ensures Details(current, Some(p)) == Success((Derived(Some(o), Some(o - current)), p.inStore))
  {
  }

  // ---------------------------------------------------------------------------
  // Deals
  // ---------------------------------------------------------------------------

  /** A `MicrocenterDeal`. */
  datatype Deal = Deal(name: string, sku: string, current: real, original: Option<real>, savings: Option<real>,
                       url: string, brand: Option<string>, inStoreOnly: bool)

  /** `discount_percentage`: only for a positive original price. */
  function DiscountPercentage(d: Deal): (r: Option<real>)
    ensures r.Some? <==> d.original.Some? && d.original.value > 0.0
    ensures r.Some? ==> r.value * d.original.value == (d.original.value - d.current) * 100.0
  {
    if Truthy(d.original) && d.original.value > 0.0 then
      Some((d.original.value - d.current) / d.original.value * 100.0)
    else None
  }

  /** `color`: green from a 20% discount, blue from 10%, otherwise nothing. */
  function Color(d: Deal): (r: string)
    ensures r == "green" <==> DiscountPercentage(d).Some? && DiscountPercentage(d).value >= 20.0
    ensures r == "blue" <==> DiscountPercentage(d).Some? && 10.0 <= DiscountPercentage(d).value < 20.0
    ensures r == "" <==> DiscountPercentage(d).None? || DiscountPercentage(d).value < 10.0
  {
    match DiscountPercentage(d)
    case None => ""
    case Some(p) => if p >= 20.0 then "green" else if p >= 10.0 then "blue" else ""
  }

  /** One product link's attributes: `data-id`, `data-name`, `data-price`,
      `data-brand` and `href` (the first three are always present), and the
      enclosing `<li>`, if any. */
  datatype Link = Link(sku: string, name: string, price: string, brand: Option<string>, href: Option<string>,
                       parent: Option<Parent>)

  /** The name with its two escaped entities decoded. */
  function Unescape(name: string): string {
    ReplaceAll(ReplaceAll(name, "&quot;", "\""), "&amp;", "&")
  }

  /** The URL rule: a sign-in redirect becomes the product page, a relative
      link is completed, anything else is kept. */
  function CleanUrl(url: string, sku: string): (r: string)
    ensures url == "" <==> r == ""
    ensures url != "" && Contains(url, "auth/signin") ==> r == SiteUrl + "/product/" + sku + "/"
    ensures url != "" && !Contains(url, "auth/signin") && !IsAbsolute(url) ==> r == SiteUrl + url
    ensures !Contains(url, "auth/signin") && IsAbsolute(url) ==> r == url
    ensures url != "" ==> IsAbsolute(r)
  {
    if url != "" && Contains(url, "auth/signin") then
      var r := SiteUrl + "/product/" + sku + "/";
      assert r[..4] == "http";
      r
    else if url != "" && !IsAbsolute(url) then
      var r := SiteUrl + url;
      assert r[..4] == "http";
      r
    else url
  }

  /** The deal one link gives, or None when `parse_deals` skips it: a missing
      name, URL, SKU or price, a zero price, or a raising savings rule. */
  function ReadLink(l: Link): (r: Option<Deal>)
    ensures r.Some? ==> r.value.sku == l.sku && l.sku != ""
    ensures r.Some? ==> r.value.current > 0.0 && r.value.name != "" && |r.value.name| <= NameLimit
    ensures r.Some? ==> r.value.url == CleanUrl(l.href.GetOr(""), l.sku) && IsAbsolute(r.value.url)
    ensures Unescape(l.name) == "" || l.href.GetOr("") == "" || l.sku == "" ==> r.None?
    ensures ParsePrice(l.price).None? || ParsePrice(l.price) == Some(0.0) ==> r.None?
  {
    var name := Unescape(l.name);
    var current := ParsePrice(l.price);
    var brand := l.brand.GetOr("");
    var url := CleanUrl(l.href.GetOr(""), l.sku);
    if !(name != "" && url != "" && Truthy(current) && l.sku != "") then None
    else
      match Details(current.value, l.parent)
      case Failure(_) => None
      case Success(info) =>
        Some(Deal(Take(name, NameLimit), l.sku, current.value, info.0.original, info.0.savings, url,
                  if brand == "" then None else Some(brand), info.1))
  }

  /** One link of the `parse_deals` loop, with `read` the per-link rule: a
      SKU already seen is skipped; otherwise the SKU is marked seen, whether
      or not the link gives a deal. */
  function Step(acc: (seq<Deal>, set<string>), l: Link, read: Link -> Option<Deal>): (r: (seq<Deal>, set<string>))
    ensures r.1 == acc.1 + {l.sku}
    ensures |r.0| <= |acc.0| + 1
  {
    if l.sku in acc.1 then acc
    else
      var d := read(l);
      (acc.0 + (if d.Some? then [d.value] else []), acc.1 + {l.sku})
  }

  /** The `parse_deals` loop over the product links, in page order: the deals
      and the set of SKUs seen. */
  function Dedup(links: seq<Link>, read: Link -> Option<Deal>): (r: (seq<Deal>, set<string>))
    ensures |r.0| <= |links|
    decreases |links|
  {
    if |links| == 0 then ([], {})
    else Step(Dedup(links[..|links| - 1], read), links[|links| - 1], read)
  }

  /** `parse_deals`. */
  function ParseDeals(links: seq<Link>): (r: seq<Deal>)
    ensures |r| <= |links|
  {
    Dedup(links, ReadLink).0
  }

  /** The reader keeps the link's SKU. */
  ghost predicate KeepsSku(read: Link -> Option<Deal>) {
    forall l :: read(l).Some? ==> read(l).value.sku == l.sku
  }

  /** The SKUs of the links. */
  function Skus(links: seq<Link>): set<string> {
    set i | 0 <= i < |links| :: links[i].sku
  }

  lemma {:induction false} SkusSnoc(links: seq<Link>)
    requires |links| > 0
    ensures Skus(links) == Skus(links[..|links| - 1]) + {links[|links| - 1].sku}
  {
    var init := links[..|links| - 1];
    forall x | x in Skus(links) ensures x in Skus(init) + {links[|links| - 1].sku} {
      var i :| 0 <= i < |links| && links[i].sku == x;
      if i < |init| { assert init[i].sku == x; }
    }
    forall x | x in Skus(init) ensures x in Skus(links) {
      var i :| 0 <= i < |init| && init[i].sku == x;
      assert links[i].sku == x;
    }
  }

  /** The seen-set is every SKU of the links, every deal's SKU is in it, and
      no two deals share a SKU. */
  lemma {:induction false} DedupDistinct(links: seq<Link>, read: Link -> Option<Deal>)
    requires KeepsSku(read)
    ensures Dedup(links, read).1 == Skus(links)
    ensures forall d :: d in Dedup(links, read).0 ==> d.sku in Skus(links)
    ensures forall i, j :: 0 <= i < j < |Dedup(links, read).0| ==> Dedup(links, read).0[i].sku != Dedup(links, read).0[j].sku
    decreases |links|
  {
    if |links| > 0 {
      var init := links[..|links| - 1];
      var l := links[|links| - 1];
      DedupDistinct(init, read);
      SkusSnoc(links);
      var acc := Dedup(init, read);
      if l.sku !in acc.1 && read(l).Some? {
        var ds := acc.0 + [read(l).value];
        assert forall i :: 0 <= i < |acc.0| ==> ds[i] == acc.0[i];
      } else if l.sku !in acc.1 {
        assert acc.0 + [] == acc.0;
      }
    }
  }

  /** `i` is the first link with its SKU. */
  predicate FirstOfSku(links: seq<Link>, i: int) {
    0 <= i < |links| && forall j :: 0 <= j < i ==> links[j].sku != links[i].sku
  }

  lemma {:induction false} FirstOfSkuInit(links: seq<Link>, i: int)
    requires 0 <= i < |links| - 1
    ensures FirstOfSku(links, i) <==> FirstOfSku(links[..|links| - 1], i)
  {
    assert forall j :: 0 <= j <= i ==> links[j] == links[..|links| - 1][j];
  }

  /** First occurrence wins: every deal is what the first link with its SKU
      gives, and every first link that gives a deal has it listed. */
  lemma {:induction false} DedupFirstWins(links: seq<Link>, read: Link -> Option<Deal>)
    requires KeepsSku(read)
    ensures forall d :: d in Dedup(links, read).0 ==> exists i :: FirstOfSku(links, i) && read(links[i]) == Some(d)
    ensures forall i :: FirstOfSku(links, i) && read(links[i]).Some? ==> read(links[i]).value in Dedup(links, read).0
    decreases |links|
  {
    if |links| > 0 {
      var init := links[..|links| - 1];
      DedupFirstWins(init, read);
      LastFirstIffUnseen(links, read);
      FromFirstStep(links, read);
      FirstsListedStep(links, read);
    }
  }

  /** Every deal is read from the first link with its SKU. */
  ghost predicate FromFirst(links: seq<Link>, read: Link -> Option<Deal>, deals: seq<Deal>) {
    forall d :: d in deals ==> exists i :: FirstOfSku(links, i) && read(links[i]) == Some(d)
  }

  /** Every first link that reads as a deal has it listed. */
  ghost predicate FirstsListed(links: seq<Link>, read: Link -> Option<Deal>, deals: seq<Deal>) {
    forall i :: FirstOfSku(links, i) && read(links[i]).Some? ==> read(links[i]).value in deals
  }

  /** The last link is the first with its SKU exactly when the SKU is unseen. */
  lemma {:induction false} LastFirstIffUnseen(links: seq<Link>, read: Link -> Option<Deal>)
    requires KeepsSku(read) && |links| > 0
    ensures FirstOfSku(links, |links| - 1) <==> links[|links| - 1].sku !in Dedup(links[..|links| - 1], read).1
  {
    var init := links[..|links| - 1];
    DedupDistinct(init, read);
    if links[|links| - 1].sku in Dedup(init, read).1 {
      var j :| 0 <= j < |init| && init[j].sku == links[|links| - 1].sku;
      assert links[j].sku == init[j].sku;
    }
  }

  lemma {:induction false} FromFirstStep(links: seq<Link>, read: Link -> Option<Deal>)
    requires |links| > 0
    requires FromFirst(links[..|links| - 1], read, Dedup(links[..|links| - 1], read).0)
    requires FirstOfSku(links, |links| - 1) <==> links[|links| - 1].sku !in Dedup(links[..|links| - 1], read).1
    ensures FromFirst(links, read, Dedup(links, read).0)
  {
    var n := |links| - 1;
    var init := links[..n];
    var acc := Dedup(init, read);
    forall d | d in Dedup(links, read).0
      ensures exists i :: FirstOfSku(links, i) && read(links[i]) == Some(d)
    {
      if d in acc.0 {
        var i :| FirstOfSku(init, i) && read(init[i]) == Some(d);
        FirstOfSkuInit(links, i);
        assert links[i] == init[i];
      } else {
        assert FirstOfSku(links, n) && read(links[n]) == Some(d);
      }
    }
  }

  lemma {:induction false} FirstsListedStep(links: seq<Link>, read: Link -> Option<Deal>)
    requires |links| > 0
    requires FirstsListed(links[..|links| - 1], read, Dedup(links[..|links| - 1], read).0)
    requires FirstOfSku(links, |links| - 1) <==> links[|links| - 1].sku !in Dedup(links[..|links| - 1], read).1
    ensures FirstsListed(links, read, Dedup(links, read).0)
  {
    forall i | FirstOfSku(links, i) && read(links[i]).Some?
      ensures read(links[i]).value in Dedup(links, read).0
    {
      if i < |links| - 1 {
        EarlierFirstListed(links, read, i);
        DedupGrows(links, read, read(links[i]).value);
      } else {
        LastFirstListed(links, read);
      }
    }
  }

  /** A longer pass keeps the deals of the shorter one. */
  lemma {:induction false} DedupGrows(links: seq<Link>, read: Link -> Option<Deal>, d: Deal)
    requires |links| > 0 && d in Dedup(links[..|links| - 1], read).0
    ensures d in Dedup(links, read).0
  {
    var acc := Dedup(links[..|links| - 1], read);
    assert Dedup(links, read) == Step(acc, links[|links| - 1], read);
  }

  /** The last link, when first with its SKU, has its deal listed. */
  lemma {:induction false} LastFirstListed(links: seq<Link>, read: Link -> Option<Deal>)
    requires |links| > 0 && FirstOfSku(links, |links| - 1) && read(links[|links| - 1]).Some?
    requires FirstOfSku(links, |links| - 1) <==> links[|links| - 1].sku !in Dedup(links[..|links| - 1], read).1
    ensures read(links[|links| - 1]).value in Dedup(links, read).0
  {
    var acc := Dedup(links[..|links| - 1], read);
    var d := read(links[|links| - 1]).value;
    assert Dedup(links, read) == Step(acc, links[|links| - 1], read);
    assert Dedup(links, read).0 == acc.0 + [d];
  }

  /** A first link before the last one was listed by the shorter pass. */
  lemma {:induction false} EarlierFirstListed(links: seq<Link>, read: Link -> Option<Deal>, i: int)
    requires 0 <= i < |links| - 1 && FirstOfSku(links, i) && read(links[i]).Some?
    requires FirstsListed(links[..|links| - 1], read, Dedup(links[..|links| - 1], read).0)
    ensures read(links[i]).value in Dedup(links[..|links| - 1], read).0
  {
    var init := links[..|links| - 1];
    FirstOfSkuInit(links, i);
    assert links[i] == init[i];
  }

  lemma {:induction false} ReadLinkKeepsSku()
    ensures KeepsSku(ReadLink)
  {
  }

  /** `parse_deals` returns valid deals with pairwise distinct SKUs, each the
      deal of the first link with its SKU, and misses no such deal. */
  lemma {:induction false} ParseDealsFacts(links: seq<Link>)
    ensures forall i, j :: 0 <= i < j < |ParseDeals(links)| ==> ParseDeals(links)[i].sku != ParseDeals(links)[j].sku
    ensures forall d :: d in ParseDeals(links) ==> exists i :: FirstOfSku(links, i) && ReadLink(links[i]) == Some(d)
    ensures forall i :: FirstOfSku(links, i) && ReadLink(links[i]).Some? ==> ReadLink(links[i]).value in ParseDeals(links)
    ensures forall d :: d in ParseDeals(links) ==> d.current > 0.0 && d.name != "" && d.sku != "" && IsAbsolute(d.url)
  {
    ReadLinkKeepsSku();
    DedupDistinct(links, ReadLink);
    DedupFirstWins(links, ReadLink);
  }

  /** An unusable first link with a SKU hides every later link with that SKU:
      the SKU is marked seen before the link is checked. */
  lemma {:induction false} InvalidFirstHidesSku(links: seq<Link>, i: nat)
    requires FirstOfSku(links, i) && ReadLink(links[i]).None?
    ensures forall d :: d in ParseDeals(links) ==> d.sku != links[i].sku
  {
    forall d | d in ParseDeals(links) ensures d.sku != links[i].sku {
      DealNotFromInvalidFirst(links, i, d);
    }
  }

  lemma {:induction false} DealNotFromInvalidFirst(links: seq<Link>, i: nat, d: Deal)
    requires FirstOfSku(links, i) && ReadLink(links[i]).None? && d in ParseDeals(links)
    ensures d.sku != links[i].sku
  {
    ReadLinkKeepsSku();
    DedupFirstWins(links, ReadLink);
    var k :| FirstOfSku(links, k) && ReadLink(links[k]) == Some(d);
    assert links[k].sku == d.sku;
    if k < i {
      assert links[k].sku != links[i].sku;
    } else if k > i {
      assert links[i].sku != links[k].sku;
    }
  }

  // ---------------------------------------------------------------------------
  // format_output
  // ---------------------------------------------------------------------------

  /** `x if x else 0` for an optional number. */
  function OrZero(x: Option<real>): real {
    if Truthy(x) then x.value else 0.0
  }

  /** The sort key: discount, then savings, missing ones as 0. */
  function Key(d: Deal): (real, real) {
    (OrZero(DiscountPercentage(d)), OrZero(d.savings))
  }

  /** Tuple comparison of the keys: `a` sorts no later than `b`. */
  predicate AtLeast(a: Deal, b: Deal) {
    Key(a).0 > Key(b).0 || (Key(a).0 == Key(b).0 && Key(a).1 >= Key(b).1)
  }

  lemma {:induction false} AtLeastTotal()
    ensures Sorting.TotalPreorder(AtLeast)
  {
  }

  /** `sorted(deals, key=…, reverse=True)`. */
  function SortDeals(deals: seq<Deal>): (r: seq<Deal>)
    ensures multiset(r) == multiset(deals)
  {
    Sorting.SortDescending(deals, AtLeast)
  }

  /** The sort is a permutation that puts larger keys first and keeps the page
      order among equal keys. */
  lemma {:induction false} SortDealsOrdered(deals: seq<Deal>, k: Deal)
    ensures multiset(SortDeals(deals)) == multiset(deals)
    ensures forall i, j :: 0 <= i < j < |SortDeals(deals)| ==> AtLeast(SortDeals(deals)[i], SortDeals(deals)[j])
    ensures Sorting.TiedWith(SortDeals(deals), k, AtLeast) == Sorting.TiedWith(deals, k, AtLeast)
  {
    AtLeastTotal();
    Sorting.SortDescendingSorted(deals, AtLeast);
    Sorting.SortDescendingStable(deals, k, AtLeast);
  }

  /** The menu name: longer than 60 becomes the first 60 characters and `...`. */
  function DisplayName(name: string): (r: string)
    ensures |name| <= DisplayLimit ==> r == name
    ensures |name| > DisplayLimit ==> |r| == DisplayLimit + 3 && r[..DisplayLimit] == name[..DisplayLimit]
    ensures |name| > DisplayLimit ==> r[DisplayLimit..] == "..."
  {
    Ellipsize(name, DisplayLimit, DisplayLimit, "...")
  }

  /** The lines of one deal. `money` renders `:.2f` and `whole` renders `:.0f`. */
  function DealLines(d: Deal, money: real -> string, whole: real -> string): (r: seq<string>)
    ensures |r| >= 2 && "--SKU: " + d.sku in r
    ensures r[0] == "$" + money(d.current)
                    + (if Truthy(d.savings) then " [-$" + whole(d.savings.value) + "]" else "")
                    + " " + DisplayName(d.name) + (if d.inStoreOnly then " 🏪" else "")
                    + " | href=" + d.url
                    + (if Truthy(d.savings) && Color(d) != "" then " color=" + Color(d) else "")
  {
    var main := "$" + money(d.current)
                + (if Truthy(d.savings) then " [-$" + whole(d.savings.value) + "]" else "")
                + " " + DisplayName(d.name) + (if d.inStoreOnly then " 🏪" else "")
                + " | href=" + d.url
                + (if Truthy(d.savings) && Color(d) != "" then " color=" + Color(d) else "");
    var prices :=
      if Truthy(d.original) then
        ["--Original: $" + money(d.original.value), "--Sale: $" + money(d.current)]
        + (if Truthy(DiscountPercentage(d)) then ["--Discount: " + whole(DiscountPercentage(d).value) + "% off"] else [])
      else [];
    var brand := if d.brand.Some? && d.brand.value != "" then ["--Brand: " + d.brand.value] else [];
    var store := if d.inStoreOnly then ["--⚠️ In-store only"] else [];
    var r := [main] + prices + brand + ["--SKU: " + d.sku] + store;
    assert r[|prices| + |brand| + 1] == "--SKU: " + d.sku;
    r
  }

  const Header: seq<string> := ["💻", "---"]
  const Footer: seq<string> := ["---", "Refresh | refresh=true"]

  /** The lines of each deal, in order. */
  function DealBlocks(deals: seq<Deal>, money: real -> string, whole: real -> string): (r: seq<seq<string>>)
    ensures |r| == |deals| && forall i :: 0 <= i < |deals| ==> r[i] == DealLines(deals[i], money, whole)
  {
    seq(|deals|, i requires 0 <= i < |deals| => DealLines(deals[i], money, whole))
  }

  /** The five lines above the deals. */
  function Heading(count: nat, now: string): seq<string> {
    Header + ["Last updated: " + now, "Microcenter Top Deals (" + NatToString(count) + " items) | href=" + DealsUrl, "---"]
  }

  /** `format_output`: no deals gives the empty menu; otherwise the count of
      all deals, then each deal's lines in sorted order, then the footer. */
  function FormatOutput(deals: seq<Deal>, now: string, money: real -> string, whole: real -> string): (r: seq<string>)
    ensures deals == [] ==> r == Header + ["No deals found", "Last checked: " + now] + Footer
    ensures deals != [] ==> |r| >= 7 && r[..5] == Heading(|deals|, now) && r[|r| - 2..] == Footer
    ensures deals != [] ==> r[5..|r| - 2] == Flatten(DealBlocks(SortDeals(deals), money, whole))
  {
    if deals == [] then Header + ["No deals found", "Last checked: " + now] + Footer
    else
      var head := Heading(|deals|, now);
      var body := Flatten(DealBlocks(SortDeals(deals), money, whole));
      var r := head + body + Footer;
      assert r[..5] == head && r[|r| - 2..] == Footer && r[5..|r| - 2] == body;
      r
  }

  /** Every parsed deal is listed: its SKU line is in the menu. */
  lemma {:induction false} EveryDealListed(deals: seq<Deal>, now: string, money: real -> string, whole: real -> string, d: Deal)
    requires d in deals
    ensures "--SKU: " + d.sku in FormatOutput(deals, now, money, whole)
  {
    var sorted := SortDeals(deals);
    assert d in multiset(sorted);
    var i :| 0 <= i < |sorted| && sorted[i] == d;
    var parts := DealBlocks(sorted, money, whole);
    FlattenMember(parts, i, "--SKU: " + d.sku);
    assert FormatOutput(deals, now, money, whole) == Heading(|deals|, now) + Flatten(parts) + Footer;
  }
}

/** The news plugin (news.6hr.py): Scott AFB news scraped from HTML, Daring
    Fireball and Michael Kennedy read from feeds, Apple Newsroom read from
    Atom, each headline shown as `--[date] title | href=url`.

    The page and feed extraction is a parameter: each source arrives as the
    list of records the script pulls out, or as the error fetching it. Dates
    are the one piece of real parsing, modelled with `Dates.Strptime`. */
module News {
  import opened Wrappers
  import opened Text
  import opened Dates
  import opened Headlines

  const ScottUrl: string := "https://www.scott.af.mil/News/"
  const DaringUrl: string := "https://daringfireball.net/feeds/articles"
  const AppleUrl: string := "https://www.apple.com/newsroom/rss-feed.rss"
  const KennedyUrl: string := "https://mkennedy.codes/index.xml"

  /** `'%b. %d, %Y'`, as in `Jan. 10, 2024`. */
  const ScottFormat: seq<Directive> := [MonthAbbr, Lit('.'), Blank, Day, Lit(','), Blank, Year4]

  /** `%Y-%m-%d`. */
  const IsoDate: seq<Directive> := [Year4, Lit('-'), Month, Lit('-'), Day]

  /** `%H:%M:%S`. */
  const IsoClock: seq<Directive> := [Hour24, Lit(':'), Minute, Lit(':'), Second]

  /** `'%Y-%m-%dT%H:%M:%SZ'`. */
  const DaringFormat: seq<Directive> := IsoDate + [Lit('T')] + IsoClock + [Lit('Z')]

  /** `'%Y-%m-%dT%H:%M:%S.%fZ'`. */
  const AtomFormat: seq<Directive> := IsoDate + [Lit('T')] + IsoClock + [Lit('.'), Fraction, Lit('Z')]

  /** `'%a, %d %b %Y %H:%M:%S %z'`. */
  const Rss2Format: seq<Directive> :=
    [WeekdayAbbr, Lit(','), Blank, Day, Blank, MonthAbbr, Blank, Year4, Blank] + IsoClock + [Blank, Zone]

  /** The text the script substitutes for a missing date. */
  const NoDate: string := "No date"

  const DateError: string := "ValueError: time data does not match format"

  /** Parses `s` with `fmt` and writes the date with `render`. */
  function Reformat(s: string, fmt: seq<Directive>, render: Date -> string): (r: Result<string>)
    ensures r.Success? <==> Strptime(s, fmt).Some?
    ensures r.Success? ==> r.value == render(Strptime(s, fmt).value.date)
  {
    match Strptime(s, fmt)
    case None => Failure(DateError)
    case Some(st) => Success(render(st.date))
  }

  function Short(d: Date): string {
    if ValidDate(d) then Unpadded(d) else ""
  }

  function Long(d: Date): string {
    if ValidDate(d) then Padded(d) else ""
  }

  /** `format_scott_news_date`. */
  function ScottDate(s: string): Result<string> {
    Reformat(s, ScottFormat, Short)
  }

  /** `format_daring_fireball_date`. */
  function DaringDate(s: string): Result<string> {
    Reformat(s, DaringFormat, Short)
  }

  /** The date step of `fetch_news_from_atom_rss`. */
  function AtomDate(s: string): Result<string> {
    Reformat(s, AtomFormat, Long)
  }

  /** The date step of `fetch_news_from_rss_2_0`. */
  function Rss2Date(s: string): Result<string> {
    Reformat(s, Rss2Format, Long)
  }

  /** The raw fields of a date at a time of day. */
  function At(d: Date, h: int, m: int, s: int): Fields {
    Defaults.(year := d.year, month := d.month, day := d.day, hour := h, minute := m, second := s)
  }

  /** A time that `%H:%M:%S` writes and `datetime` accepts. */
  predicate ValidTime(h: int, m: int, s: int) {
    0 <= h <= 23 && 0 <= m <= 59 && 0 <= s <= 59
  }

  /** Reading back what a format with a year, a month and a day writes gives
      the date, whatever the time: the shared step of the four round trips. */
  lemma {:induction false} ReadBack(fmt: seq<Directive>, d: Date, h: int, m: int, s: int)
    requires ValidDate(d) && ValidTime(h, m, s)
    requires Separated(fmt)
    requires Year4 in fmt && (Month in fmt || MonthAbbr in fmt) && Day in fmt && Hour12 !in fmt
    ensures forall i :: 0 <= i < |fmt| ==> InRange(fmt[i], At(d, h, m, s))
    ensures Strptime(Render(fmt, At(d, h, m, s)), fmt).Some?
    ensures Strptime(Render(fmt, At(d, h, m, s)), fmt).value.date == d
  {
    var f := At(d, h, m, s);
    forall i | 0 <= i < |fmt| ensures InRange(fmt[i], f) {
      AtInRange(d, h, m, s, fmt[i]);
    }
    MatchRender(fmt, f, Defaults);
    OverlayFields(fmt, f, Defaults);
    var o := Overlay(fmt, f, Defaults);
    assert Date(o.year, o.month, o.day) == d;
  }

  lemma {:induction false} AtInRange(d: Date, h: int, m: int, s: int, x: Directive)
    requires ValidDate(d) && ValidTime(h, m, s) && !x.Hour12?
    ensures InRange(x, At(d, h, m, s))
  {
  }

  lemma {:induction false} ScottSeparated()
    ensures Separated(ScottFormat)
  {
    var f := ScottFormat;
    assert Separated(f[7..]);
    assert Separated(f[6..]);
    assert Separated(f[5..]);
    assert Separated(f[4..]);
    assert Separated(f[3..]);
    assert Separated(f[2..]);
    assert Separated(f[1..]);
    assert f[0..] == f;
  }

  lemma {:induction false} PartsSeparated()
    ensures Separated(IsoDate) && Separated(IsoClock)
    ensures Separated([Lit('T')]) && Separated([Lit('Z')]) && Separated([Lit('.'), Fraction, Lit('Z')])
    ensures Separated([Blank, Zone])
  {
    assert Separated(IsoDate[4..]);
    assert Separated(IsoDate[3..]);
    assert Separated(IsoDate[2..]);
    assert Separated(IsoDate[1..]);
    assert IsoDate[0..] == IsoDate;
    assert Separated(IsoClock[4..]);
    assert Separated(IsoClock[3..]);
    assert Separated(IsoClock[2..]);
    assert Separated(IsoClock[1..]);
    assert IsoClock[0..] == IsoClock;
    assert Separated([Lit('.'), Fraction, Lit('Z')][1..]);
  }

  lemma {:induction false} DaringSeparated()
    ensures Separated(DaringFormat)
  {
    PartsSeparated();
    SeparatedAppend(IsoDate, [Lit('T')]);
    SeparatedAppend(IsoDate + [Lit('T')], IsoClock);
    SeparatedAppend(IsoDate + [Lit('T')] + IsoClock, [Lit('Z')]);
  }

  lemma {:induction false} AtomSeparated()
    ensures Separated(AtomFormat)
  {
    PartsSeparated();
    SeparatedAppend(IsoDate, [Lit('T')]);
    SeparatedAppend(IsoDate + [Lit('T')], IsoClock);
    SeparatedAppend(IsoDate + [Lit('T')] + IsoClock, [Lit('.'), Fraction, Lit('Z')]);
  }

  lemma {:induction false} Rss2Separated()
    ensures Separated(Rss2Format)
  {
    var head := [WeekdayAbbr, Lit(','), Blank, Day, Blank, MonthAbbr, Blank, Year4, Blank];
    assert Separated(head[9..]);
    assert Separated(head[8..]);
    assert Separated(head[7..]);
    assert Separated(head[6..]);
    assert Separated(head[5..]);
    assert Separated(head[4..]);
    assert Separated(head[3..]);
    assert Separated(head[2..]);
    assert Separated(head[1..]);
    assert head[0..] == head;
    PartsSeparated();
    SeparatedAppend(head, IsoClock);
    SeparatedAppend(head + IsoClock, [Blank, Zone]);
  }

  /** The Scott date format reads back a date it wrote, as `m/d/yy`. */
  lemma {:induction false} ScottRoundTrip(d: Date)
    requires ValidDate(d)
    ensures ScottDate(Render(ScottFormat, At(d, 0, 0, 0))) == Success(Unpadded(d))
  {
    ScottSeparated();
    assert ScottFormat[6] == Year4 && ScottFormat[0] == MonthAbbr && ScottFormat[3] == Day;
    ReadBack(ScottFormat, d, 0, 0, 0);
  }

  /** The Daring Fireball format reads back a date it wrote; the time of day
      does not show in the result. */
  lemma {:induction false} DaringRoundTrip(d: Date, h: int, m: int, s: int)
    requires ValidDate(d) && ValidTime(h, m, s)
    ensures DaringDate(Render(DaringFormat, At(d, h, m, s))) == Success(Unpadded(d))
  {
    DaringSeparated();
    assert DaringFormat[0] == Year4 && DaringFormat[2] == Month && DaringFormat[4] == Day;
    ReadBack(DaringFormat, d, h, m, s);
  }

  /** The Atom format reads back a date it wrote, as `mm/dd/yy`. */
  lemma {:induction false} AtomRoundTrip(d: Date, h: int, m: int, s: int)
    requires ValidDate(d) && ValidTime(h, m, s)
    ensures AtomDate(Render(AtomFormat, At(d, h, m, s))) == Success(Padded(d))
  {
    AtomSeparated();
    assert AtomFormat[0] == Year4 && AtomFormat[2] == Month && AtomFormat[4] == Day;
    ReadBack(AtomFormat, d, h, m, s);
  }

  /** The RSS 2.0 format reads back a date it wrote, as `mm/dd/yy`. */
  lemma {:induction false} Rss2RoundTrip(d: Date, h: int, m: int, s: int)
    requires ValidDate(d) && ValidTime(h, m, s)
    ensures Rss2Date(Render(Rss2Format, At(d, h, m, s))) == Success(Padded(d))
  {
    Rss2Separated();
    assert Rss2Format[7] == Year4 && Rss2Format[5] == MonthAbbr && Rss2Format[3] == Day;
    ReadBack(Rss2Format, d, h, m, s);
  }

  /** The placeholder `No date` is not a date in either format: an article
      without one ends the script instead of showing `[No date]`. */
  lemma {:induction false} NoDateRejected()
    ensures ScottDate(NoDate).Failure?
    ensures DaringDate(NoDate).Failure?
  {
    var t := NoDate;
    assert t[..3][2] == ' ';
    NoMonthWithSpace(t[..3], 0);
    MonthAbbrHeadFails(t, ScottFormat, Defaults);
    assert !IsDigit(t[0]);
    assert DaringFormat[0] == Year4;
    Year4HeadFails(t, DaringFormat, Defaults);
  }

  /** No month abbreviation has a space in it. */
  lemma {:induction false} NoMonthWithSpace(t: string, k: nat)
    requires |t| == 3 && t[2] == ' ' && k <= 12
    ensures MonthNumber(t, k) == None
    decreases 12 - k
  {
    if k < 12 {
      assert ToLower(t[2]) != ToLower(MonthAbbrs[k][2]);
      NoMonthWithSpace(t, k + 1);
    }
  }

  // ---------------------------------------------------------------------------
  // Sources
  // ---------------------------------------------------------------------------

  /** One headline; `date` is None for the error entries, which have no
      `date` key. */
  datatype Story = Story(title: string, url: string, date: Option<string>)

  /** The entry a failed fetch stands in with. */
  const ErrorStory: Story := Story("Error fetching news", "#", None)

  /** What fetching one source prints, then its headlines or the exception
      that escaped while reading them. */
  datatype Fetched = Fetched(log: seq<string>, stories: Result<seq<Story>>)

  function FetchError(e: string): string {
    "Error fetching source: " + e
  }

  const NoFind: string := "AttributeError: 'NoneType' object has no attribute 'find'"
  const NoGetText: string := "AttributeError: 'NoneType' object has no attribute 'get_text'"
  const NoHref: string := "KeyError: 'href'"

  /** A link element: its text and its `href` attribute, if any. */
  datatype Anchor = Anchor(text: string, href: Option<string>)

  /** One `ul.article-listing li`. Its `h1` is `None` when missing and
      `Some(None)` when it holds no `a`; its `time` is the tag's text; its
      `div.summary` is `None` when missing and `Some(None)` when it holds no
      `p`, else the paragraph's text. */
  datatype Listing = Listing(heading: Option<Option<Anchor>>, time: Option<string>, summary: Option<Option<string>>)

  /** A listing the loop reads without raising. */
  predicate ScottReadable(li: Listing) {
    && li.heading.Some? && li.heading.value.Some? && li.heading.value.value.href.Some?
    && li.time.Some? && ScottDate(li.time.value).Success?
    && li.summary.Some? && li.summary.value.Some?
  }

  /** The body of the listing loop: the `h1` and its `a` are read first, then
      the `href`, then the date, and the summary last; each missing piece
      raises where it is read. */
  function ScottStory(li: Listing): (r: Result<Story>)
    ensures r.Success? <==> ScottReadable(li)
    ensures r.Success? ==>
      r.value == Story(li.heading.value.value.text, li.heading.value.value.href.value, Some(ScottDate(li.time.value).value))
    ensures li.heading.None? ==> r == Failure(NoFind)
    ensures li.heading == Some(None) ==> r == Failure(NoGetText)
    ensures li.heading.Some? && li.heading.value.Some? && li.heading.value.value.href.None? ==> r == Failure(NoHref)
    ensures li.time.None? ==> r.Failure?
  {
    NoDateRejected();
    match li.heading
    case None => Failure(NoFind)
    case Some(None) => Failure(NoGetText)
    case Some(Some(a)) =>
      match a.href
      case None => Failure(NoHref)
      case Some(href) =>
        match ScottDate(li.time.GetOr(NoDate))
        case Failure(e) => Failure(e)
        case Success(date) =>
          match li.summary
          case None => Failure(NoFind)
          case Some(None) => Failure(NoGetText)
          case Some(Some(_)) => Success(Story(a.text, href, Some(date)))
  }

  /** `fetch_news_from_html`. */
  function Scott(page: Result<seq<Listing>>): (r: Fetched)
    ensures page.Failure? ==> r == Fetched([FetchError(page.error)], Success([ErrorStory]))
    ensures page.Success? ==> r.log == []
  {
    match page
    case Failure(e) => Fetched([FetchError(e)], Success([ErrorStory]))
    case Success(items) => Fetched([], Traverse(items, ScottStory))
  }

  /** A fetched page gives its stories exactly when every listing is
      readable, one story per listing in page order; otherwise the first
      unreadable listing's exception escapes. */
  lemma {:induction false} ScottStories(items: seq<Listing>)
    ensures var r := Scott(Success(items)).stories;
      r.Success? <==> forall i :: 0 <= i < |items| ==> ScottReadable(items[i])
    ensures var r := Scott(Success(items)).stories;
      r.Success? ==> |r.value| == |items| && forall i :: 0 <= i < |items| ==> ScottStory(items[i]) == Success(r.value[i])
    ensures var r := Scott(Success(items)).stories;
      r.Failure? ==> exists k :: 0 <= k < |items| && !ScottReadable(items[k]) && ScottStory(items[k]) == Failure(r.error)
                                && forall j :: 0 <= j < k ==> ScottReadable(items[j])
  {
    TraverseAll(items, ScottStory);
  }

  /** A listing without a `time` tag anywhere on the page ends the script. */
  lemma {:induction false} UndatedListingFails(items: seq<Listing>, k: nat)
    requires k < |items| && items[k].time.None?
    ensures Scott(Success(items)).stories.Failure?
  {
    TraverseAll(items, ScottStory);
  }

  /** A feed entry: its `title`, `link` and `published` keys, when present. */
  datatype Entry = Entry(title: Option<string>, link: Option<string>, published: Option<string>)

  /** The entries the Daring Fireball loop keeps: those with a title and a
      link, with `No date` for a missing publication date. */
  function Linked(e: Entry): (r: Option<(string, string, string)>)
    ensures r.Some? <==> e.title.Some? && e.link.Some?
  {
    if e.title.Some? && e.link.Some? then Some((e.title.value, e.link.value, e.published.GetOr(NoDate)))
    else None
  }

  /** The story of a kept entry: its title and link, and its date rewritten,
      or the error of a date that does not parse. */
  function DaringStory(t: (string, string, string)): (r: Result<Story>)
    ensures r.Success? <==> DaringDate(t.2).Success?
    ensures r.Success? ==> r.value == Story(t.0, t.1, Some(DaringDate(t.2).value))
  {
    match DaringDate(t.2)
    case Failure(e) => Failure(e)
    case Success(date) => Success(Story(t.0, t.1, Some(date)))
  }

  const NoEntries: string := "No entries found in feed. Feed might be empty or not properly parsed."

  /** `fetch_news_from_rss`. */
  function Daring(feed: Result<seq<Entry>>): (r: Fetched)
    ensures feed.Failure? ==> r == Fetched([FetchError(feed.error), "Could not fetch RSS data."], Success([]))
    ensures feed == Success([]) ==> r == Fetched([NoEntries], Success([]))
  {
    match feed
    case Failure(e) => Fetched([FetchError(e), "Could not fetch RSS data."], Success([]))
    case Success(entries) =>
      if |entries| == 0 then Fetched([NoEntries], Success([]))
      else Fetched([], Traverse(FilterMap(entries, Linked), DaringStory))
  }

  /** Daring Fireball lists the entries with a title and a link, in feed
      order, each as its title, its link and its rewritten date, and nothing
      else. */
  lemma {:induction false} DaringKeepsLinked(entries: seq<Entry>)
    requires |entries| > 0
    ensures var r := Daring(Success(entries)).stories;
      r.Success? ==> |r.value| == |FilterMap(entries, Linked)|
    ensures var r := Daring(Success(entries)).stories;
      r.Success? ==> forall i :: 0 <= i < |r.value| ==> DaringStory(FilterMap(entries, Linked)[i]) == Success(r.value[i])
    ensures forall t :: t in FilterMap(entries, Linked) ==> exists e :: e in entries && e.title == Some(t.0) && e.link == Some(t.1)
  {
    TraverseAll(FilterMap(entries, Linked), DaringStory);
    FilterMapMembers(entries, Linked);
  }

  /** Every entry with a title and a link is listed with that title and link. */
  lemma {:induction false} DaringListsLinked(entries: seq<Entry>, e: Entry)
    requires |entries| > 0 && Daring(Success(entries)).stories.Success?
    requires e in entries && e.title.Some? && e.link.Some?
    ensures var r := Daring(Success(entries)).stories.value;
      exists i :: 0 <= i < |r| && r[i].title == e.title.value && r[i].url == e.link.value
  {
    var kept := FilterMap(entries, Linked);
    var r := Daring(Success(entries)).stories.value;
    DaringKeepsLinked(entries);
    FilterMapMembers(entries, Linked);
    var t := Linked(e).value;
    assert t in kept;
    var k :| 0 <= k < |kept| && kept[k] == t;
    assert DaringStory(kept[k]) == Success(r[k]);
  }

  /** A kept entry without a publication date ends the script. */
  lemma {:induction false} DaringUndatedFails(entries: seq<Entry>, e: Entry)
    requires |entries| > 0
    requires e in entries && e.title.Some? && e.link.Some? && e.published.None?
    ensures Daring(Success(entries)).stories.Failure?
  {
    var kept := FilterMap(entries, Linked);
    TraverseAll(kept, DaringStory);
    FilterMapMembers(entries, Linked);
    NoDateRejected();
    var t := Linked(e).value;
    assert t in kept;
    var k :| 0 <= k < |kept| && kept[k] == t;
    assert DaringStory(kept[k]).Failure?;
  }

  const NoText: string := "AttributeError: 'NoneType' object has no attribute 'text'"
  const NotSubscriptable: string := "TypeError: 'NoneType' object is not subscriptable"

  /** One Atom `entry`: the text of its `title`, its `link` (`None` when
      missing, `Some(None)` when it has no `href`) and the text of its
      `updated`. */
  datatype AtomEntry = AtomEntry(title: Option<string>, link: Option<Option<string>>, updated: Option<string>)

  /** An entry the Apple loop reads without raising. */
  predicate AppleReadable(e: AtomEntry) {
    e.title.Some? && e.link.Some? && e.link.value.Some? && e.updated.Some? && AtomDate(e.updated.value).Success?
  }

  /** The body of the Apple loop: title, then link, then `updated`, then the
      date; each missing piece raises where it is read. */
  function AppleStory(e: AtomEntry): (r: Result<Story>)
    ensures r.Success? <==> AppleReadable(e)
    ensures AppleReadable(e) ==> r == Success(Story(Strip(e.title.value), e.link.value.value, Some(AtomDate(e.updated.value).value)))
    ensures e.title.None? ==> r == Failure(NoText)
    ensures e.title.Some? && e.link.None? ==> r == Failure(NotSubscriptable)
    ensures e.title.Some? && e.link == Some(None) ==> r == Failure(NoHref)
  {
    match e.title
    case None => Failure(NoText)
    case Some(title) =>
      match e.link
      case None => Failure(NotSubscriptable)
      case Some(None) => Failure(NoHref)
      case Some(Some(href)) =>
        match e.updated
        case None => Failure(NoText)
        case Some(updated) => AtomStory(Strip(title), href, updated)
  }

  /** The last step of the Apple loop: the story, once `updated` parses. */
  function AtomStory(title: string, href: string, updated: string): (r: Result<Story>)
    ensures r.Success? <==> AtomDate(updated).Success?
    ensures AtomDate(updated).Success? ==> r == Success(Story(title, href, Some(AtomDate(updated).value)))
  {
    match AtomDate(updated)
    case Failure(x) => Failure(x)
    case Success(date) => Success(Story(title, href, Some(date)))
  }

  /** `fetch_news_from_atom_rss`: there is no error handling, so a failed
      request ends the script too. */
  function Apple(page: Result<seq<AtomEntry>>): (r: Result<seq<Story>>)
    ensures page.Failure? ==> r == Failure(page.error)
  {
    match page
    case Failure(e) => Failure(e)
    case Success(entries) => Traverse(entries, AppleStory)
  }

  /** The Apple section succeeds exactly when every entry is readable; then
      titles are stripped and every date is zero-padded, and otherwise the
      first unreadable entry's exception escapes. */
  lemma {:induction false} AppleStories(entries: seq<AtomEntry>)
    ensures Apple(Success(entries)).Success? <==> forall i :: 0 <= i < |entries| ==> AppleReadable(entries[i])
    ensures var r := Apple(Success(entries));
      r.Success? ==> |r.value| == |entries| && forall i :: 0 <= i < |entries| ==>
        r.value[i].title == Strip(entries[i].title.value) && r.value[i].date.Some? && |r.value[i].date.value| == 8
    ensures var r := Apple(Success(entries));
      r.Failure? ==> exists k :: 0 <= k < |entries| && !AppleReadable(entries[k]) && AppleStory(entries[k]) == Failure(r.error)
                                && forall j :: 0 <= j < k ==> AppleReadable(entries[j])
  {
    TraverseAll(entries, AppleStory);
    if Apple(Success(entries)).Success? {
      forall i | 0 <= i < |entries| ensures |Apple(Success(entries)).value[i].date.value| == 8 {
        var st := Strptime(entries[i].updated.value, AtomFormat).value;
        PaddedVersusUnpadded(st.date);
      }
    }
  }

  function KennedyStory(e: Entry): Result<Story> {
    match e.title
    case None => Failure("AttributeError: object has no attribute 'title'")
    case Some(title) =>
      match e.link
      case None => Failure("AttributeError: object has no attribute 'link'")
      case Some(link) =>
        match e.published
        case None => Failure("AttributeError: object has no attribute 'published'")
        case Some(p) =>
          match Rss2Date(p)
          case Failure(x) => Failure(x)
          case Success(date) => Success(Story(title, link, Some(date)))
  }

  /** `fetch_news_from_rss_2_0`: every entry must have all three keys. */
  function Kennedy(feed: Result<seq<Entry>>): (r: Fetched)
    ensures feed.Failure? ==> r == Fetched([FetchError(feed.error)], Success([ErrorStory]))
    ensures feed.Success? ==> r.log == []
  {
    match feed
    case Failure(e) => Fetched([FetchError(e)], Success([ErrorStory]))
    case Success(entries) => Fetched([], Traverse(entries, KennedyStory))
  }

  // ---------------------------------------------------------------------------
  // The menu
  // ---------------------------------------------------------------------------

  function Raise(o: Output, r: Result<seq<Story>>): (p: Output)
    ensures p.lines == o.lines
    ensures o.crash.Some? || r.Success? ==> p == o
  {
    if o.crash.None? && r.Failure? then o.(crash := Some(r.error)) else o
  }

  /** The line of one story; a story without a date raises `KeyError`. */
  function StoryLine(s: Story): (r: Result<string>)
    ensures r.Success? <==> s.date.Some?
  {
    match s.date
    case None => Failure("KeyError: 'date'")
    case Some(d) => Success("--[" + d + "] " + s.title + " | href=" + s.url)
  }

  /** Stories that all have dates print one line each, in order. */
  lemma {:induction false} PrintDated(lines: seq<string>, stories: seq<Story>)
    requires forall i :: 0 <= i < |stories| ==> stories[i].date.Some?
    ensures var r := PrintEach(Output(lines, None), stories, StoryLine);
      && r.crash.None? && |r.lines| == |lines| + |stories| && r.lines[..|lines|] == lines
      && forall i :: 0 <= i < |stories| ==> StoryLine(stories[i]) == Success(r.lines[|lines| + i])
  {
    PrintEachAll(lines, stories, StoryLine);
  }

  /** An undated story ends the script at its line. */
  lemma {:induction false} PrintUndated(lines: seq<string>, stories: seq<Story>)
    requires |stories| > 0 && stories[0].date.None?
    ensures PrintEach(Output(lines, None), stories, StoryLine) == Output(lines, Some("KeyError: 'date'"))
  {
    PrintEachStops(lines, stories, StoryLine, 0);
  }

  predicate Sponsored(s: Story) {
    "[Sponsor]" <= s.title
  }

  function AsListed(s: Story): Option<Story> {
    if Sponsored(s) then None else Some(s)
  }

  /** The Daring Fireball stories that get a line. */
  function Unsponsored(stories: seq<Story>): (r: seq<Story>)
    ensures forall s :: s in r <==> s in stories && !Sponsored(s)
  {
    FilterMapMembers(stories, AsListed);
    FilterMap(stories, AsListed)
  }

  function Counted(name: string, n: nat, url: string): string {
    name + " " + NatToString(n) + " | href=" + url
  }

  /** A header, then one line per story. */
  function Section(o: Output, header: seq<string>, stories: seq<Story>): Output {
    PrintEach(Print(o, header), stories, StoryLine)
  }

  const Icon: string := "\U{100926}"

  function ScottHeader(): seq<string> {
    [Icon, "---", "Scott News | href=" + ScottUrl]
  }

  function DaringHeader(n: nat): seq<string> {
    ["---", Counted("Daring Fireball", n, DaringUrl)]
  }

  function AppleHeader(n: nat): seq<string> {
    [Counted("Apple Newsroom", n, AppleUrl)]
  }

  function KennedyHeader(): seq<string> {
    ["---", "Michael Kennedy | href=" + KennedyUrl]
  }

  /** The script's output. The first three sources are fetched before the
      menu starts; an exception there ends the script after their messages. */
  function Menu(scott: Fetched, daring: Fetched, apple: Result<seq<Story>>, kennedy: Fetched): (r: Output)
    ensures scott.stories.Failure? ==> r == Output(scott.log, Some(scott.stories.error))
    ensures scott.stories.Success? && daring.stories.Failure? ==>
      r == Output(scott.log + daring.log, Some(daring.stories.error))
    ensures scott.stories.Success? && daring.stories.Success? && apple.Failure? ==>
      r == Output(scott.log + daring.log, Some(apple.error))
  {
    var o := Raise(Output(scott.log, None), scott.stories);
    var o := Raise(Print(o, daring.log), daring.stories);
    var o := Raise(o, apple);
    if o.crash.Some? then o
    else Body(o.lines, scott.stories.value, daring.stories.value, apple.value, kennedy)
  }

  /** The menu proper; Michael Kennedy is fetched after the Apple section is
      printed, so its messages land inside the menu. */
  function Body(lines: seq<string>, scott: seq<Story>, daring: seq<Story>, apple: seq<Story>, kennedy: Fetched): Output {
    var o := Section(Output(lines, None), ScottHeader(), scott);
    var o := Section(o, DaringHeader(|daring|), Unsponsored(daring));
    var o := Section(o, AppleHeader(|apple|), apple);
    var o := Raise(Print(o, kennedy.log), kennedy.stories);
    Section(o, KennedyHeader(), if kennedy.stories.Success? then kennedy.stories.value else [])
  }

  /** Daring Fireball's count includes the sponsor posts, but only the other
      posts get a line: the two agree exactly when there are no sponsors. */
  lemma {:induction false} DaringSectionCounts(lines: seq<string>, stories: seq<Story>)
    requires forall i :: 0 <= i < |stories| ==> stories[i].date.Some?
    ensures var r := Section(Output(lines, None), DaringHeader(|stories|), Unsponsored(stories));
      && r.crash.None?
      && |r.lines| == |lines| + 2 + |Unsponsored(stories)|
      && r.lines[|lines| + 1] == Counted("Daring Fireball", |stories|, DaringUrl)
      && forall i :: 0 <= i < |Unsponsored(stories)| ==>
           StoryLine(Unsponsored(stories)[i]) == Success(r.lines[|lines| + 2 + i])
    ensures |Unsponsored(stories)| <= |stories|
    ensures |Unsponsored(stories)| == |stories| <==> forall i :: 0 <= i < |stories| ==> !Sponsored(stories[i])
  {
    var kept := Unsponsored(stories);
    forall i | 0 <= i < |kept| ensures kept[i].date.Some? {
      assert kept[i] in stories;
    }
    PrintDated(lines + DaringHeader(|stories|), kept);
    UnsponsoredCount(stories);
  }

  lemma {:induction false} UnsponsoredCount(stories: seq<Story>)
    ensures |Unsponsored(stories)| == |stories| <==> forall i :: 0 <= i < |stories| ==> !Sponsored(stories[i])
    decreases |stories|
  {
    if |stories| > 0 {
      var init := stories[..|stories| - 1];
      UnsponsoredCount(init);
      assert Unsponsored(stories) == FilterMap(init, AsListed) + (if AsListed(stories[|stories| - 1]).Some? then [stories[|stories| - 1]] else []);
      assert forall i :: 0 <= i < |init| ==> init[i] == stories[i];
    }
  }

  /** When the Scott page cannot be fetched, its stand-in entry has no date,
      so the script ends with a `KeyError` right after the Scott header. */
  lemma {:induction false} ScottFailureCrashes(e: string, daring: Fetched, apple: Result<seq<Story>>, kennedy: Fetched)
    requires daring.stories.Success? && apple.Success?
    ensures Menu(Scott(Failure(e)), daring, apple, kennedy)
         == Output([FetchError(e)] + daring.log + ScottHeader(), Some("KeyError: 'date'"))
  {
    PrintUndated([FetchError(e)] + daring.log + ScottHeader(), [ErrorStory]);
  }

  /** When Michael Kennedy's feed cannot be fetched, the error message shows
      inside the menu and the stand-in entry ends the script with a
      `KeyError` right after the Michael Kennedy header. */
  lemma {:induction false} KennedyFailureCrashes(e: string, lines: seq<string>, scott: seq<Story>, daring: seq<Story>, apple: seq<Story>)
    requires forall i :: 0 <= i < |scott| ==> scott[i].date.Some?
    requires forall i :: 0 <= i < |daring| ==> daring[i].date.Some?
    requires forall i :: 0 <= i < |apple| ==> apple[i].date.Some?
    ensures var r := Body(lines, scott, daring, apple, Kennedy(Failure(e)));
      && r.crash == Some("KeyError: 'date'")
      && |r.lines| >= 3
      && r.lines[|r.lines| - 3..] == [FetchError(e)] + KennedyHeader()
  {
    var o1 := Section(Output(lines, None), ScottHeader(), scott);
    PrintDated(lines + ScottHeader(), scott);
    DaringSectionCounts(o1.lines, daring);
    var o2 := Section(o1, DaringHeader(|daring|), Unsponsored(daring));
    PrintDated(o2.lines + AppleHeader(|apple|), apple);
    var o3 := Section(o2, AppleHeader(|apple|), apple);
    var o4 := Print(o3, [FetchError(e)]);
    PrintUndated(o4.lines + KennedyHeader(), [ErrorStory]);
  }
}

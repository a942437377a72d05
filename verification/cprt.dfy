/** The forum-feed plugin (cprt.1d.py): feed items become `ForumEntry`
    records, sorted newest first, and the posts among them are listed with
    a shortened title and a one-line preview.

    Three library calls are parameters: `stripTags` (the HTML-stripping
    parser), and the two `strptime` attempts on the RFC 822 date, `withZone`
    and `withoutZone`, each giving an instant on one common time line, or
    None where Python raises. `show` renders an instant as `%m/%d %H:%M`. */
module Cprt {
  import opened Wrappers
  import opened Text
  import opened Headlines
  import Sorting

  const ForumUrl: string := "https://chiefpilotsforum.com"
  const TitleWidth: nat := 40
  const PreviewWidth: nat := 200

  datatype Category = Post | File | Profile

  /** The parsing library calls `ForumEntry` relies on. */
  datatype Env = Env(stripTags: string -> string, withZone: string -> Option<int>, withoutZone: string -> Option<int>)

  /** A `ForumEntry`. The author is always None and is not kept. */
  datatype Entry = Entry(title: string, url: string, content: string, dateStr: Option<string>,
                         datetime: Option<int>, postId: Option<string>, category: Category)

  /** The title rule: an empty title becomes `Untitled Post`, any other is
      stripped (so a title of blanks becomes empty). */
  function EntryTitle(title: string): (r: string)
    ensures title == "" ==> r == "Untitled Post"
    ensures title != "" ==> r == Strip(title)
  {
    if title != "" then Strip(title) else "Untitled Post"
  }

  /** A title of blanks is kept as the empty string, not replaced by the
      default: the emptiness test comes before the strip. */
  lemma {:induction false} BlankTitleStaysEmpty(title: string)
    requires |title| > 0 && forall i :: 0 <= i < |title| ==> IsSpace(title[i])
    ensures EntryTitle(title) == ""
  {
  }

  /** The date rule: no date (or an empty one) gives None; otherwise the
      zoned format is tried, then the plain one, and a date neither reads is
      None without an error. */
  function EntryDate(date: Option<string>, env: Env): (r: Option<int>)
    ensures date.None? || date.value == "" ==> r.None?
    ensures date.Some? && date.value != "" && env.withZone(date.value).Some? ==> r == env.withZone(date.value)
    ensures date.Some? && date.value != "" && env.withZone(date.value).None? ==> r == env.withoutZone(date.value)
  {
    if date.None? || date.value == "" then None
    else if env.withZone(date.value).Some? then env.withZone(date.value)
    else env.withoutZone(date.value)
  }

  /** `ForumEntry(title, url, content, date, None, post_id, category)`. */
  function MakeEntry(title: string, url: string, content: string, date: Option<string>, postId: Option<string>,
                     category: Category, env: Env): (r: Entry)
    ensures r.title == EntryTitle(title)
    ensures url == "" ==> r.url == ""
    ensures url != "" ==> r.url == Strip(url)
    ensures content == "" ==> r.content == ""
    ensures r.dateStr == date && r.postId == postId && r.category == category
    ensures r.datetime == EntryDate(date, env)
  {
    Entry(EntryTitle(title), if url != "" then Strip(url) else "", if content != "" then env.stripTags(content) else "",
          date, EntryDate(date, env), postId, category)
  }

  /** One feed item, as `feedparser` presents it: each field is present or
      absent; `content` is the list of content values, when present. */
  datatype FeedItem = FeedItem(title: Option<string>, link: Option<string>, description: Option<string>,
                               summary: Option<string>, content: Option<seq<string>>, published: Option<string>,
                               pubdate: Option<string>, id: Option<string>, guid: Option<string>)

  /** The category rule on the item's link. */
  function Classify(url: string): (r: Category)
    ensures r == File <==> Contains(url, "/files/file/")
    ensures r == Profile <==> !Contains(url, "/files/file/") && Contains(url, "/contact-list/")
    ensures r == Post <==> !Contains(url, "/files/file/") && !Contains(url, "/contact-list/")
  {
    if url != "" && Contains(url, "/files/file/") then File
    else if url != "" && Contains(url, "/contact-list/") then Profile
    else Post
  }

  /** An item without a link is a post. */
  lemma {:induction false} NoLinkIsPost()
    ensures Classify("") == Post
  {
  }

  /** The content rule: description, then summary, then the first content
      value, else empty. A present field wins even when it is empty. */
  function ItemContent(item: FeedItem): (r: string)
    ensures item.description.Some? ==> r == item.description.value
    ensures item.description.None? && item.summary.Some? ==> r == item.summary.value
    ensures item.description.None? && item.summary.None? ==>
              r == (if item.content.Some? && |item.content.value| > 0 then item.content.value[0] else "")
  {
    if item.description.Some? then item.description.value
    else if item.summary.Some? then item.summary.value
    else if item.content.Some? && |item.content.value| > 0 then item.content.value[0]
    else ""
  }

  /** The id rule: `id`, then `guid`. */
  function ItemId(item: FeedItem): (r: Option<string>)
    ensures item.id.Some? ==> r == item.id
    ensures item.id.None? ==> r == item.guid
  {
    if item.id.Some? then item.id else item.guid
  }

  /** The date field: `published`, then `pubdate`. */
  function ItemDate(item: FeedItem): (r: Option<string>)
    ensures item.published.Some? ==> r == item.published
    ensures item.published.None? ==> r == item.pubdate
  {
    if item.published.Some? then item.published else item.pubdate
  }

  /** The entry for one feed item. */
  function ReadItem(item: FeedItem, env: Env): (r: Entry)
    ensures r.category == Classify(item.link.GetOr(""))
    ensures r.title == EntryTitle(item.title.GetOr("Untitled Post"))
    ensures r.postId == ItemId(item) && r.dateStr == ItemDate(item)
  {
    var url := item.link.GetOr("");
    MakeEntry(item.title.GetOr("Untitled Post"), url, ItemContent(item), ItemDate(item), ItemId(item), Classify(url), env)
  }

  /** An item without a title shows `Untitled Post`. */
  lemma {:induction false} MissingTitleIsUntitled(item: FeedItem, env: Env)
    requires item.title.None?
    ensures ReadItem(item, env).title == "Untitled Post"
  {
    UntitledIsStripped();
    assert item.title.GetOr("Untitled Post") == "Untitled Post";
  }

  /** A non-empty title without whitespace at either end is kept as it is. */
  lemma {:induction false} TrimmedTitleKept(t: string)
    requires t != "" && !IsSpace(t[0]) && !IsSpace(t[|t| - 1])
    ensures EntryTitle(t) == t
  {
  }

  /** The default title has no whitespace at either end, so the strip keeps it. */
  lemma {:induction false} UntitledIsStripped()
    ensures EntryTitle("Untitled Post") == "Untitled Post"
  {
    var t := "Untitled Post";
    assert t[0] == 'U' && t[|t| - 1] == 't';
    TrimmedTitleKept(t);
  }

  /** The sort order: an entry's key is its instant, and one without an
      instant sorts as the earliest (`datetime.min`). */
  predicate NewerOrSame(a: Entry, b: Entry) {
    b.datetime.None? || (a.datetime.Some? && a.datetime.value >= b.datetime.value)
  }

  lemma {:induction false} NewerOrSameTotal()
    ensures Sorting.TotalPreorder(NewerOrSame)
  {
  }

  /** `entries.sort(key=…, reverse=True)`. */
  function SortNewest(entries: seq<Entry>): (r: seq<Entry>)
    ensures multiset(r) == multiset(entries)
  {
    Sorting.SortDescending(entries, NewerOrSame)
  }

  /** `parse_rss_feed` on a non-empty document: one entry per item, newest
      first. */
  function ParseFeed(items: seq<FeedItem>, env: Env): (r: seq<Entry>)
    ensures |r| == |items|
  {
    SortNewest(seq(|items|, i requires 0 <= i < |items| => ReadItem(items[i], env)))
  }

  /** The parsed entries are a permutation of the items' entries, newest
      first, dated entries before undated ones, and entries with equal dates
      keep the feed's order. */
  lemma {:induction false} ParseFeedOrdered(items: seq<FeedItem>, env: Env, k: Entry)
    ensures multiset(ParseFeed(items, env)) == multiset(seq(|items|, i requires 0 <= i < |items| => ReadItem(items[i], env)))
    ensures forall i, j :: 0 <= i < j < |ParseFeed(items, env)| ==> NewerOrSame(ParseFeed(items, env)[i], ParseFeed(items, env)[j])
    ensures Sorting.TiedWith(ParseFeed(items, env), k, NewerOrSame)
         == Sorting.TiedWith(seq(|items|, i requires 0 <= i < |items| => ReadItem(items[i], env)), k, NewerOrSame)
  {
    var read := seq(|items|, i requires 0 <= i < |items| => ReadItem(items[i], env));
    NewerOrSameTotal();
    Sorting.SortDescendingSorted(read, NewerOrSame);
    Sorting.SortDescendingStable(read, k, NewerOrSame);
  }

  /** The entries of category `Post`, in order. */
  function Posts(entries: seq<Entry>): (r: seq<Entry>)
    ensures |r| <= |entries|
    ensures forall e :: e in r <==> e in entries && e.category == Post
    ensures forall e :: multiset(r)[e] == if e.category == Post then multiset(entries)[e] else 0
  {
    if |entries| == 0 then []
    else
      assert entries == [entries[0]] + entries[1..];
      (if entries[0].category == Post then [entries[0]] else []) + Posts(entries[1..])
  }

  /** The posts keep the feed's order: splitting the feed anywhere splits
      its posts at the same point, and a single entry is kept exactly when
      it is a post. */
  lemma {:induction false} PostsInOrder(a: seq<Entry>, b: seq<Entry>)
    ensures Posts(a + b) == Posts(a) + Posts(b)
    ensures |a| == 1 ==> Posts(a) == (if a[0].category == Post then a else [])
    decreases |a|
  {
    if |a| == 0 {
      AppendEmpty(a, b);
    } else {
      var head := if a[0].category == Post then [a[0]] else [];
      PostsInOrder(a[1..], b);
      TailOfAppend(a, b);
      AppendAssoc(head, Posts(a[1..]), Posts(b));
    }
  }

  /** The shown title: over 40 characters, the first 40 and `...`. */
  function ShortTitle(title: string): (r: string)
    ensures |title| <= TitleWidth ==> r == title
    ensures |title| > TitleWidth ==> |r| == TitleWidth + 3 && r[..TitleWidth] == title[..TitleWidth]
    ensures |title| > TitleWidth ==> r[TitleWidth..] == "..."
  {
    Ellipsize(title, TitleWidth, TitleWidth, "...")
  }

  /** The preview: the first 200 characters with newlines as spaces, and
      `...` when the content is longer. */
  function Preview(content: string): (r: string)
    ensures |content| <= PreviewWidth ==> |r| == |content|
    ensures |content| > PreviewWidth ==> |r| == PreviewWidth + 3 && r[PreviewWidth..] == "..."
    ensures forall i :: 0 <= i < |content| && i < PreviewWidth ==> r[i] == (if content[i] == '\n' then ' ' else content[i])
  {
    var head := ReplaceAll(Take(content, PreviewWidth), "\n", " ");
    ReplaceAllChar(Take(content, PreviewWidth), '\n', ' ');
    head + (if |content| > PreviewWidth then "..." else "")
  }

  /** A preview never breaks the menu line: it has no newline. */
  lemma {:induction false} PreviewOneLine(content: string)
    ensures '\n' !in Preview(content)
  {
    var r := Preview(content);
    forall i | 0 <= i < |r| ensures r[i] != '\n' {
      if i >= PreviewWidth {
        assert r[PreviewWidth..][i - PreviewWidth] == "..."[i - PreviewWidth];
      }
    }
  }

  /** The lines of one post: its title line, and the preview line when it
      has content. */
  function PostLines(e: Entry, show: int -> string): (r: seq<string>)
    ensures |r| == (if e.content == "" then 1 else 2)
    ensures r[0] == ShortTitle(e.title) + " (" + (if e.datetime.Some? then show(e.datetime.value) else "") + ") | href=" + e.url + " length=50"
  {
    var date := if e.datetime.Some? then show(e.datetime.value) else "";
    [ShortTitle(e.title) + " (" + date + ") | href=" + e.url + " length=50"]
    + (if e.content != "" then ["-- " + Preview(e.content) + " | alternate=true length=200"] else [])
  }

  const Footer: seq<string> := ["---", "Refresh | refresh=true", "Open Forum | href=" + ForumUrl]

  /** The posts' lines, in order. */
  function PostSection(posts: seq<Entry>, show: int -> string): seq<string> {
    Flatten(seq(|posts|, i requires 0 <= i < |posts| => PostLines(posts[i], show)))
  }

  /** The menu for a non-empty feed of `count` entries, of which `posts` are the posts. */
  function Listing(count: nat, posts: seq<Entry>, show: int -> string): seq<string> {
    ["CPF (" + NatToString(count) + ") | dropdown=false", "---", "Posts (" + NatToString(|posts|) + ") | color=#007AFF"]
    + ((if posts == [] then ["-- No unread posts"] else PostSection(posts, show)) + Footer)
  }

  /** The menu `main` prints for the parsed entries. */
  function Menu(entries: seq<Entry>, show: int -> string): (r: seq<string>)
    ensures |r| >= 2 && r[0] == "CPF (" + NatToString(|entries|) + ") | dropdown=false" && r[1] == "---"
    ensures entries == [] ==> r == ["CPF (0) | dropdown=false", "---", "No unread content | color=gray"] + Footer
  {
    assert DigitChar(0) == '0';
    assert NatToString(0) == "0";
    assert "CPF (" + "0" + ") | dropdown=false" == "CPF (0) | dropdown=false";
    if entries == [] then ["CPF (" + NatToString(0) + ") | dropdown=false", "---", "No unread content | color=gray"] + Footer
    else Listing(|entries|, Posts(entries), show)
  }

  /** With entries, the menu counts every entry in its title but lists only
      the posts: every post's title line is in it, and the posts header
      counts exactly the entries of category `Post`. */
  lemma {:induction false} MenuListsPosts(entries: seq<Entry>, show: int -> string)
    requires entries != []
    ensures Menu(entries, show)[2] == "Posts (" + NatToString(|Posts(entries)|) + ") | color=#007AFF"
    ensures forall e :: e in entries && e.category == Post ==> PostLines(e, show)[0] in Menu(entries, show)
    ensures Menu(entries, show)[3..] ==
              (if Posts(entries) == [] then ["-- No unread posts"] else PostSection(Posts(entries), show)) + Footer
  {
    ListingShowsPosts(|entries|, Posts(entries), show);
  }

  /** A listing counts its posts in the posts header and prints every post's title line. */
  lemma {:induction false} ListingShowsPosts(count: nat, posts: seq<Entry>, show: int -> string)
    ensures Listing(count, posts, show)[2] == "Posts (" + NatToString(|posts|) + ") | color=#007AFF"
    ensures forall e :: e in posts ==> PostLines(e, show)[0] in Listing(count, posts, show)
    ensures Listing(count, posts, show)[3..] == (if posts == [] then ["-- No unread posts"] else PostSection(posts, show)) + Footer
  {
    var m := Listing(count, posts, show);
    if posts != [] {
      var parts := seq(|posts|, i requires 0 <= i < |posts| => PostLines(posts[i], show));
      var body := Flatten(parts);
      assert m == m[..3] + (body + Footer);
      forall e | e in posts ensures PostLines(e, show)[0] in m {
        var i :| 0 <= i < |posts| && posts[i] == e;
        assert parts[i] == PostLines(e, show);
        FlattenMember(parts, i, PostLines(e, show)[0]);
        assert PostLines(e, show)[0] in body + Footer;
      }
    }
  }

  /** What the fetch gives: a non-200 status, a raised exception, or the
      document text and the items `feedparser` finds in it. */
  datatype Fetched = BadStatus(code: int) | Raised(message: string) | Page(text: string, items: seq<FeedItem>)

  /** `main`: a failed fetch prints its error line ahead of the menu and
      counts as no entries; so does an empty document. */
  function Run(fetched: Fetched, env: Env, show: int -> string): (r: seq<string>)
    ensures fetched.Page? && fetched.text != "" ==> r == Menu(ParseFeed(fetched.items, env), show)
    ensures fetched.Page? && fetched.text == "" ==> r == Menu([], show)
    ensures fetched.BadStatus? ==> r == ["Error: Failed to fetch data (Status code: " + IntToString(fetched.code) + ")"] + Menu([], show)
    ensures fetched.Raised? ==> r == ["Error fetching content: " + fetched.message] + Menu([], show)
  {
    match fetched
    case BadStatus(code) => ["Error: Failed to fetch data (Status code: " + IntToString(code) + ")"] + Menu([], show)
    case Raised(m) => ["Error fetching content: " + m] + Menu([], show)
    case Page(text, items) => Menu(if text != "" then ParseFeed(items, env) else [], show)
  }
}

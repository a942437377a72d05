/** The Techmeme, Hacker News and Lobste.rs sections of tech_news_uv.3hr.py.
    daily_news_uv.2hr.py repeats the three section writers line for line, so
    this module stands for both scripts. A section is the list of lines it
    writes to its buffer; the buffer's text is `Concat` of that list. */
module TechNews {
  import opened Wrappers
  import opened Text
  import opened Headlines

  const TechmemeUrl: string := "https://www.techmeme.com/"
  const HnUrl: string := "https://news.ycombinator.com/"
  const LobstersUrl: string := "https://lobste.rs"

  const TechmemeHeader: string := "Techmeme | href=" + TechmemeUrl + "\n"
  const HnHeader: string := "Hacker News | href=" + HnUrl + "\n"
  const LobstersHeader: string := "Lobste.rs | href=" + LobstersUrl + "\n"

  /** What `getDOM` returns instead of a page when the fetch fails. */
  function FetchError(url: string, message: string): (r: string)
    ensures r == WarningLine("Error fetching " + url + ": " + message)
  {
    "--⚠️ Error fetching " + url + ": " + message + "\n"
  }

  /** A link element: its text and its `href` attribute, if any. */
  datatype Anchor = Anchor(text: string, href: Option<string>)

  /** A Techmeme `.clus` story: its `.ourh` link, if any. */
  datatype Cluster = Cluster(ourh: Option<Anchor>)

  /** A Lobste.rs `ol.stories > li` story: its `.link > a.u-url` element, if
      any, and the texts of its `.tags > a` elements. */
  datatype Story = Story(link: Option<Anchor>, tags: seq<string>)

  /** An anchor the scripts can read: indexing a missing element or a missing
      `href` raises, and the story is skipped. */
  predicate Linked(a: Option<Anchor>) {
    a.Some? && a.value.href.Some?
  }

  /** The line for one Techmeme story, or None when reading it raises. */
  function ClusterLine(c: Cluster): (r: Option<string>)
    ensures r.Some? <==> Linked(c.ourh)
    ensures r.Some? ==> r.value == FormatHeadline(c.ourh.value.text, c.ourh.value.href.value, [])
  {
    if Linked(c.ourh) then Some(FormatHeadline(c.ourh.value.text, c.ourh.value.href.value, [])) else None
  }

  /** `fetch_techmeme`: on a failed fetch only the error line (no header);
      otherwise the header and one line per readable story among the first 15. */
  function Techmeme(fetched: Result<seq<Cluster>>): (r: seq<string>)
    ensures fetched.Failure? ==> r == [FetchError(TechmemeUrl, fetched.error)]
    ensures fetched.Success? ==> r == [TechmemeHeader] + FilterMap(Cap(fetched.value, MaxHeadlines), ClusterLine)
  {
    match fetched
    case Failure(e) => [FetchError(TechmemeUrl, e)]
    case Success(stories) => [TechmemeHeader] + FilterMap(Cap(stories, MaxHeadlines), ClusterLine)
  }

  /** The Techmeme section: header first and at most 15 story lines; every
      line comes from a linked story among the first 15, and every such story
      has its line. A failed fetch writes no header. */
  lemma {:induction false} TechmemeShape(fetched: Result<seq<Cluster>>)
    ensures fetched.Failure? ==> |Techmeme(fetched)| == 1 && TechmemeHeader !in Techmeme(fetched)
    ensures fetched.Success? ==> Techmeme(fetched)[0] == TechmemeHeader
    ensures |Techmeme(fetched)| <= MaxHeadlines + 1
    ensures fetched.Success? ==>
              forall c :: c in Cap(fetched.value, MaxHeadlines) && Linked(c.ourh) ==>
                FormatHeadline(c.ourh.value.text, c.ourh.value.href.value, []) in Techmeme(fetched)[1..]
    ensures fetched.Success? ==>
              forall line :: line in Techmeme(fetched)[1..] ==>
                exists c :: c in Cap(fetched.value, MaxHeadlines) && ClusterLine(c) == Some(line)
  {
    if fetched.Success? {
      FilterMapMembers(Cap(fetched.value, MaxHeadlines), ClusterLine);
      assert Techmeme(fetched)[1..] == FilterMap(Cap(fetched.value, MaxHeadlines), ClusterLine);
    } else {
      assert TechmemeHeader[0] == 'T';
    }
  }

  /** The line for one Hacker News story: a story without a title is shown as
      `Untitled`, and the link is the item page. */
  function HnLine(id: int, title: Option<string>): (r: string)
    ensures r == FormatHeadline(title.GetOr("Untitled"), HnUrl + "item?id=" + IntToString(id), [])
  {
    FormatHeadline(title.GetOr("Untitled"), HnUrl + "item?id=" + IntToString(id), [])
  }

  /** The warning line of the Hacker News section. */
  function HnError(message: string): string {
    WarningLine("Error fetching HN: " + message)
  }

  /** The story loop of `fetch_hn`. `item(id)` is the story fetch: its
      failure (a network or JSON error) ends the loop with the warning line. */
  function HnStories(ids: seq<int>, item: int -> Result<Option<string>>): (r: seq<string>)
    ensures |r| <= |ids|
    decreases |ids|
  {
    if |ids| == 0 then []
    else
      match item(ids[0])
      case Failure(e) => [HnError(e)]
      case Success(title) => [HnLine(ids[0], title)] + HnStories(ids[1..], item)
  }

  /** `fetch_hn`: the header is always written; then one line per story of the
      first 15 ids, up to the first failed fetch, which writes the warning. */
  function Hn(ids: Result<seq<int>>, item: int -> Result<Option<string>>): (r: seq<string>)
    ensures |r| >= 1 && r[0] == HnHeader
    ensures ids.Failure? ==> r == [HnHeader, HnError(ids.error)]
  {
    match ids
    case Failure(e) => [HnHeader, HnError(e)]
    case Success(ids) => [HnHeader] + HnStories(Cap(ids, MaxHeadlines), item)
  }

  /** When every story fetch succeeds, the section has one line per id of the
      first 15, in id order. */
  lemma {:induction false} HnStoriesAllFetched(ids: seq<int>, item: int -> Result<Option<string>>)
    requires forall k :: 0 <= k < |ids| ==> item(ids[k]).Success?
    ensures |HnStories(ids, item)| == |ids|
    ensures forall k :: 0 <= k < |ids| ==> HnStories(ids, item)[k] == HnLine(ids[k], item(ids[k]).value)
    decreases |ids|
  {
    if |ids| > 0 {
      assert item(ids[0]).Success?;
      HnStoriesAllFetched(ids[1..], item);
    }
  }

  /** A failed story fetch at position `k` ends the section: the lines of the
      stories before it, then the warning, and nothing of the later ids. */
  lemma {:induction false} HnStoriesStopAtFailure(ids: seq<int>, item: int -> Result<Option<string>>, k: nat)
    requires k < |ids| && item(ids[k]).Failure?
    requires forall j :: 0 <= j < k ==> item(ids[j]).Success?
    ensures |HnStories(ids, item)| == k + 1
    ensures HnStories(ids, item)[k] == HnError(item(ids[k]).error)
    ensures forall j :: 0 <= j < k ==> HnStories(ids, item)[j] == HnLine(ids[j], item(ids[j]).value)
    decreases k
  {
    var rest := ids[1..];
    if k > 0 {
      assert item(ids[0]).Success?;
      forall j | 0 <= j < k - 1 ensures item(rest[j]).Success? {
        assert rest[j] == ids[j + 1];
      }
      HnStoriesStopAtFailure(rest, item, k - 1);
      assert HnStories(ids, item) == [HnLine(ids[0], item(ids[0]).value)] + HnStories(rest, item);
    }
  }

  /** The line for one Lobste.rs story of the combined menus, or None when the
      story has no link element or its link has no `href`. */
  function StoryLine(s: Story): (r: Option<string>)
    ensures r.Some? <==> Linked(s.link)
    ensures r.Some? ==> r.value == FormatHeadline(s.link.value.text, s.link.value.href.value, s.tags)
  {
    if Linked(s.link) then Some(FormatHeadline(s.link.value.text, s.link.value.href.value, s.tags)) else None
  }

  /** `fetch_lobsters`: on a failed fetch only the error line; otherwise the
      header and one line per linked story among the first 15. */
  function Lobsters(fetched: Result<seq<Story>>): (r: seq<string>)
    ensures fetched.Failure? ==> r == [FetchError(LobstersUrl, fetched.error)]
    ensures fetched.Success? ==> r == [LobstersHeader] + FilterMap(Cap(fetched.value, MaxHeadlines), StoryLine)
  {
    match fetched
    case Failure(e) => [FetchError(LobstersUrl, e)]
    case Success(stories) => [LobstersHeader] + FilterMap(Cap(stories, MaxHeadlines), StoryLine)
  }

  /** The Lobste.rs section: at most 15 story lines, a story without a link is
      never emitted, and every linked story among the first 15 is, with its
      tags ahead of the title. */
  lemma {:induction false} LobstersShape(fetched: Result<seq<Story>>)
    ensures fetched.Failure? ==> |Lobsters(fetched)| == 1 && LobstersHeader !in Lobsters(fetched)
    ensures fetched.Success? ==> Lobsters(fetched)[0] == LobstersHeader
    ensures |Lobsters(fetched)| <= MaxHeadlines + 1
    ensures fetched.Success? ==>
              forall s :: s in Cap(fetched.value, MaxHeadlines) && Linked(s.link) ==>
                FormatHeadline(s.link.value.text, s.link.value.href.value, s.tags) in Lobsters(fetched)[1..]
    ensures fetched.Success? ==>
              forall line :: line in Lobsters(fetched)[1..] ==>
                exists s :: s in Cap(fetched.value, MaxHeadlines) && Linked(s.link) && StoryLine(s) == Some(line)
  {
    if fetched.Success? {
      FilterMapMembers(Cap(fetched.value, MaxHeadlines), StoryLine);
      assert Lobsters(fetched)[1..] == FilterMap(Cap(fetched.value, MaxHeadlines), StoryLine);
    } else {
      assert LobstersHeader[0] == 'L';
    }
  }

  /** The stories after the 15th never reach the menu. */
  lemma {:induction false} LobstersIgnoresLater(stories: seq<Story>, later: seq<Story>)
    requires |stories| >= MaxHeadlines
    ensures Lobsters(Success(stories + later)) == Lobsters(Success(stories))
  {
    assert Cap(stories + later, MaxHeadlines) == Cap(stories, MaxHeadlines) by {
      assert (stories + later)[..MaxHeadlines] == stories[..MaxHeadlines];
      assert |stories| == MaxHeadlines ==> stories[..MaxHeadlines] == stories;
    }
  }

  /** `main`: the sections in their fixed order, between the menu-bar symbol
      and the footer. The fetches run concurrently; only the order in which
      their buffers are printed is modelled. `status` is the time stamp line. */
  function Menu(techmeme: seq<string>, hn: seq<string>, lobsters: seq<string>, status: string): (r: seq<string>)
    ensures |r| == 8 && r[2..5] == [Concat(techmeme), Concat(hn), Concat(lobsters)]
    ensures r[|r| - 1] == "Refresh | refresh=true"
  {
    ["􀒗", "---", Concat(techmeme), Concat(hn), Concat(lobsters), "---", status, "Refresh | refresh=true"]
  }
}

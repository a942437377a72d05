/** The standalone Lobste.rs plugin (lobsters.120m.py): the first tag ahead
    of the title, every tag in the tooltip, and a plain `...` ellipsis. */
module LobstersMenu {
  import opened Wrappers
  import opened Text
  import opened Headlines
  import TechNews

  /** Title length beyond which the display is cut. */
  const LineLength: nat := 80

  const LobstersUrl: string := "https://lobste.rs"

  /** The shown title: at most 80 characters, then `...`. */
  function DisplayTitle(title: string): (r: string)
    ensures |title| <= LineLength ==> r == title
    ensures |title| > LineLength ==> |r| == LineLength + 3 && r[..LineLength] == title[..LineLength]
    ensures |title| > LineLength ==> r[LineLength..] == "..."
  {
    Ellipsize(title, LineLength, LineLength, "...")
  }

  /** `[t1]` ahead of the title when there are tags. */
  function FirstTag(tags: seq<string>): (r: string)
    ensures |tags| == 0 <==> r == ""
    ensures |tags| > 0 ==> r == "[" + tags[0] + "] "
  {
    if |tags| == 0 then "" else "[" + tags[0] + "] "
  }

  /** The tooltip's tag text: `[t1, t2]`, or `No tags`. */
  function TagText(tags: seq<string>): (r: string)
    ensures |tags| == 0 <==> r == "No tags"
    ensures |tags| > 0 ==> r == "[" + Join(tags, ", ") + "]"
  {
    if |tags| == 0 then "No tags"
    else
      var r := "[" + Join(tags, ", ") + "]";
      assert r[0] != "No tags"[0];
      r
  }

  /** Every tag appears in the tooltip. */
  lemma {:induction false} EveryTagInTooltip(tags: seq<string>, i: nat)
    requires i < |tags|
    ensures Contains(TagText(tags), tags[i])
  {
    JoinMember(tags, ", ", i);
    ContainsWithin("[", Join(tags, ", "), "]", tags[i]);
  }

  /** `format_headline(story)` for a story whose link element has an `href`. */
  function FormatStory(title: string, url: string, tags: seq<string>): (r: string)
    ensures FirstTag(tags) + DisplayTitle(title) + " | href=" + url + " " <= r
    ensures Contains(r, "tooltip=\"" + title + " - Tags: " + TagText(tags) + "\"")
  {
    var head := FirstTag(tags) + DisplayTitle(title) + " | href=" + url + " ";
    var tip := "tooltip=\"" + title + " - Tags: " + TagText(tags) + "\"";
    ContainsMiddle(head, tip, "");
    assert head + tip + "" == head + tip;
    head + tip
  }

  /** Only the first tag is shown ahead of the title, and a long title never
      cuts into it. */
  lemma {:induction false} FirstTagShown(title: string, url: string, tags: seq<string>)
    requires |tags| > 0
    ensures "[" + tags[0] + "] " <= FormatStory(title, url, tags)
    ensures |title| > LineLength ==> "[" + tags[0] + "] " + title[..LineLength] + "..." <= FormatStory(title, url, tags)
  {
    var p := FirstTag(tags);
    var d := DisplayTitle(title);
    var line := FormatStory(title, url, tags);
    LeadOf(p, d, " | href=", url, " ");
    PrefixTrans(p, p + d + " | href=" + url + " ", line);
    PrefixTrans(p + d, p + d + " | href=" + url + " ", line);
    if |title| > LineLength {
      SplitJoin(d, LineLength);
      assert p + title[..LineLength] + "..." == p + d;
    }
  }

  /** Formatting one story that has a link element: a link without an `href`
      raises a KeyError that nothing catches. */
  function StoryHeadline(s: TechNews.Story): (r: Result<string>)
    requires s.link.Some?
    ensures r.Success? <==> s.link.value.href.Some?
    ensures r.Success? ==> r.value == FormatStory(s.link.value.text, s.link.value.href.value, s.tags)
  {
    match s.link.value.href
    case None => Failure("KeyError: 'href'")
    case Some(url) => Success(FormatStory(s.link.value.text, url, s.tags))
  }

  /** The stories the comprehension formats: those with a link element. */
  function WithLink(stories: seq<TechNews.Story>): (r: seq<TechNews.Story>)
    ensures |r| <= |stories|
    ensures forall s :: s in r ==> s in stories && s.link.Some?
    ensures forall s :: s in stories && s.link.Some? ==> s in r
  {
    if |stories| == 0 then []
    else (if stories[0].link.Some? then [stories[0]] else []) + WithLink(stories[1..])
  }

  /** Formats the stories in order; the first failure escapes. */
  function FormatAll(stories: seq<TechNews.Story>): (r: Result<seq<string>>)
    requires forall s :: s in stories ==> s.link.Some?
    ensures r.Success? <==> forall s :: s in stories ==> s.link.value.href.Some?
    ensures r.Success? ==> |r.value| == |stories|
    ensures r.Success? ==> forall i :: 0 <= i < |stories| ==> r.value[i] == StoryHeadline(stories[i]).value
  {
    if |stories| == 0 then Success([])
    else
      match StoryHeadline(stories[0])
      case Failure(e) => Failure(e)
      case Success(line) =>
        match FormatAll(stories[1..])
        case Failure(e) => Failure(e)
        case Success(lines) =>
          assert forall s :: s in stories ==> s == stories[0] || s in stories[1..];
          Success([line] + lines)
  }

  /** `fetch_lobsters_headlines`: a failed fetch gives the single warning
      string; otherwise one headline per story with a link element among the
      first 15. A Failure is the script crashing on a link without `href`. */
  function FetchHeadlines(fetched: Result<seq<TechNews.Story>>): (r: Result<seq<string>>)
    ensures fetched.Failure? ==> r == Success(["⚠️ Error fetching Lobste.rs: " + fetched.error])
    ensures fetched.Success? ==> r == FormatAll(WithLink(Cap(fetched.value, MaxHeadlines)))
  {
    match fetched
    case Failure(e) => Success(["⚠️ Error fetching Lobste.rs: " + e])
    case Success(stories) => FormatAll(WithLink(Cap(stories, MaxHeadlines)))
  }

  /** With every link element carrying an `href`, the list has one headline
      per linked story among the first 15 and never more than 15. */
  lemma {:induction false} FetchHeadlinesShape(stories: seq<TechNews.Story>)
    requires forall s :: s in Cap(stories, MaxHeadlines) && s.link.Some? ==> s.link.value.href.Some?
    ensures FetchHeadlines(Success(stories)).Success?
    ensures |FetchHeadlines(Success(stories)).value| == |WithLink(Cap(stories, MaxHeadlines))| <= MaxHeadlines
    ensures forall s :: s in Cap(stories, MaxHeadlines) && s.link.Some? ==>
              FormatStory(s.link.value.text, s.link.value.href.value, s.tags) in FetchHeadlines(Success(stories)).value
  {
    var kept := WithLink(Cap(stories, MaxHeadlines));
    var lines := FetchHeadlines(Success(stories)).value;
    forall s | s in Cap(stories, MaxHeadlines) && s.link.Some?
      ensures FormatStory(s.link.value.text, s.link.value.href.value, s.tags) in lines
    {
      var i :| 0 <= i < |kept| && kept[i] == s;
      assert lines[i] == StoryHeadline(kept[i]).value;
    }
  }

  /** `main`: the menu header, the headlines, and the footer. */
  function Menu(headlines: seq<string>): (r: seq<string>)
    ensures |r| == |headlines| + 5 && r[3..|r| - 2] == headlines
  {
    ["🦞", "---", "Lobste.rs Home | href=" + LobstersUrl + "\n---"] + headlines + ["---", "Refresh | refresh=true"]
  }
}

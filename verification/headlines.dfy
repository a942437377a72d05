/** The story record and the display rules the news plugins share
    (daily_news_uv.2hr.py, tech_news_uv.3hr.py, bnd.12h.py, stl_news.6hr.py). */
module Headlines {
  import opened Wrappers
  import opened Text

  /** A scraped story. The BND script's record has no summary; it is "" here. */
  datatype Article = Article(headline: string, link: string, summary: string, category: string)

  /** Most stories a combined section shows. */
  const MaxHeadlines: nat := 15
  /** Title length beyond which `format_headline` trims. */
  const TrimLength: nat := 80
  /** Display width of the STL and BND menu items. */
  const MenuWidth: nat := 75

  /** `link.startswith('http')`. */
  predicate IsAbsolute(link: string) {
    "http" <= link
  }

  /** `Article.with_full_link`: completes a relative link with `base`. */
  function WithFullLink(a: Article, base: string): (r: Article)
    ensures r == a.(link := r.link)
    ensures IsAbsolute(a.link) ==> r.link == a.link
    ensures !IsAbsolute(a.link) ==> r.link == base + a.link
  {
    if IsAbsolute(a.link) then a else a.(link := base + a.link)
  }

  /** Completing a link with an absolute base yields an absolute link, and
      completing it again changes nothing. */
  lemma {:induction false} WithFullLinkIdempotent(a: Article, base: string)
    requires IsAbsolute(base)
    ensures IsAbsolute(WithFullLink(a, base).link)
    ensures WithFullLink(WithFullLink(a, base), base) == WithFullLink(a, base)
  {
    if !IsAbsolute(a.link) {
      assert (base + a.link)[..4] == base[..4];
    }
  }

  /** `[t1, t2] ` ahead of a headline, or nothing without tags. */
  function TagPrefix(tags: seq<string>): (r: string)
    ensures |tags| == 0 <==> r == ""
    ensures |tags| > 0 ==> |r| >= 3 && r[0] == '[' && r[|r| - 2..] == "] "
  {
    if |tags| == 0 then "" else "[" + Join(tags, ", ") + "] "
  }

  /** The shown part of a title: at most 80 characters and an ellipsis. */
  function TrimTitle(title: string): (r: string)
    ensures |title| <= TrimLength ==> r == title
    ensures |title| > TrimLength ==> |r| == TrimLength + 1 && r[..TrimLength] == title[..TrimLength]
    ensures |title| > TrimLength ==> r[TrimLength] == '…'
  {
    Ellipsize(title, TrimLength, TrimLength, "…")
  }

  /** `format_headline(title, url, tags)`: one submenu line. */
  function FormatHeadline(title: string, url: string, tags: seq<string>): (r: string)
    ensures "--" + TagPrefix(tags) + TrimTitle(title) + " | href=" + url + " " <= r
    ensures Contains(r, "tooltip=\"" + title + "\"")
    ensures r[|r| - 1] == '\n'
  {
    var head := "--" + TagPrefix(tags) + TrimTitle(title) + " | href=" + url + " ";
    var tip := "tooltip=\"" + title + "\"";
    var tail := " length=80 trim=true\n";
    ContainsMiddle(head, tip, tail);
    head + tip + tail
  }

  /** Whatever the title, the line starts with the submenu marker and the full
      tag prefix: trimming only ever shortens the title. */
  lemma TrimSparesPrefix(title: string, url: string, tags: seq<string>)
    ensures "--" + TagPrefix(tags) <= FormatHeadline(title, url, tags)
    ensures |tags| == 0 ==> "--" + TrimTitle(title) <= FormatHeadline(title, url, tags)
  {
    var r := FormatHeadline(title, url, tags);
    var p := "--" + TagPrefix(tags);
    assert p + TrimTitle(title) + " | href=" + url + " " <= r;
    assert r[..|p|] == p;
  }

  /** The STL and BND width rule: longer than 75 becomes the first 72
      characters and `...`, exactly 75 long. */
  function FitMenu(display: string): (r: string)
    ensures |r| <= MenuWidth
    ensures |display| <= MenuWidth ==> r == display
    ensures |display| > MenuWidth ==> |r| == MenuWidth && r[..MenuWidth - 3] == display[..MenuWidth - 3]
    ensures |display| > MenuWidth ==> r[MenuWidth - 3..] == "..."
  {
    Ellipsize(display, MenuWidth, MenuWidth - 3, "...")
  }

  /** `xs[:n]` on a list. */
  function Cap<T>(xs: seq<T>, n: nat): (r: seq<T>)
    ensures r <= xs
    ensures |r| <= n
    ensures |xs| <= n ==> r == xs
  {
    Take(xs, n)
  }

  /** A prefix that is either `n` long or everything is what `xs[:n]` gives. */
  lemma {:induction false} CapOfPrefix<T>(p: seq<T>, xs: seq<T>, n: nat)
    requires p <= xs && |p| <= n
    requires |p| == n || p == xs
    ensures Cap(xs, n) == p
  {
  }

  /** Concatenation of the lines a section writes to its buffer. */
  function Concat(lines: seq<string>): (r: string)
    ensures |lines| == 0 ==> r == ""
    decreases |lines|
  {
    if |lines| == 0 then "" else Concat(lines[..|lines| - 1]) + lines[|lines| - 1]
  }

  /** The warning line a section writes instead of its stories. */
  function WarningLine(message: string): string {
    "--⚠️ " + message + "\n"
  }

  /** Sequence facts the list-building proofs use, stated once so that each
      proof meets them without unfolding its own definitions. */
  lemma {:induction false} SplitJoin<T>(s: seq<T>, i: nat)
    requires i <= |s|
    ensures s[..i] + s[i..] == s
  {
  }

  lemma {:induction false} PrefixStep<T>(s: seq<T>, i: nat)
    requires i < |s|
    ensures s[..i + 1][..i] == s[..i] && s[..i + 1][i] == s[i]
  {
  }

  lemma {:induction false} AppendInit<T>(xs: seq<T>, ys: seq<T>)
    requires |ys| > 0
    ensures (xs + ys)[..|xs + ys| - 1] == xs + ys[..|ys| - 1]
    ensures (xs + ys)[|xs + ys| - 1] == ys[|ys| - 1]
  {
  }

  lemma {:induction false} SplitAt<T>(s: seq<T>, k: nat)
    requires k < |s|
    ensures s == s[..k] + [s[k]] + s[k + 1..]
  {
  }

  lemma {:induction false} TailOfAppend<T>(a: seq<T>, b: seq<T>)
    requires |a| > 0
    ensures (a + b)[0] == a[0] && (a + b)[1..] == a[1..] + b
  {
  }

  lemma {:induction false} AppendAssoc<T>(a: seq<T>, b: seq<T>, c: seq<T>)
    ensures a + (b + c) == (a + b) + c
  {
  }

  lemma {:induction false} AppendEmpty<T>(a: seq<T>, b: seq<T>)
    requires |a| == 0
    ensures a + b == b
  {
  }

  lemma {:induction false} Whole<T>(s: seq<T>)
    ensures s[..|s|] == s
  {
  }

  /** The leading pieces of a line built from five pieces. */
  lemma {:induction false} LeadOf<T>(a: seq<T>, b: seq<T>, c: seq<T>, d: seq<T>, e: seq<T>)
    ensures a <= a + b + c + d + e && a + b <= a + b + c + d + e
  {
    assert a + b + c + d + e == (a + b) + (c + d + e);
    PrefixOfAppend(a + b, c + d + e);
    PrefixOfAppend(a, b);
    PrefixTrans(a, a + b, a + b + c + d + e);
  }

  lemma {:induction false} PrefixOfAppend<T>(a: seq<T>, b: seq<T>)
    ensures a <= a + b
  {
    assert (a + b)[..|a|] == a;
  }

  lemma {:induction false} PrefixTrans<T>(a: seq<T>, b: seq<T>, c: seq<T>)
    requires a <= b && b <= c
    ensures a <= c
  {
    assert c[..|a|] == c[..|b|][..|a|];
  }

  /** The parts of a list, one after another. */
  function Flatten<T>(parts: seq<seq<T>>): (r: seq<T>)
    decreases |parts|
  {
    if |parts| == 0 then [] else Flatten(parts[..|parts| - 1]) + parts[|parts| - 1]
  }

  lemma {:induction false} FlattenAppend<T>(xs: seq<seq<T>>, ys: seq<seq<T>>)
    ensures Flatten(xs + ys) == Flatten(xs) + Flatten(ys)
    decreases |ys|
  {
    if |ys| == 0 {
      assert xs + ys == xs;
    } else {
      var ys' := ys[..|ys| - 1];
      AppendInit(xs, ys);
      FlattenAppend(xs, ys');
      assert Flatten(xs) + Flatten(ys') + ys[|ys| - 1] == Flatten(xs) + (Flatten(ys') + ys[|ys| - 1]);
    }
  }

  /** Every element of every part is in the flattened list. */
  lemma {:induction false} FlattenMember<T>(parts: seq<seq<T>>, i: nat, x: T)
    requires i < |parts| && x in parts[i]
    ensures x in Flatten(parts)
    decreases |parts|
  {
    if i < |parts| - 1 {
      FlattenMember(parts[..|parts| - 1], i, x);
    }
  }

  lemma {:induction false} FlattenPrefix<T>(parts: seq<seq<T>>, i: nat)
    requires i <= |parts|
    ensures Flatten(parts[..i]) <= Flatten(parts)
  {
    FlattenAppend(parts[..i], parts[i..]);
    SplitJoin(parts, i);
  }

  /** A capped read of one more part of a list, the bookkeeping every capped
      loop of the combined menu repeats: what was read stays a prefix of the
      whole list, and is all of it through the part while below the cap. */
  lemma {:induction false} CappedStep<T>(parts: seq<seq<T>>, i: nat, before: seq<T>, after: seq<T>, n: nat)
    requires i < |parts|
    requires before == Flatten(parts[..i])
    requires after <= before + parts[i]
    requires |after| < n ==> after == before + parts[i]
    ensures after <= Flatten(parts)
    ensures |after| < n ==> after == Flatten(parts[..i + 1])
  {
    PrefixStep(parts, i);
    assert Flatten(parts[..i + 1]) == before + parts[i];
    FlattenPrefix(parts, i + 1);
    PrefixTrans(after, Flatten(parts[..i + 1]), Flatten(parts));
  }

  /** The results of `f` on the elements it accepts, in order: a loop that
      skips an element when reading it fails. */
  function FilterMap<A, B>(xs: seq<A>, f: A -> Option<B>): (r: seq<B>)
    ensures |r| <= |xs|
    decreases |xs|
  {
    if |xs| == 0 then []
    else
      var last := f(xs[|xs| - 1]);
      FilterMap(xs[..|xs| - 1], f) + (if last.Some? then [last.value] else [])
  }

  /** Every result comes from an accepted element, every accepted element
      gives its result, and nothing is lost when every element is accepted. */
  lemma {:induction false} FilterMapMembers<A, B>(xs: seq<A>, f: A -> Option<B>)
    ensures forall y :: y in FilterMap(xs, f) ==> exists x :: x in xs && f(x) == Some(y)
    ensures forall x :: x in xs && f(x).Some? ==> f(x).value in FilterMap(xs, f)
    ensures (forall x :: x in xs ==> f(x).Some?) ==> |FilterMap(xs, f)| == |xs|
    decreases |xs|
  {
    if |xs| > 0 {
      var init := xs[..|xs| - 1];
      FilterMapMembers(init, f);
      assert xs == init + [xs[|xs| - 1]];
    }
  }

  /** Filtering keeps the order of the input: it distributes over `+`. */
  lemma {:induction false} FilterMapAppend<A, B>(xs: seq<A>, ys: seq<A>, f: A -> Option<B>)
    ensures FilterMap(xs + ys, f) == FilterMap(xs, f) + FilterMap(ys, f)
    decreases |ys|
  {
    if |ys| == 0 {
      assert xs + ys == xs;
    } else {
      var ys' := ys[..|ys| - 1];
      AppendInit(xs, ys);
      FilterMapAppend(xs, ys', f);
      var tail := (var last := f(ys[|ys| - 1]); if last.Some? then [last.value] else []);
      assert FilterMap(xs, f) + FilterMap(ys', f) + tail == FilterMap(xs, f) + (FilterMap(ys', f) + tail);
    }
  }

  /** One element on its own: its result, or nothing. */
  lemma {:induction false} FilterMapOne<A, B>(x: A, f: A -> Option<B>)
    ensures FilterMap([x], f) == if f(x).Some? then [f(x).value] else []
  {
    assert [x][..0] == [];
  }

  /** Applies `f` to each element in order; the first failure escapes, as an
      uncaught exception ends a script's loop. */
  function Traverse<A, B>(xs: seq<A>, f: A -> Result<B>): (r: Result<seq<B>>)
    decreases |xs|
  {
    if |xs| == 0 then Success([])
    else
      match f(xs[0])
      case Failure(e) => Failure(e)
      case Success(y) =>
        match Traverse(xs[1..], f)
        case Failure(e) => Failure(e)
        case Success(ys) => Success([y] + ys)
  }

  /** The loop completes exactly when every element succeeds, and then gives
      one result per element, in order; otherwise the error is that of the
      first failing element. */
  lemma {:induction false} TraverseAll<A, B>(xs: seq<A>, f: A -> Result<B>)
    ensures Traverse(xs, f).Success? <==> forall i :: 0 <= i < |xs| ==> f(xs[i]).Success?
    ensures Traverse(xs, f).Success? ==>
              |Traverse(xs, f).value| == |xs| && forall i :: 0 <= i < |xs| ==> Traverse(xs, f).value[i] == f(xs[i]).value
    ensures Traverse(xs, f).Failure? ==>
              exists k :: 0 <= k < |xs| && f(xs[k]).Failure? && Traverse(xs, f).error == f(xs[k]).error
                          && forall j :: 0 <= j < k ==> f(xs[j]).Success?
    decreases |xs|
  {
    if |xs| > 0 {
      var rest := xs[1..];
      TraverseAll(rest, f);
      assert forall i :: 0 < i < |xs| ==> xs[i] == rest[i - 1];
      if f(xs[0]).Success? && Traverse(rest, f).Failure? {
        var k :| 0 <= k < |rest| && f(rest[k]).Failure? && Traverse(rest, f).error == f(rest[k]).error
                 && forall j :: 0 <= j < k ==> f(rest[j]).Success?;
        assert xs[k + 1] == rest[k];
        assert forall j :: 0 < j < k + 1 ==> f(xs[j]).Success? by {
          forall j | 0 < j < k + 1 ensures f(xs[j]).Success? { assert f(rest[j - 1]).Success?; }
        }
      }
    }
  }

  /** What the script printed, and the exception that ended it, if any. */
  datatype Output = Output(lines: seq<string>, crash: Option<string>)

  /** Printing after a crash prints nothing. */
  function Print(o: Output, lines: seq<string>): (r: Output)
    ensures o.crash.Some? ==> r == o
    ensures o.crash.None? ==> r == Output(o.lines + lines, None)
  {
    if o.crash.Some? then o else o.(lines := o.lines + lines)
  }

  /** Prints the line of each element in turn; the first element whose line
      raises ends the script there. */
  function PrintEach<A>(o: Output, xs: seq<A>, line: A -> Result<string>): (r: Output)
    ensures |r.lines| >= |o.lines| && r.lines[..|o.lines|] == o.lines
    ensures o.crash.Some? ==> r == o
    decreases |xs|
  {
    if o.crash.Some? || |xs| == 0 then o
    else
      match line(xs[0])
      case Failure(e) => o.(crash := Some(e))
      case Success(l) => PrintEach(Print(o, [l]), xs[1..], line)
  }

  /** When every line can be made, each element prints its line, in order. */
  lemma {:induction false} PrintEachAll<A>(lines: seq<string>, xs: seq<A>, line: A -> Result<string>)
    requires forall i :: 0 <= i < |xs| ==> line(xs[i]).Success?
    ensures var r := PrintEach(Output(lines, None), xs, line);
      && r.crash.None? && |r.lines| == |lines| + |xs| && r.lines[..|lines|] == lines
      && forall i :: 0 <= i < |xs| ==> line(xs[i]) == Success(r.lines[|lines| + i])
    decreases |xs|
  {
    if |xs| > 0 {
      var l := line(xs[0]).value;
      PrintEachAll(lines + [l], xs[1..], line);
      var r := PrintEach(Output(lines + [l], None), xs[1..], line);
      assert r.lines[..|lines| + 1][..|lines|] == r.lines[..|lines|];
      forall i | 0 <= i < |xs| ensures line(xs[i]) == Success(r.lines[|lines| + i]) {
        if i > 0 {
          assert xs[1..][i - 1] == xs[i];
        }
      }
    }
  }

  /** `PrintEachAll` for a script that has printed nothing yet. */
  lemma {:induction false} PrintEachFresh<A>(xs: seq<A>, line: A -> Result<string>)
    requires forall i :: 0 <= i < |xs| ==> line(xs[i]).Success?
    ensures var r := PrintEach(Output([], None), xs, line);
      && r.crash.None? && |r.lines| == |xs|
      && forall i :: 0 <= i < |xs| ==> line(xs[i]) == Success(r.lines[i])
  {
    PrintEachAll([], xs, line);
  }

  /** The first element whose line raises: everything before it is printed,
      then the script ends with its error. */
  lemma {:induction false} PrintEachStops<A>(lines: seq<string>, xs: seq<A>, line: A -> Result<string>, k: nat)
    requires k < |xs| && line(xs[k]).Failure?
    requires forall i :: 0 <= i < k ==> line(xs[i]).Success?
    ensures var r := PrintEach(Output(lines, None), xs, line);
      && r.crash == Some(line(xs[k]).error) && |r.lines| == |lines| + k && r.lines[..|lines|] == lines
      && forall i :: 0 <= i < k ==> line(xs[i]) == Success(r.lines[|lines| + i])
    decreases k
  {
    if k > 0 {
      var l := line(xs[0]).value;
      assert forall i :: 0 <= i < k - 1 ==> xs[1..][i] == xs[i + 1];
      PrintEachStops(lines + [l], xs[1..], line, k - 1);
      var r := PrintEach(Output(lines + [l], None), xs[1..], line);
      assert r.lines[..|lines| + 1][..|lines|] == r.lines[..|lines|];
      forall i | 0 <= i < k ensures line(xs[i]) == Success(r.lines[|lines| + i]) {
        if i > 0 {
          assert xs[1..][i - 1] == xs[i];
        }
      }
    }
  }

  /** `PrintEachStops` for a script that has printed nothing yet. */
  lemma {:induction false} PrintEachStopsFresh<A>(xs: seq<A>, line: A -> Result<string>, k: nat)
    requires k < |xs| && line(xs[k]).Failure?
    requires forall i :: 0 <= i < k ==> line(xs[i]).Success?
    ensures var r := PrintEach(Output([], None), xs, line);
      && r.crash == Some(line(xs[k]).error) && |r.lines| == k
      && forall i :: 0 <= i < k ==> line(xs[i]) == Success(r.lines[i])
  {
    PrintEachStops([], xs, line, k);
  }

  /** Prints each block of lines in turn; the first block that raises ends
      the script there. */
  function PrintBlocks(o: Output, blocks: seq<Result<seq<string>>>): (r: Output)
    ensures |r.lines| >= |o.lines| && r.lines[..|o.lines|] == o.lines
    ensures o.crash.Some? ==> r == o
    decreases |blocks|
  {
    if |blocks| == 0 then o
    else
      var p := PrintBlocks(o, blocks[..|blocks| - 1]);
      if p.crash.Some? then p
      else
        match blocks[|blocks| - 1]
        case Failure(e) => p.(crash := Some(e))
        case Success(lines) =>
          assert (p.lines + lines)[..|o.lines|] == p.lines[..|o.lines|];
          Print(p, lines)
  }

  /** The lines of each block, none for a block that raises. */
  function Printed(blocks: seq<Result<seq<string>>>): (r: seq<seq<string>>)
    ensures |r| == |blocks|
    ensures forall i :: 0 <= i < |r| && blocks[i].Success? ==> r[i] == blocks[i].value
    ensures forall i :: 0 <= i < |r| && blocks[i].Failure? ==> r[i] == []
    decreases |blocks|
  {
    if |blocks| == 0 then []
    else
      var last := match blocks[|blocks| - 1] case Success(b) => b case Failure(_) => [];
      Printed(blocks[..|blocks| - 1]) + [last]
  }

  /** `k` is the first block that raises (or the number of blocks when none
      does): the blocks before it are printed, in order, and the script ends
      with its error. */
  lemma {:induction false} PrintBlocksUpTo(lines: seq<string>, blocks: seq<Result<seq<string>>>, k: nat)
    requires k <= |blocks|
    requires forall i :: 0 <= i < k ==> blocks[i].Success?
    requires k < |blocks| ==> blocks[k].Failure?
    ensures PrintBlocks(Output(lines, None), blocks).lines == lines + Flatten(Printed(blocks[..k]))
    ensures k < |blocks| ==> PrintBlocks(Output(lines, None), blocks).crash == Some(blocks[k].error)
    ensures k == |blocks| ==> PrintBlocks(Output(lines, None), blocks).crash.None?
  {
    var o := Output(lines, None);
    if k == |blocks| {
      assert blocks[..k] == blocks;
      PrintBlocksAll(lines, blocks);
    } else {
      var pre := blocks[..k + 1];
      assert pre[..k] == blocks[..k] && pre[k] == blocks[k];
      PrintBlocksAll(lines, blocks[..k]);
      PrintBlocksRaise(o, pre);
      PrintBlocksCrashed(o, blocks, k + 1);
    }
  }

  /** When no block raises, every block is printed, in order. */
  lemma {:induction false} PrintBlocksAll(lines: seq<string>, blocks: seq<Result<seq<string>>>)
    requires forall i :: 0 <= i < |blocks| ==> blocks[i].Success?
    ensures PrintBlocks(Output(lines, None), blocks) == Output(lines + Flatten(Printed(blocks)), None)
    decreases |blocks|
  {
    if |blocks| > 0 {
      var init := blocks[..|blocks| - 1];
      PrintBlocksAll(lines, init);
      PrintBlocksPrint(Output(lines, None), blocks);
      PrintedStep(blocks);
    }
  }

  /** Once a prefix has crashed, the blocks after it print nothing. */
  lemma {:induction false} PrintBlocksCrashed(o: Output, blocks: seq<Result<seq<string>>>, m: nat)
    requires m <= |blocks| && PrintBlocks(o, blocks[..m]).crash.Some?
    ensures PrintBlocks(o, blocks) == PrintBlocks(o, blocks[..m])
    decreases |blocks|
  {
    if |blocks| == m {
      assert blocks[..m] == blocks;
    } else {
      var init := blocks[..|blocks| - 1];
      assert init[..m] == blocks[..m];
      PrintBlocksCrashed(o, init, m);
      PrintBlocksAfterCrash(o, blocks);
    }
  }

  /** After a crash, a further block prints nothing. */
  lemma {:induction false} PrintBlocksAfterCrash(o: Output, blocks: seq<Result<seq<string>>>)
    requires |blocks| > 0 && PrintBlocks(o, blocks[..|blocks| - 1]).crash.Some?
    ensures PrintBlocks(o, blocks) == PrintBlocks(o, blocks[..|blocks| - 1])
  {
  }

  /** A block that raises ends the script after the lines printed so far. */
  lemma {:induction false} PrintBlocksRaise(o: Output, blocks: seq<Result<seq<string>>>)
    requires |blocks| > 0 && PrintBlocks(o, blocks[..|blocks| - 1]).crash.None?
    requires blocks[|blocks| - 1].Failure?
    ensures PrintBlocks(o, blocks) == PrintBlocks(o, blocks[..|blocks| - 1]).(crash := Some(blocks[|blocks| - 1].error))
  {
  }

  /** A block that does not raise prints its lines. */
  lemma {:induction false} PrintBlocksPrint(o: Output, blocks: seq<Result<seq<string>>>)
    requires |blocks| > 0 && PrintBlocks(o, blocks[..|blocks| - 1]).crash.None?
    requires blocks[|blocks| - 1].Success?
    ensures PrintBlocks(o, blocks)
              == Output(PrintBlocks(o, blocks[..|blocks| - 1]).lines + blocks[|blocks| - 1].value, None)
  {
  }

  lemma {:induction false} PrintedStep(blocks: seq<Result<seq<string>>>)
    requires |blocks| > 0 && blocks[|blocks| - 1].Success?
    ensures Flatten(Printed(blocks)) == Flatten(Printed(blocks[..|blocks| - 1])) + blocks[|blocks| - 1].value
  {
    assert Printed(blocks)[..|blocks| - 1] == Printed(blocks[..|blocks| - 1]);
  }
}

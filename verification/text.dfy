/** String rules shared by the plugins: Python `strip`/`split`/`replace`
    and slicing, the `re.sub(r'\s+', ' ', …)` whitespace clean-up, character
    filters, ASCII case mapping and decimal digits. */
module Text {
  import opened Wrappers

  /** Whitespace as Python's `str.isspace` and the regular-expression class
      `\s` see it, restricted to the Latin-1 range. */
  predicate IsSpace(c: char) {
    ('\t' <= c <= '\r') || ('\U{1C}' <= c <= ' ') || c == '\U{85}' || c == '\U{A0}'
  }

  // ---------------------------------------------------------------------------
  // Stripping and whitespace runs
  // ---------------------------------------------------------------------------

  /** `s.lstrip()`: the longest suffix of `s` that does not start with whitespace. */
  function StripLeft(s: string): (r: string)
    ensures |r| <= |s| && r == s[|s| - |r|..]
    ensures forall k :: 0 <= k < |s| - |r| ==> IsSpace(s[k])
    ensures |r| > 0 ==> !IsSpace(r[0])
  {
    if |s| > 0 && IsSpace(s[0]) then StripLeft(s[1..]) else s
  }

  /** `s.rstrip()`: the longest prefix of `s` that does not end with whitespace. */
  function StripRight(s: string): (r: string)
    ensures r <= s
    ensures forall k :: |r| <= k < |s| ==> IsSpace(s[k])
    ensures |r| > 0 ==> !IsSpace(r[|r| - 1])
  {
    if |s| > 0 && IsSpace(s[|s| - 1]) then StripRight(s[..|s| - 1]) else s
  }

  /** `s.strip()`: the slice of `s` left once the whitespace at both ends is
      gone. */
  function Strip(s: string): (r: string)
    ensures |r| <= |s|
    ensures |r| > 0 ==> !IsSpace(r[0]) && !IsSpace(r[|r| - 1])
    ensures exists i :: StrippedAt(s, r, i)
    ensures (|s| == 0 || (!IsSpace(s[0]) && !IsSpace(s[|s| - 1]))) ==> r == s
  {
    var r := StripRight(StripLeft(s));
    StripBothEnds(s);
    r
  }

  lemma {:induction false} StripBothEnds(s: string)
    ensures StrippedAt(s, StripRight(StripLeft(s)), |s| - |StripLeft(s)|)
  {
    var l := StripLeft(s);
    SuffixPrefix(s, l, StripRight(l), |s| - |l|);
  }

  /** A prefix `r` of the suffix `l` of `s` from `i`, with whitespace before
      `i` and after `r` in `l`, is stripped from `s` at `i`. */
  lemma {:induction false} SuffixPrefix(s: string, l: string, r: string, i: int)
    requires 0 <= i <= |s| && l == s[i..] && r <= l
    requires forall k :: 0 <= k < i ==> IsSpace(s[k])
    requires forall k :: |r| <= k < |l| ==> IsSpace(l[k])
    ensures StrippedAt(s, r, i)
  {
    forall k | i + |r| <= k < |s| ensures IsSpace(s[k]) {
      assert s[k] == l[k - i];
    }
  }

  /** `r` is the slice of `s` from `i`, and only whitespace stands outside it. */
  ghost predicate StrippedAt(s: string, r: string, i: int) {
    && 0 <= i <= i + |r| <= |s| && r == s[i..i + |r|]
    && (forall k :: 0 <= k < i ==> IsSpace(s[k]))
    && (forall k :: i + |r| <= k < |s| ==> IsSpace(s[k]))
  }

  /** The characters of `s` that are not whitespace, in order. */
  function Visible(s: string): (r: string)
    ensures |r| <= |s|
  {
    if |s| == 0 then "" else (if IsSpace(s[0]) then "" else [s[0]]) + Visible(s[1..])
  }

  lemma {:induction false} VisibleAppend(a: string, b: string)
    ensures Visible(a + b) == Visible(a) + Visible(b)
    decreases |a|
  {
    if |a| > 0 {
      assert (a + b)[0] == a[0] && (a + b)[1..] == a[1..] + b;
      VisibleAppend(a[1..], b);
    } else {
      assert a + b == b;
    }
  }

  lemma {:induction false} VisibleBlank(s: string)
    requires forall k :: 0 <= k < |s| ==> IsSpace(s[k])
    ensures Visible(s) == ""
    decreases |s|
  {
    if |s| > 0 {
      VisibleBlank(s[1..]);
    }
  }

  /** `lstrip` removes no visible character. */
  lemma {:induction false} VisibleStripLeft(s: string)
    ensures Visible(StripLeft(s)) == Visible(s)
    decreases |s|
  {
    if |s| > 0 && IsSpace(s[0]) {
      VisibleStripLeft(s[1..]);
    }
  }

  /** `strip` removes no visible character. */
  lemma {:induction false} VisibleStrip(s: string)
    ensures Visible(Strip(s)) == Visible(s)
  {
    var r := Strip(s);
    var i :| StrippedAt(s, r, i);
    VisibleStripped(s, r, i);
  }

  lemma {:induction false} VisibleStripped(s: string, r: string, i: int)
    requires StrippedAt(s, r, i)
    ensures Visible(r) == Visible(s)
  {
    var a, b := s[..i], s[i + |r|..];
    assert s == a + r + b;
    VisibleAppend(a + r, b);
    VisibleAppend(a, r);
    VisibleBlank(a);
    VisibleBlank(b);
  }

  /** The whitespace collapse removes no visible character. */
  lemma {:induction false} VisibleCollapse(s: string)
    ensures Visible(CollapseSpaces(s)) == Visible(s)
    decreases |s|
  {
    if |s| > 0 {
      if IsSpace(s[0]) {
        var t := StripLeft(s);
        assert |t| < |s| by {
          assert |StripLeft(s[1..])| <= |s| - 1;
        }
        VisibleCollapse(t);
        VisibleStripLeft(s);
        VisibleAppend(" ", CollapseSpaces(t));
      } else {
        VisibleCollapse(s[1..]);
        VisibleAppend([s[0]], CollapseSpaces(s[1..]));
      }
    }
  }

  /** No whitespace other than the plain space, and never two spaces in a row. */
  ghost predicate SingleSpaced(t: string) {
    && (forall i :: 0 <= i < |t| && IsSpace(t[i]) ==> t[i] == ' ')
    && (forall i :: 0 <= i < |t| - 1 && t[i] == ' ' ==> t[i + 1] != ' ')
  }

  /** Text that the clean-up leaves alone: single-spaced, no space at either end. */
  ghost predicate IsClean(t: string) {
    SingleSpaced(t) && (|t| > 0 ==> t[0] != ' ' && t[|t| - 1] != ' ')
  }

  /** `re.sub(r'\s+', ' ', s)`: every maximal whitespace run becomes one space. */
  function CollapseSpaces(s: string): (r: string)
    ensures |r| <= |s|
    ensures |r| == 0 <==> |s| == 0
    ensures |s| > 0 && IsSpace(s[0]) ==> r[0] == ' '
    ensures |s| > 0 && !IsSpace(s[0]) ==> r[0] == s[0]
    ensures SingleSpaced(r)
    decreases |s|
  {
    if |s| == 0 then ""
    else if IsSpace(s[0]) then " " + CollapseSpaces(StripLeft(s))
    else [s[0]] + CollapseSpaces(s[1..])
  }

  /** `_clean_text` / `clean_text` of the BND scrapers:
      `re.sub(r'\s+', ' ', text).strip()`. */
  function CleanText(s: string): (r: string)
    ensures IsClean(r)
    ensures |r| <= |s|
    ensures Visible(r) == Visible(s)
  {
    var c := CollapseSpaces(s);
    var r := Strip(c);
    StripSlicePreservesSingleSpaced(c);
    VisibleCollapse(s);
    VisibleStrip(c);
    r
  }

  lemma {:induction false} StripSlicePreservesSingleSpaced(c: string)
    requires SingleSpaced(c)
    ensures SingleSpaced(Strip(c))
  {
    var l := StripLeft(c);
    SliceSingleSpaced(c, |c| - |l|, |c|);
    var r := StripRight(l);
    SliceSingleSpaced(l, 0, |r|);
    assert l[0..|r|] == r;
  }

  lemma {:induction false} SliceSingleSpaced(c: string, lo: nat, hi: nat)
    requires lo <= hi <= |c| && SingleSpaced(c)
    ensures SingleSpaced(c[lo..hi])
  {
    var t := c[lo..hi];
    forall i | 0 <= i < |t| ensures t[i] == c[lo + i] {}
  }

  /** A single space ahead of a non-space is all that `lstrip` removes. */
  lemma {:induction false} StripLeftOneSpace(t: string)
    requires |t| > 0 && IsSpace(t[0])
    requires |t| > 1 ==> !IsSpace(t[1])
    ensures StripLeft(t) == t[1..]
  {
    if |t| > 1 {
      assert t[1..][0] == t[1];
    }
  }

  /** A single-spaced string starting with whitespace starts with one plain space followed by a non-space. */
  lemma {:induction false} LeadingSpace(t: string)
    requires SingleSpaced(t) && |t| > 0 && IsSpace(t[0])
    ensures t[0] == ' ' && (|t| > 1 ==> !IsSpace(t[1]))
  {
  }

  /** The collapse writes one space for a leading whitespace run that is one character long. */
  lemma {:induction false} CollapseOneSpace(t: string)
    requires |t| > 0 && IsSpace(t[0]) && StripLeft(t) == t[1..]
    ensures CollapseSpaces(t) == " " + CollapseSpaces(t[1..])
  {
  }

  /** The collapse keeps a leading non-space. */
  lemma {:induction false} CollapseNonSpace(t: string)
    requires |t| > 0 && !IsSpace(t[0])
    ensures CollapseSpaces(t) == [t[0]] + CollapseSpaces(t[1..])
  {
  }

  /** A single-spaced string is a fixed point of the whitespace collapse. */
  lemma {:induction false} CollapseFixesSingleSpaced(t: string)
    requires SingleSpaced(t)
    ensures CollapseSpaces(t) == t
    decreases |t|
  {
    if |t| > 0 {
      var rest := t[1..];
      assert t == [t[0]] + rest;
      SliceSingleSpaced(t, 1, |t|);
      CollapseFixesSingleSpaced(rest);
      if IsSpace(t[0]) {
        LeadingSpace(t);
        StripLeftOneSpace(t);
        CollapseOneSpace(t);
      } else {
        CollapseNonSpace(t);
      }
    }
  }

  /** Text that is already clean comes back unchanged. */
  lemma {:induction false} CleanTextFixesClean(t: string)
    requires IsClean(t)
    ensures CleanText(t) == t
  {
    CollapseFixesSingleSpaced(t);
  }

  /** `clean_text` is idempotent. */
  lemma {:induction false} CleanTextIdempotent(s: string)
    ensures CleanText(CleanText(s)) == CleanText(s)
  {
    CleanTextFixesClean(CleanText(s));
  }

  // ---------------------------------------------------------------------------
  // Slicing, searching and splitting
  // ---------------------------------------------------------------------------

  /** Python `s[:n]` for a non-negative `n`. */
  function Take<T>(s: seq<T>, n: nat): (r: seq<T>)
    ensures r <= s
    ensures |r| == if n < |s| then n else |s|
  {
    if n < |s| then s[..n] else s
  }

  /** The display rule every plugin repeats: a string longer than `limit`
      becomes its first `keep` characters followed by `marker`. */
  function Ellipsize(s: string, limit: nat, keep: nat, marker: string): (r: string)
    requires keep <= limit
    ensures Take(s, keep) <= r
    ensures |s| <= limit ==> r == s
    ensures |s| > limit ==> |r| == keep + |marker| && r[keep..] == marker
  {
    if |s| > limit then Take(s, keep) + marker else s
  }

  /** `s.split(c)[0]`: everything before the first `c`. */
  function CutAt(s: string, c: char): (r: string)
    ensures r <= s && c !in r
    ensures |r| < |s| ==> s[|r|] == c
  {
    if |s| == 0 || s[0] == c then "" else [s[0]] + CutAt(s[1..], c)
  }

  /** `t` occurs in `s` at position `i`. */
  predicate Occurs(s: string, t: string, i: nat) {
    i + |t| <= |s| && s[i..i + |t|] == t
  }

  /** Position of the first occurrence of `t` in `s` (`str.find`, `indexOf`). */
  function IndexOf(s: string, t: string): (r: Option<nat>)
    ensures r.Some? ==> Occurs(s, t, r.value)
    ensures r.Some? ==> forall j :: 0 <= j < r.value ==> !Occurs(s, t, j)
    ensures r.None? ==> forall j :: 0 <= j <= |s| ==> !Occurs(s, t, j)
  {
    if t <= s then
      assert Occurs(s, t, 0);
      Some(0)
    else if |s| == 0 then
      assert forall j :: 0 <= j <= |s| ==> !Occurs(s, t, j);
      None
    else
      assert !Occurs(s, t, 0);
      var rest := IndexOf(s[1..], t);
      assert forall j :: 0 <= j < |s| ==> (Occurs(s[1..], t, j) <==> Occurs(s, t, j + 1)) by {
        forall j | 0 <= j < |s| ensures Occurs(s[1..], t, j) <==> Occurs(s, t, j + 1) {
          if j + 1 + |t| <= |s| {
            assert s[1..][j..j + |t|] == s[j + 1..j + 1 + |t|];
          }
        }
      }
      match rest
      case Some(i) =>
        assert forall j :: 0 < j < i + 1 ==> !Occurs(s, t, j) by {
          forall j | 0 < j < i + 1 ensures !Occurs(s, t, j) { assert !Occurs(s[1..], t, j - 1); }
        }
        Some(i + 1)
      case None =>
        assert forall j :: 0 < j <= |s| ==> !Occurs(s, t, j) by {
          forall j | 0 < j <= |s| ensures !Occurs(s, t, j) { assert !Occurs(s[1..], t, j - 1); }
        }
        None
  }

  /** The first occurrence of `t` in `s` is at `i`. */
  predicate FirstAt(s: string, t: string, i: nat) {
    Occurs(s, t, i) && forall j :: 0 <= j < i ==> !Occurs(s, t, j)
  }

  /** Python `t in s`. */
  predicate Contains(s: string, t: string) {
    IndexOf(s, t).Some?
  }

  /** Whatever stands between two strings is contained in the whole. */
  lemma {:induction false} ContainsMiddle(a: string, t: string, b: string)
    ensures Contains(a + t + b, t)
  {
    var s := a + t + b;
    assert s[|a|..|a| + |t|] == t;
    assert Occurs(s, t, |a|);
  }

  /** What a part contains, the whole contains. */
  lemma {:induction false} ContainsWithin(a: string, t: string, b: string, u: string)
    requires Contains(t, u)
    ensures Contains(a + t + b, u)
  {
    var s := a + t + b;
    var i := IndexOf(t, u).value;
    assert s[|a| + i..|a| + i + |u|] == t[i..i + |u|];
    assert Occurs(s, u, |a| + i);
  }

  /** A one-character pattern is contained exactly when the character occurs. */
  lemma {:induction false} ContainsChar(s: string, c: char)
    ensures Contains(s, [c]) <==> c in s
  {
    if Contains(s, [c]) {
      var i := IndexOf(s, [c]).value;
      assert s[i..i + 1] == [c];
      assert s[i] == c;
    }
    if c in s {
      var i :| 0 <= i < |s| && s[i] == c;
      assert s[i..i + 1] == [c];
      assert Occurs(s, [c], i);
    }
  }

  /** Stripping only removes characters. */
  lemma {:induction false} StripInside(s: string)
    ensures forall i :: 0 <= i < |Strip(s)| ==> Strip(s)[i] in s
  {
    var r := Strip(s);
    var i :| StrippedAt(s, r, i);
    forall k | 0 <= k < |r| ensures r[k] in s {
      assert r[k] == s[i + k];
    }
  }

  /** Cutting at a character the prefix does not contain cuts inside the rest. */
  lemma {:induction false} CutAtAfterPrefix(p: string, s: string, c: char)
    requires c !in p
    ensures CutAt(p + s, c) == p + CutAt(s, c)
  {
    if |p| > 0 {
      assert (p + s)[0] == p[0] && (p + s)[1..] == p[1..] + s;
      CutAtAfterPrefix(p[1..], s, c);
    } else {
      assert p + s == s;
    }
  }

  /** JavaScript `s.replace(pat, rep)` with a string pattern: only the first
      occurrence is replaced. */
  function ReplaceFirst(s: string, pat: string, rep: string): (r: string)
    ensures !Contains(s, pat) ==> r == s
    ensures Contains(s, pat) ==> |r| == |s| - |pat| + |rep|
    ensures Contains(s, pat) ==> exists i: nat :: FirstAt(s, pat, i) && r == s[..i] + rep + s[i + |pat|..]
  {
    match IndexOf(s, pat)
    case Some(i) =>
      assert FirstAt(s, pat, i);
      s[..i] + rep + s[i + |pat|..]
    case None => s
  }

  /** Python `s.replace(pat, rep)`: every non-overlapping occurrence, left to right. */
  function ReplaceAll(s: string, pat: string, rep: string): (r: string)
    requires |pat| > 0
    ensures !Contains(s, pat) ==> r == s
    decreases |s|
  {
    if |s| == 0 then ""
    else if pat <= s then rep + ReplaceAll(s[|pat|..], pat, rep)
    else
      assert !Contains(s, pat) ==> !Contains(s[1..], pat) by {
        if Contains(s[1..], pat) {
          var j := IndexOf(s[1..], pat).value;
          assert s[1..][j..j + |pat|] == s[j + 1..j + 1 + |pat|];
          assert Occurs(s, pat, j + 1);
        }
      }
      [s[0]] + ReplaceAll(s[1..], pat, rep)
  }

  /** Every `a` replaced by `b`, character by character. */
  function ReplaceChar(s: string, a: char, b: char): (r: string)
    ensures |r| == |s|
    ensures forall i :: 0 <= i < |s| ==> r[i] == if s[i] == a then b else s[i]
  {
    seq(|s|, i requires 0 <= i < |s| => if s[i] == a then b else s[i])
  }

  /** Python's `replace` with one-character pattern and replacement is the
      character-by-character replacement. */
  lemma {:induction false} ReplaceAllChar(s: string, a: char, b: char)
    ensures ReplaceAll(s, [a], [b]) == ReplaceChar(s, a, b)
    decreases |s|
  {
    if |s| > 0 {
      ReplaceAllChar(s[1..], a, b);
      ReplaceAllCharStep(s, a, b);
      ReplaceCharStep(s, a, b);
    }
  }

  /** One step of `ReplaceAll` with a one-character pattern. */
  lemma {:induction false} ReplaceAllCharStep(s: string, a: char, b: char)
    requires |s| > 0
    ensures ReplaceAll(s, [a], [b]) == [if s[0] == a then b else s[0]] + ReplaceAll(s[1..], [a], [b])
  {
    if s[0] == a {
      assert [a] <= s && s[|[a]|..] == s[1..];
    } else {
      assert !([a] <= s);
    }
  }

  /** One step of `ReplaceChar`. */
  lemma {:induction false} ReplaceCharStep(s: string, a: char, b: char)
    requires |s| > 0
    ensures ReplaceChar(s, a, b) == [if s[0] == a then b else s[0]] + ReplaceChar(s[1..], a, b)
  {
  }

  /** Python `s.split(sep)[1]` / JavaScript `s.split(sep)[1]`: the piece between
      the first and the second `sep`, or absent when `sep` does not occur. */
  function SecondField(s: string, sep: string): (r: Option<string>)
    requires |sep| > 0
    ensures r.None? <==> !Contains(s, sep)
    ensures r.Some? ==> !Contains(r.value, sep)
    ensures r.Some? ==> exists i: nat :: FirstAt(s, sep, i) && r.value == BeforeSub(s[i + |sep|..], sep)
  {
    match IndexOf(s, sep)
    case None => None
    case Some(i) =>
      assert FirstAt(s, sep, i);
      Some(BeforeSub(s[i + |sep|..], sep))
  }

  /** Everything before the first occurrence of `sep` (all of `s` when absent). */
  function BeforeSub(s: string, sep: string): (r: string)
    requires |sep| > 0
    ensures r <= s
    ensures !Contains(r, sep)
    ensures r == s <==> !Contains(s, sep)
    ensures r != s ==> FirstAt(s, sep, |r|)
  {
    match IndexOf(s, sep)
    case None => s
    case Some(i) =>
      var r := s[..i];
      assert !Contains(r, sep) by {
        if Contains(r, sep) {
          var j := IndexOf(r, sep).value;
          assert r[j..j + |sep|] == s[j..j + |sep|];
          assert Occurs(s, sep, j);
        }
      }
      r
  }

  /** `sep.join(parts)`. */
  function Join(parts: seq<string>, sep: string): (r: string)
    ensures |parts| == 1 ==> r == parts[0]
  {
    if |parts| == 0 then ""
    else if |parts| == 1 then parts[0]
    else parts[0] + sep + Join(parts[1..], sep)
  }

  /** Every part appears in the joined text. */
  lemma {:induction false} JoinMember(parts: seq<string>, sep: string, i: nat)
    requires i < |parts|
    ensures Contains(Join(parts, sep), parts[i])
    decreases |parts|
  {
    if |parts| == 1 {
      ContainsMiddle("", parts[0], "");
      assert "" + parts[0] + "" == parts[0];
    } else if i == 0 {
      ContainsMiddle("", parts[0], sep + Join(parts[1..], sep));
      assert "" + parts[0] + (sep + Join(parts[1..], sep)) == Join(parts, sep);
    } else {
      JoinMember(parts[1..], sep, i - 1);
      ContainsWithin(parts[0] + sep, Join(parts[1..], sep), "", parts[i]);
      assert parts[0] + sep + Join(parts[1..], sep) + "" == Join(parts, sep);
    }
  }

  // ---------------------------------------------------------------------------
  // Character filters and case
  // ---------------------------------------------------------------------------

  /** The characters of `s` that are in `keep`, in order. */
  function KeepChars(s: string, keep: set<char>): (r: string)
    ensures |r| <= |s|
    ensures forall i :: 0 <= i < |r| ==> r[i] in keep
    ensures (forall i :: 0 <= i < |s| ==> s[i] in keep) ==> r == s
  {
    if |s| == 0 then ""
    else if s[0] in keep then [s[0]] + KeepChars(s[1..], keep)
    else KeepChars(s[1..], keep)
  }

  /** The characters of `s` that are not in `drop`, in order. */
  function DropChars(s: string, drop: set<char>): (r: string)
    ensures |r| <= |s|
    ensures forall i :: 0 <= i < |r| ==> r[i] !in drop && r[i] in s
    ensures (forall i :: 0 <= i < |s| ==> s[i] !in drop) ==> r == s
  {
    if |s| == 0 then ""
    else if s[0] in drop then DropChars(s[1..], drop)
    else [s[0]] + DropChars(s[1..], drop)
  }

  /** Dropping the same characters twice removes nothing more. */
  lemma {:induction false} DropCharsIdempotent(s: string, drop: set<char>)
    ensures DropChars(DropChars(s, drop), drop) == DropChars(s, drop)
  {
  }

  /** ASCII upper case (the scripts only ever see ASCII where case matters). */
  function ToUpper(c: char): char {
    if 'a' <= c <= 'z' then (c as int - 32) as char else c
  }

  /** ASCII lower case. */
  function ToLower(c: char): char {
    if 'A' <= c <= 'Z' then (c as int + 32) as char else c
  }

  /** `s.upper()`. */
  function Upper(s: string): (r: string)
    ensures |r| == |s| && forall i :: 0 <= i < |s| ==> r[i] == ToUpper(s[i])
  {
    seq(|s|, i requires 0 <= i < |s| => ToUpper(s[i]))
  }

  /** `s.toLowerCase()`. */
  function Lower(s: string): (r: string)
    ensures |r| == |s| && forall i :: 0 <= i < |s| ==> r[i] == ToLower(s[i])
  {
    seq(|s|, i requires 0 <= i < |s| => ToLower(s[i]))
  }

  // ---------------------------------------------------------------------------
  // Decimal digits
  // ---------------------------------------------------------------------------

  predicate IsDigit(c: char) {
    '0' <= c <= '9'
  }

  predicate AllDigits(s: string) {
    forall i :: 0 <= i < |s| ==> IsDigit(s[i])
  }

  const Digits: set<char> := {'0', '1', '2', '3', '4', '5', '6', '7', '8', '9'}

  lemma {:induction false} DigitsAreDigits(c: char)
    ensures c in Digits <==> IsDigit(c)
  {
  }

  function DigitValue(c: char): nat
    requires IsDigit(c)
  {
    c as int - '0' as int
  }

  function DigitChar(d: nat): (c: char)
    requires d < 10
    ensures IsDigit(c) && DigitValue(c) == d
  {
    ('0' as int + d) as char
  }

  /** The number a string of decimal digits denotes (most significant first). */
  function DecimalValue(ds: string): nat
    requires AllDigits(ds)
  {
    if |ds| == 0 then 0
    else DecimalValue(ds[..|ds| - 1]) * 10 + DigitValue(ds[|ds| - 1])
  }

  /** Appending one digit shifts the value left by one decimal place. */
  lemma {:induction false} DecimalSnoc(a: string, c: char)
    requires AllDigits(a) && IsDigit(c)
    ensures AllDigits(a + [c]) && DecimalValue(a + [c]) == DecimalValue(a) * 10 + DigitValue(c)
  {
    assert (a + [c])[..|a|] == a;
  }

  /** Appending two digits shifts the value left by two decimal places. */
  lemma {:induction false} DecimalAppendTwo(a: string, b: string)
    requires AllDigits(a) && AllDigits(b) && |b| == 2
    ensures AllDigits(a + b) && DecimalValue(a + b) == DecimalValue(a) * 100 + DecimalValue(b)
  {
    var x, d0, d1 := DecimalValue(a), DigitValue(b[0]), DigitValue(b[1]);
    DecimalSnoc(a, b[0]);
    assert a + b == (a + [b[0]]) + [b[1]];
    DecimalSnoc(a + [b[0]], b[1]);
    assert DecimalValue(a + b) == (x * 10 + d0) * 10 + d1;
    assert b == ([] + [b[0]]) + [b[1]];
    DecimalSnoc([], b[0]);
    DecimalSnoc([b[0]], b[1]);
    assert DecimalValue(b) == d0 * 10 + d1;
    assert (x * 10 + d0) * 10 + d1 == x * 100 + (d0 * 10 + d1);
  }

  /** `str(n)`: decimal digits without leading zeros. */
  function NatToString(n: nat): (r: string)
    ensures 1 <= |r| && AllDigits(r)
    ensures DecimalValue(r) == n
    ensures |r| > 1 ==> r[0] != '0'
    ensures n < 10 <==> |r| == 1
    ensures 10 <= n < 100 <==> |r| == 2
  {
    if n < 10 then [DigitChar(n)]
    else
      var p := NatToString(n / 10);
      var r := p + [DigitChar(n % 10)];
      assert r[..|r| - 1] == p;
      r
  }

  /** `str(n)` on an integer. */
  function IntToString(n: int): (r: string)
    ensures n >= 0 ==> r == NatToString(n)
    ensures n < 0 ==> r == "-" + NatToString(-n)
  {
    if n >= 0 then NatToString(n) else "-" + NatToString(-n)
  }

  /** `%02d`: two digits, zero-padded. */
  function Pad2(n: nat): (r: string)
    requires n < 100
    ensures |r| == 2 && AllDigits(r) && DecimalValue(r) == n
  {
    var r := if n < 10 then "0" + NatToString(n) else NatToString(n);
    assert n < 10 ==> r[..1] == "0";
    r
  }

  /** JavaScript's `<` on two strings: code unit by code unit, a proper
      prefix first. */
  predicate LexLess(a: string, b: string)
    decreases |a|
  {
    if |a| == 0 then |b| > 0
    else |b| > 0 && (a[0] < b[0] || (a[0] == b[0] && LexLess(a[1..], b[1..])))
  }

  /** Two different strings are ordered one way, and never both ways. */
  lemma {:induction false} LexTrichotomy(a: string, b: string)
    ensures LexLess(a, b) || a == b || LexLess(b, a)
    ensures !(LexLess(a, b) && LexLess(b, a))
    ensures !LexLess(a, a)
    decreases |a|
  {
    if |a| > 0 {
      LexTrichotomy(a[1..], a[1..]);
    }
    if |a| > 0 && |b| > 0 {
      LexTrichotomy(a[1..], b[1..]);
      if a[0] == b[0] && a[1..] == b[1..] {
        assert a == [a[0]] + a[1..] && b == [b[0]] + b[1..];
      }
    }
  }

  lemma {:induction false} LexTransitive(a: string, b: string, c: string)
    requires LexLess(a, b) && LexLess(b, c)
    ensures LexLess(a, c)
    decreases |a|
  {
    if |a| > 0 && a[0] == b[0] && b[0] == c[0] {
      LexTransitive(a[1..], b[1..], c[1..]);
    }
  }

  /** Dropping one set of characters and then another drops both. */
  lemma {:induction false} DropCharsTwice(s: string, a: set<char>, b: set<char>)
    ensures DropChars(DropChars(s, a), b) == DropChars(s, a + b)
    decreases |s|
  {
    if |s| > 0 {
      DropCharsTwice(s[1..], a, b);
      if s[0] !in a {
        assert ([s[0]] + DropChars(s[1..], a))[1..] == DropChars(s[1..], a);
      }
    }
  }
}

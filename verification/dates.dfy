/** Calendar dates and the slice of Python's `datetime.strptime` /
    `strftime` the plugins use.

    `strptime` turns its format into a regular expression (each space becoming
    `\s+`, matched case-insensitively), requires the match to cover the whole
    input, then builds a `datetime`, which rejects impossible days and seconds
    above 59. Every numeric directive of the formats modelled here is followed
    by a directive that cannot start with a digit, so the regular expression
    accepts a numeric field exactly when the maximal run of digits at that point
    has one or two digits (four for `%Y`, one to six for `%f`) and a value in
    the directive's range; that is how `MatchFrom` reads a field. */
module Dates {
  import opened Wrappers
  import opened Text

  datatype Date = Date(year: int, month: int, day: int)

  predicate IsLeapYear(y: int) {
    y % 4 == 0 && (y % 100 != 0 || y % 400 == 0)
  }

  function DaysInMonth(y: int, m: int): int
    requires 1 <= m <= 12
  {
    if m == 2 then (if IsLeapYear(y) then 29 else 28)
    else if m == 4 || m == 6 || m == 9 || m == 11 then 30
    else 31
  }

  /** A date `datetime.date` accepts (`MINYEAR` is 1, `MAXYEAR` 9999). */
  predicate ValidDate(d: Date) {
    && 1 <= d.year <= 9999
    && 1 <= d.month <= 12
    && 1 <= d.day <= DaysInMonth(d.year, d.month)
  }

  /** Wall-clock time of day. */
  datatype Clock = Clock(hour: int, minute: int)

  predicate ValidClock(c: Clock) {
    0 <= c.hour <= 23 && 0 <= c.minute <= 59
  }

  /** What a successful `strptime` produces (seconds and fractions are parsed
      and validated but never used by the plugins). */
  datatype Stamp = Stamp(date: Date, time: Clock)

  // ---------------------------------------------------------------------------
  // strptime
  // ---------------------------------------------------------------------------

  datatype Directive =
    | Year4      // %Y
    | Month      // %m
    | Day        // %d
    | Hour24     // %H
    | Hour12     // %I
    | Minute     // %M
    | Second     // %S
    | Fraction   // %f
    | MonthAbbr  // %b
    | AmPm       // %p
    | WeekdayAbbr // %a
    | Zone       // %z
    | Blank      // a space in the format
    | Lit(c: char)

  /** The raw fields a match has filled in so far; the defaults are those of
      `strptime` (1 January 1900, midnight). */
  datatype Fields = Fields(year: int, month: int, day: int, hour: int, minute: int,
                           second: int, twelveHour: bool, pm: bool)

  const Defaults: Fields := Fields(1900, 1, 1, 0, 0, 0, false, false)

  const MonthAbbrs: seq<string> :=
    ["Jan", "Feb", "Mar", "Apr", "May", "Jun", "Jul", "Aug", "Sep", "Oct", "Nov", "Dec"]

  const WeekdayAbbrs: seq<string> := ["Mon", "Tue", "Wed", "Thu", "Fri", "Sat", "Sun"]

  /** Length of the run of digits `s` starts with. */
  function DigitRun(s: string): (n: nat)
    ensures n <= |s| && AllDigits(s[..n])
    ensures n < |s| ==> !IsDigit(s[n])
  {
    if |s| > 0 && IsDigit(s[0]) then
      var n := 1 + DigitRun(s[1..]);
      assert s[..n] == [s[0]] + s[1..][..n - 1];
      n
    else 0
  }

  /** Length of the run of whitespace `s` starts with. */
  function SpaceRun(s: string): (n: nat)
    ensures n <= |s|
    ensures forall k :: 0 <= k < n ==> IsSpace(s[k])
    ensures n < |s| ==> !IsSpace(s[n])
  {
    if |s| > 0 && IsSpace(s[0]) then 1 + SpaceRun(s[1..]) else 0
  }

  /** A one- or two-digit field between `lo` and `hi`: its value and width. */
  function NumberField(s: string, lo: int, hi: int): (r: Option<(int, nat)>)
    ensures r.Some? ==> lo <= r.value.0 <= hi && 1 <= r.value.1 <= 2 && r.value.1 <= |s|
  {
    var n := DigitRun(s);
    if 1 <= n <= 2 && lo <= DecimalValue(s[..n]) <= hi then Some((DecimalValue(s[..n]), n))
    else None
  }

  /** `%d` also accepts a space followed by one non-zero digit. */
  function DayField(s: string): (r: Option<(int, nat)>)
    ensures r.Some? ==> 1 <= r.value.0 <= 31 && 1 <= r.value.1 <= 2 && r.value.1 <= |s|
  {
    if 2 <= |s| && s[0] == ' ' && '1' <= s[1] <= '9' && (|s| == 2 || !IsDigit(s[2])) then
      Some((DigitValue(s[1]), 2))
    else NumberField(s, 1, 31)
  }

  /** Case-insensitive equality of two equally long names. */
  predicate SameName(t: string, name: string) {
    |t| == |name| && forall i :: 0 <= i < |t| ==> ToLower(t[i]) == ToLower(name[i])
  }

  /** The month a three-letter abbreviation names (1-based), first match wins. */
  function MonthNumber(t: string, k: nat): (r: Option<int>)
    requires k <= 12
    ensures r.Some? ==> k + 1 <= r.value <= 12 && SameName(t, MonthAbbrs[r.value - 1])
    decreases 12 - k
  {
    if k == 12 then None
    else if SameName(t, MonthAbbrs[k]) then Some(k + 1)
    else MonthNumber(t, k + 1)
  }

  /** `t` names a weekday, in any case. */
  predicate IsWeekdayName(t: string) {
    exists k :: 0 <= k < |WeekdayAbbrs| && SameName(t, WeekdayAbbrs[k])
  }

  /** Length of the UTC offset `s` starts with: `Z`, or a sign, two hour
      digits below 24, an optional `:` and two minute digits below 60. */
  function ZoneField(s: string): (r: Option<nat>)
    ensures r.Some? ==> r.value <= |s|
  {
    if |s| >= 1 && s[0] == 'Z' then Some(1)
    else if |s| >= 5 && (s[0] == '+' || s[0] == '-') && AllDigits(s[1..3]) && DecimalValue(s[1..3]) < 24 then
      var m := if s[3] == ':' then 4 else 3;
      if m + 2 <= |s| && '0' <= s[m] <= '5' && IsDigit(s[m + 1]) then Some(m + 2) else None
    else None
  }

  /** Matches the whole of `s` against `fmt`, recording fields into `f`. */
  function MatchFrom(s: string, fmt: seq<Directive>, f: Fields): Option<Fields>
    decreases |fmt|
  {
    if |fmt| == 0 then (if |s| == 0 then Some(f) else None)
    else
      var rest := fmt[1..];
      match fmt[0]
      case Year4 =>
        var n := DigitRun(s);
        if n == 4 then MatchFrom(s[n..], rest, f.(year := DecimalValue(s[..n]))) else None
      case Month =>
        (match NumberField(s, 1, 12)
         case Some((v, n)) => MatchFrom(s[n..], rest, f.(month := v))
         case None => None)
      case Day =>
        (match DayField(s)
         case Some((v, n)) => MatchFrom(s[n..], rest, f.(day := v))
         case None => None)
      case Hour24 =>
        (match NumberField(s, 0, 23)
         case Some((v, n)) => MatchFrom(s[n..], rest, f.(hour := v, twelveHour := false))
         case None => None)
      case Hour12 =>
        (match NumberField(s, 1, 12)
         case Some((v, n)) => MatchFrom(s[n..], rest, f.(hour := v, twelveHour := true))
         case None => None)
      case Minute =>
        (match NumberField(s, 0, 59)
         case Some((v, n)) => MatchFrom(s[n..], rest, f.(minute := v))
         case None => None)
      case Second =>
        (match NumberField(s, 0, 61)
         case Some((v, n)) => MatchFrom(s[n..], rest, f.(second := v))
         case None => None)
      case Fraction =>
        var n := DigitRun(s);
        if 1 <= n <= 6 then MatchFrom(s[n..], rest, f) else None
      case MonthAbbr =>
        if |s| < 3 then None
        else
          (match MonthNumber(s[..3], 0)
           case Some(m) => MatchFrom(s[3..], rest, f.(month := m))
           case None => None)
      case AmPm =>
        if |s| < 2 then None
        else if SameName(s[..2], "AM") then MatchFrom(s[2..], rest, f.(pm := false))
        else if SameName(s[..2], "PM") then MatchFrom(s[2..], rest, f.(pm := true))
        else None
      case WeekdayAbbr =>
        if |s| >= 3 && IsWeekdayName(s[..3]) then MatchFrom(s[3..], rest, f) else None
      case Zone =>
        (match ZoneField(s)
         case Some(n) => MatchFrom(s[n..], rest, f)
         case None => None)
      case Blank =>
        var n := SpaceRun(s);
        if n >= 1 then MatchFrom(s[n..], rest, f) else None
      case Lit(c) =>
        if |s| >= 1 && ToLower(s[0]) == ToLower(c) then MatchFrom(s[1..], rest, f) else None
  }

  /** Fields in range stay in range while a match fills them in. */
  predicate FieldsInRange(f: Fields) {
    0 <= f.minute <= 59 && (!f.twelveHour ==> 0 <= f.hour <= 23)
  }

  lemma {:induction false} MatchKeepsRanges(s: string, fmt: seq<Directive>, f: Fields)
    requires FieldsInRange(f)
    ensures MatchFrom(s, fmt, f).Some? ==> FieldsInRange(MatchFrom(s, fmt, f).value)
    decreases |fmt|
  {
    if |fmt| > 0 {
      var rest := fmt[1..];
      match fmt[0]
      case Year4 =>
        var n := DigitRun(s);
        if n == 4 { MatchKeepsRanges(s[n..], rest, f.(year := DecimalValue(s[..n]))); }
      case Month =>
        var r := NumberField(s, 1, 12);
        if r.Some? { MatchKeepsRanges(s[r.value.1..], rest, f.(month := r.value.0)); }
      case Day =>
        var r := DayField(s);
        if r.Some? { MatchKeepsRanges(s[r.value.1..], rest, f.(day := r.value.0)); }
      case Hour24 =>
        var r := NumberField(s, 0, 23);
        if r.Some? { MatchKeepsRanges(s[r.value.1..], rest, f.(hour := r.value.0, twelveHour := false)); }
      case Hour12 =>
        var r := NumberField(s, 1, 12);
        if r.Some? { MatchKeepsRanges(s[r.value.1..], rest, f.(hour := r.value.0, twelveHour := true)); }
      case Minute =>
        var r := NumberField(s, 0, 59);
        if r.Some? { MatchKeepsRanges(s[r.value.1..], rest, f.(minute := r.value.0)); }
      case Second =>
        var r := NumberField(s, 0, 61);
        if r.Some? { MatchKeepsRanges(s[r.value.1..], rest, f.(second := r.value.0)); }
      case Fraction =>
        var n := DigitRun(s);
        if 1 <= n <= 6 { MatchKeepsRanges(s[n..], rest, f); }
      case MonthAbbr =>
        if |s| >= 3 {
          var m := MonthNumber(s[..3], 0);
          if m.Some? { MatchKeepsRanges(s[3..], rest, f.(month := m.value)); }
        }
      case AmPm =>
        if |s| >= 2 {
          MatchKeepsRanges(s[2..], rest, f.(pm := false));
          MatchKeepsRanges(s[2..], rest, f.(pm := true));
        }
      case WeekdayAbbr =>
        if |s| >= 3 { MatchKeepsRanges(s[3..], rest, f); }
      case Zone =>
        var n := ZoneField(s);
        if n.Some? { MatchKeepsRanges(s[n.value..], rest, f); }
      case Blank =>
        var n := SpaceRun(s);
        MatchKeepsRanges(s[n..], rest, f);
      case Lit(c) =>
        if |s| >= 1 { MatchKeepsRanges(s[1..], rest, f); }
    }
  }

  /** A format that starts with `%b` rejects text that does not start with a
      month abbreviation. */
  lemma {:induction false} MonthAbbrHeadFails(s: string, fmt: seq<Directive>, f: Fields)
    requires |fmt| > 0 && fmt[0] == MonthAbbr && (|s| < 3 || MonthNumber(s[..3], 0).None?)
    ensures MatchFrom(s, fmt, f).None?
  {
  }

  /** A format that starts with `%Y` rejects text that does not start with
      exactly four digits. */
  lemma {:induction false} Year4HeadFails(s: string, fmt: seq<Directive>, f: Fields)
    requires |fmt| > 0 && fmt[0] == Year4 && DigitRun(s) != 4
    ensures MatchFrom(s, fmt, f).None?
  {
  }

  /** Hour of the day once `%I` and `%p` are combined (12 AM is 0, 12 PM is 12). */
  function HourOf(f: Fields): int {
    if !f.twelveHour then f.hour
    else if f.pm then f.hour % 12 + 12
    else f.hour % 12
  }

  /** `datetime.strptime(s, fmt)`, `None` where Python raises `ValueError`. */
  function Strptime(s: string, fmt: seq<Directive>): (r: Option<Stamp>)
    ensures r.Some? ==> ValidDate(r.value.date) && ValidClock(r.value.time)
  {
    MatchKeepsRanges(s, fmt, Defaults);
    match MatchFrom(s, fmt, Defaults)
    case None => None
    case Some(f) =>
      var d := Date(f.year, f.month, f.day);
      if ValidDate(d) && f.second <= 59 then Some(Stamp(d, Clock(HourOf(f), f.minute)))
      else None
  }

  // ---------------------------------------------------------------------------
  // strftime
  // ---------------------------------------------------------------------------

  /** `%Y` for the years `datetime` allows: four digits, zero-padded. */
  function Pad4(n: nat): (r: string)
    requires n < 10000
    ensures |r| == 4 && AllDigits(r) && DecimalValue(r) == n
  {
    var hi := Pad2(n / 100);
    var lo := Pad2(n % 100);
    DecimalAppendTwo(hi, lo);
    var r := hi + lo;
    r
  }

  /** `%y`: the year within its century, two digits. */
  function Year2(y: int): string {
    Pad2(y % 100)
  }

  /** `strftime('%-m/%-d/%y')`: month and day without leading zeros. */
  function Unpadded(d: Date): string
    requires ValidDate(d)
  {
    NatToString(d.month) + "/" + NatToString(d.day) + "/" + Year2(d.year)
  }

  /** `strftime('%m/%d/%y')`: month and day zero-padded. */
  function Padded(d: Date): string
    requires ValidDate(d)
  {
    Pad2(d.month) + "/" + Pad2(d.day) + "/" + Year2(d.year)
  }

  /** The zero-padded form always has the eight characters `mm/dd/yy`; the
      unpadded one drops exactly the leading zeros. */
  lemma {:induction false} PaddedVersusUnpadded(d: Date)
    requires ValidDate(d)
    ensures |Padded(d)| == 8
    ensures 6 <= |Unpadded(d)| <= 8
    ensures |Unpadded(d)| == 6 + (if d.month >= 10 then 1 else 0) + (if d.day >= 10 then 1 else 0)
    ensures d.month >= 10 && d.day >= 10 ==> Unpadded(d) == Padded(d)
    ensures d.month < 10 || d.day < 10 ==> Unpadded(d) != Padded(d)
  {
    if d.month < 10 || d.day < 10 {
      assert |Unpadded(d)| < |Padded(d)|;
    }
    if d.month >= 10 && d.day >= 10 {
      NatToStringTwoDigits(d.month);
      NatToStringTwoDigits(d.day);
    }
  }

  lemma {:induction false} NatToStringTwoDigits(n: nat)
    requires 10 <= n < 100
    ensures NatToString(n) == Pad2(n)
  {
  }

  /** The text `strftime` writes for one directive of the raw fields. */
  function RenderOne(d: Directive, f: Fields): string
    requires InRange(d, f)
  {
    match d
    case Year4 => Pad4(f.year)
    case Month => Pad2(f.month)
    case Day => Pad2(f.day)
    case Hour24 => Pad2(f.hour)
    case Hour12 => Pad2(f.hour)
    case Minute => Pad2(f.minute)
    case Second => Pad2(f.second)
    case Fraction => "000000"
    case MonthAbbr => MonthAbbrs[f.month - 1]
    case AmPm => if f.pm then "PM" else "AM"
    case WeekdayAbbr => "Mon"
    case Zone => "+0000"
    case Blank => " "
    case Lit(c) => [c]
  }

  /** The raw fields can be written under directive `d`. */
  predicate InRange(d: Directive, f: Fields) {
    match d
    case Year4 => 0 <= f.year <= 9999
    case Month => 1 <= f.month <= 12
    case Day => 1 <= f.day <= 31
    case Hour24 => 0 <= f.hour <= 23
    case Hour12 => 1 <= f.hour <= 12
    case Minute => 0 <= f.minute <= 59
    case Second => 0 <= f.second <= 61
    case MonthAbbr => 1 <= f.month <= 12
    case _ => true
  }

  /** `strftime(fmt)` of the raw fields. */
  function Render(fmt: seq<Directive>, f: Fields): string
    requires forall i :: 0 <= i < |fmt| ==> InRange(fmt[i], f)
  {
    if |fmt| == 0 then "" else RenderOne(fmt[0], f) + Render(fmt[1..], f)
  }

  predicate IsNumeric(d: Directive) {
    d.Year4? || d.Month? || d.Day? || d.Hour24? || d.Hour12? || d.Minute? || d.Second? || d.Fraction?
  }

  /** `next` may follow `d` in a format without the two fields running together. */
  predicate MayFollow(d: Directive, next: Directive) {
    && (IsNumeric(d) ==> !IsNumeric(next) && !(next.Lit? && IsDigit(next.c)))
    && (d.Blank? ==> !next.Blank? && !(next.Lit? && IsSpace(next.c)))
  }

  /** A format whose rendered fields can be read back: no literal digit or
      space, and no two neighbours that would run together. */
  predicate Separated(fmt: seq<Directive>)
    decreases |fmt|
  {
    |fmt| == 0 ||
    (&& (fmt[0].Lit? ==> !IsDigit(fmt[0].c) && !IsSpace(fmt[0].c))
     && (|fmt| >= 2 ==> MayFollow(fmt[0], fmt[1]))
     && Separated(fmt[1..]))
  }

  /** Two separated formats joined at a boundary that keeps them apart. */
  lemma {:induction false} SeparatedAppend(a: seq<Directive>, b: seq<Directive>)
    requires Separated(a) && Separated(b)
    requires |a| > 0 && |b| > 0 ==> MayFollow(a[|a| - 1], b[0])
    ensures Separated(a + b)
    decreases |a|
  {
    if |a| == 0 {
      assert a + b == b;
    } else {
      SeparatedAppend(a[1..], b);
      assert (a + b)[1..] == a[1..] + b;
    }
  }

  /** `g` with the field directive `d` sets taken from `f`. */
  function Assign(d: Directive, f: Fields, g: Fields): Fields {
    match d
    case Year4 => g.(year := f.year)
    case Month => g.(month := f.month)
    case Day => g.(day := f.day)
    case Hour24 => g.(hour := f.hour, twelveHour := false)
    case Hour12 => g.(hour := f.hour, twelveHour := true)
    case Minute => g.(minute := f.minute)
    case Second => g.(second := f.second)
    case MonthAbbr => g.(month := f.month)
    case AmPm => g.(pm := f.pm)
    case _ => g
  }

  /** `g` updated with every field `fmt` mentions, taken from `f`. */
  function Overlay(fmt: seq<Directive>, f: Fields, g: Fields): Fields
    decreases |fmt|
  {
    if |fmt| == 0 then g else Overlay(fmt[1..], f, Assign(fmt[0], f, g))
  }

  /** The date fields a format overlays come from `f` exactly when the format
      has a directive for them. */
  lemma {:induction false} OverlayFields(fmt: seq<Directive>, f: Fields, g: Fields)
    ensures Overlay(fmt, f, g).year == if Year4 in fmt then f.year else g.year
    ensures Overlay(fmt, f, g).month == if Month in fmt || MonthAbbr in fmt then f.month else g.month
    ensures Overlay(fmt, f, g).day == if Day in fmt then f.day else g.day
    ensures Overlay(fmt, f, g).second == if Second in fmt then f.second else g.second
    decreases |fmt|
  {
    if |fmt| > 0 {
      OverlayFields(fmt[1..], f, Assign(fmt[0], f, g));
      assert forall x :: x in fmt <==> x == fmt[0] || x in fmt[1..];
    }
  }

  /** The first character `strftime` writes for a directive. */
  lemma {:induction false} RenderOneShape(d: Directive, f: Fields)
    requires InRange(d, f)
    ensures |RenderOne(d, f)| >= 1
    ensures IsNumeric(d) ==> AllDigits(RenderOne(d, f))
    ensures !IsNumeric(d) && !d.Lit? ==> !IsDigit(RenderOne(d, f)[0])
    ensures d.Blank? ==> RenderOne(d, f) == " "
    ensures !d.Blank? && !d.Lit? ==> !IsSpace(RenderOne(d, f)[0])
  {
    if d.MonthAbbr? {
      var m := f.month;
      assert MonthAbbrs[m - 1][0] in {'J', 'F', 'M', 'A', 'S', 'O', 'N', 'D'};
    }
  }

  lemma {:induction false} NextStartsWell(fmt: seq<Directive>, f: Fields)
    requires |fmt| >= 1 && Separated(fmt)
    requires forall i :: 0 <= i < |fmt| ==> InRange(fmt[i], f)
    ensures var t := Render(fmt[1..], f);
      && (IsNumeric(fmt[0]) && |t| > 0 ==> !IsDigit(t[0]))
      && (fmt[0].Blank? && |t| > 0 ==> !IsSpace(t[0]))
  {
    if |fmt| > 1 {
      RenderOneShape(fmt[1], f);
      assert MayFollow(fmt[0], fmt[1]);
    }
  }

  lemma {:induction false} DigitRunOf(ds: string, t: string)
    requires AllDigits(ds)
    requires |t| > 0 ==> !IsDigit(t[0])
    ensures DigitRun(ds + t) == |ds|
    ensures (ds + t)[..|ds|] == ds && (ds + t)[|ds|..] == t
  {
    if |ds| > 0 {
      assert (ds + t)[1..] == ds[1..] + t;
      DigitRunOf(ds[1..], t);
    } else {
      assert ds + t == t;
    }
  }

  lemma {:induction false} SpaceRunOf(t: string)
    requires |t| > 0 ==> !IsSpace(t[0])
    ensures SpaceRun(" " + t) == 1
  {
    assert (" " + t)[1..] == t;
  }

  lemma {:induction false} MonthNumberOf(m: int)
    requires 1 <= m <= 12
    ensures MonthNumber(MonthAbbrs[m - 1], 0) == Some(m)
  {
    var names := MonthAbbrs;
    forall k | 0 <= k < m - 1 ensures !SameName(names[m - 1], names[k]) {
      var a, b := names[m - 1], names[k];
      assert ToLower(a[0]) != ToLower(b[0]) || ToLower(a[1]) != ToLower(b[1]) || ToLower(a[2]) != ToLower(b[2]);
    }
    MonthNumberFrom(m, 0);
  }

  lemma {:induction false} MonthNumberFrom(m: int, k: nat)
    requires 1 <= m <= 12 && k <= m - 1
    requires forall j :: k <= j < m - 1 ==> !SameName(MonthAbbrs[m - 1], MonthAbbrs[j])
    ensures MonthNumber(MonthAbbrs[m - 1], k) == Some(m)
    decreases m - 1 - k
  {
    if k < m - 1 {
      MonthNumberFrom(m, k + 1);
    }
  }

  /** Reading one rendered field consumes exactly that field. */
  lemma {:induction false} MatchStep(fmt: seq<Directive>, f: Fields, g: Fields)
    requires |fmt| >= 1 && Separated(fmt)
    requires forall i :: 0 <= i < |fmt| ==> InRange(fmt[i], f)
    ensures forall i :: 0 <= i < |fmt[1..]| ==> InRange(fmt[1..][i], f)
    ensures MatchFrom(Render(fmt, f), fmt, g)
         == MatchFrom(Render(fmt[1..], f), fmt[1..], Assign(fmt[0], f, g))
  {
    var d := fmt[0];
    var tail := Render(fmt[1..], f);
    assert Render(fmt, f) == RenderOne(d, f) + tail;
    NextStartsWell(fmt, f);
    OneStep(d, f, g, tail, fmt[1..]);
    assert fmt == [d] + fmt[1..];
  }

  lemma {:induction false} OneStep(d: Directive, f: Fields, g: Fields, tail: string, rest: seq<Directive>)
    requires InRange(d, f)
    requires IsNumeric(d) && |tail| > 0 ==> !IsDigit(tail[0])
    requires d.Blank? && |tail| > 0 ==> !IsSpace(tail[0])
    ensures MatchFrom(RenderOne(d, f) + tail, [d] + rest, g) == MatchFrom(tail, rest, Assign(d, f, g))
  {
    var head := RenderOne(d, f);
    RenderOneShape(d, f);
    var fmt := [d] + rest;
    assert fmt[0] == d && fmt[1..] == rest;
    if IsNumeric(d) {
      NumericStep(d, head, tail, rest, f, g);
    } else if d.MonthAbbr? {
      MonthStep(f.month, tail, rest, g);
    } else if d.AmPm? {
      AmPmStep(f.pm, tail, rest, g);
    } else if d.WeekdayAbbr? {
      WeekdayStep(tail, rest, g);
    } else if d.Zone? {
      ZoneStep(tail, rest, g);
    } else if d.Blank? {
      SpaceRunOf(tail);
      assert (head + tail)[1..] == tail;
    } else {
      assert (head + tail)[1..] == tail;
    }
  }

  lemma {:induction false} MonthStep(m: int, tail: string, rest: seq<Directive>, g: Fields)
    requires 1 <= m <= 12
    ensures MatchFrom(MonthAbbrs[m - 1] + tail, [MonthAbbr] + rest, g) == MatchFrom(tail, rest, g.(month := m))
  {
    var s := MonthAbbrs[m - 1] + tail;
    assert s[..3] == MonthAbbrs[m - 1] && s[3..] == tail;
    MonthNumberOf(m);
    assert ([MonthAbbr] + rest)[0] == MonthAbbr && ([MonthAbbr] + rest)[1..] == rest;
  }

  lemma {:induction false} AmPmStep(pm: bool, tail: string, rest: seq<Directive>, g: Fields)
    ensures MatchFrom((if pm then "PM" else "AM") + tail, [AmPm] + rest, g) == MatchFrom(tail, rest, g.(pm := pm))
  {
    var h := if pm then "PM" else "AM";
    var s := h + tail;
    assert s[..2] == h && s[2..] == tail;
    assert ([AmPm] + rest)[0] == AmPm && ([AmPm] + rest)[1..] == rest;
  }

  lemma {:induction false} WeekdayStep(tail: string, rest: seq<Directive>, g: Fields)
    ensures MatchFrom("Mon" + tail, [WeekdayAbbr] + rest, g) == MatchFrom(tail, rest, g)
  {
    var s := "Mon" + tail;
    assert s[..3] == "Mon" && s[3..] == tail;
    assert SameName("Mon", WeekdayAbbrs[0]);
    assert ([WeekdayAbbr] + rest)[0] == WeekdayAbbr && ([WeekdayAbbr] + rest)[1..] == rest;
  }

  lemma {:induction false} ZoneStep(tail: string, rest: seq<Directive>, g: Fields)
    ensures MatchFrom("+0000" + tail, [Zone] + rest, g) == MatchFrom(tail, rest, g)
  {
    var s := "+0000" + tail;
    assert s[..5] == "+0000" && s[5..] == tail;
    assert s[1..3] == "00" && s[3] == '0' && s[4] == '0';
    assert DecimalValue("00") == 0 by { assert "00"[..1] == "0"; assert "0"[..0] == ""; }
    assert ZoneField(s) == Some(5);
    assert ([Zone] + rest)[0] == Zone && ([Zone] + rest)[1..] == rest;
  }

  lemma {:induction false} NumericStep(d: Directive, head: string, tail: string, rest: seq<Directive>, f: Fields, g: Fields)
    requires IsNumeric(d) && InRange(d, f) && head == RenderOne(d, f)
    requires AllDigits(head) && |head| >= 1
    requires |tail| > 0 ==> !IsDigit(tail[0])
    ensures MatchFrom(head + tail, [d] + rest, g) == MatchFrom(tail, rest, Assign(d, f, g))
  {
    DigitRunOf(head, tail);
    assert ([d] + rest)[0] == d && ([d] + rest)[1..] == rest;
    if d.Day? {
      assert (head + tail)[0] != ' ';
    }
  }

  /** `strptime` reads back what `strftime` wrote with the same format. */
  lemma {:induction false} MatchRender(fmt: seq<Directive>, f: Fields, g: Fields)
    requires Separated(fmt)
    requires forall i :: 0 <= i < |fmt| ==> InRange(fmt[i], f)
    ensures MatchFrom(Render(fmt, f), fmt, g) == Some(Overlay(fmt, f, g))
    decreases |fmt|
  {
    if |fmt| > 0 {
      MatchStep(fmt, f, g);
      assert Separated(fmt[1..]);
      MatchRender(fmt[1..], f, Assign(fmt[0], f, g));
    }
  }
}

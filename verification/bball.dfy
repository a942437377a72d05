/** The basketball schedule plugins (bball.py and bball.1d.py, which share
    their parsing functions): schedule rows read into games, and the menu of
    upcoming games. The page extraction is a parameter: each table row
    arrives as the texts of its cells, with the `span.name` text of each. */
module Bball {
  import opened Wrappers
  import opened Text
  import opened Dates
  import opened Headlines

  const ScheduleUrl: string := "https://www.maxpreps.com/il/belleville/belleville-east-lancers/basketball/schedule/"

  /** `'%m/%d'`. */
  const DateFormat: seq<Directive> := [Month, Lit('/'), Day]

  /** `'%I:%M%p'`. */
  const TimeFormat: seq<Directive> := [Hour12, Lit(':'), Minute, AmPm]

  /** `parse_date`: month and day, checked against the default year 1900,
      then moved to `year` (the current year, a parameter). A text that is
      not a date raises ValueError. */
  function ParseDate(s: string, year: int): (r: Result<Date>)
    ensures r.Success? <==> Strptime(s, DateFormat).Some?
    ensures r.Success? ==> var d := Strptime(s, DateFormat).value.date;
      d.year == 1900 && r.value == Date(year, d.month, d.day)
    ensures r.Success? && 1 <= year <= 9999 ==> ValidDate(r.value)
  {
    match Strptime(s, DateFormat)
    case None => Failure("ValueError: time data does not match format '%m/%d'")
    case Some(st) =>
      OnlyMonthAndDay(s);
      Success(st.date.(year := year))
  }

  /** A month/day match leaves the year at its default. */
  lemma {:induction false} OnlyMonthAndDay(s: string)
    ensures Strptime(s, DateFormat).Some? ==> Strptime(s, DateFormat).value.date.year == 1900
  {
    assert DateFormat[1..] == [Lit('/'), Day] && [Lit('/'), Day][1..] == [Day] && [Day][1..] == [];
    var n := NumberField(s, 1, 12);
    if n.Some? {
      var f1 := Defaults.(month := n.value.0);
      var s1 := s[n.value.1..];
      if |s1| >= 1 && ToLower(s1[0]) == ToLower('/') {
        var s2 := s1[1..];
        var n2 := DayField(s2);
        if n2.Some? {
          assert MatchFrom(s2, [Day], f1) == MatchFrom(s2[n2.value.1..], [], f1.(day := n2.value.0));
        }
      }
    }
  }

  /** `parse_tipoff_time`: the upper-cased text as `H:MMAM`/`H:MMPM`, or
      None instead of the ValueError. */
  function ParseTipoff(s: string): (r: Option<Clock>)
    ensures r.Some? ==> ValidClock(r.value)
  {
    match Strptime(Upper(s), TimeFormat)
    case None => None
    case Some(st) => Some(st.time)
  }

  /** `parse_home_away`: `@` wins over `vs`; the match is case-sensitive. */
  function HomeAway(text: string): (r: string)
    ensures r == "Away" <==> Contains(text, "@")
    ensures r == "Home" <==> !Contains(text, "@") && Contains(text, "vs")
    ensures r == "Neutral" <==> !Contains(text, "@") && !Contains(text, "vs")
  {
    if Contains(text, "@") then "Away"
    else if Contains(text, "vs") then "Home"
    else "Neutral"
  }

  /** One `td`: its text and the text of its `span.name`, if it has one. */
  datatype Cell = Cell(text: string, name: Option<string>)

  /** `extract_opponent`. */
  function Opponent(td: Cell): (r: string)
    ensures td.name.None? ==> r == ""
    ensures td.name.Some? ==> r == Strip(td.name.value)
  {
    if td.name.Some? then Strip(td.name.value) else ""
  }

  datatype Game = Game(date: Date, homeAway: string, opponent: string, tipoff: Option<Clock>)

  /** The rows `parse_schedule` reads: those with at least four cells. */
  function Wide(tds: seq<Cell>): (r: Option<seq<Cell>>)
    ensures r.Some? <==> |tds| >= 4
    ensures r.Some? ==> r.value == tds
  {
    if |tds| >= 4 then Some(tds) else None
  }

  function ReadRow(tds: seq<Cell>, year: int): Result<Game> {
    if |tds| < 4 then Failure("IndexError: list index out of range")
    else
      match ParseDate(Strip(tds[0].text), year)
      case Failure(e) => Failure(e)
      case Success(date) =>
        Success(Game(date, HomeAway(tds[1].text), Opponent(tds[1]), ParseTipoff(Strip(tds[2].text))))
  }

  /** `parse_schedule`; a date that does not parse ends the script. */
  function ParseSchedule(rows: seq<seq<Cell>>, year: int): Result<seq<Game>> {
    Traverse(FilterMap(rows, Wide), (tds: seq<Cell>) => ReadRow(tds, year))
  }

  /** A month and day written `mm/dd` read back as that day of the current
      year exactly when the day exists in 1900, a year without 29 February. */
  lemma {:induction false} ParseDateValid(m: int, d: int, year: int)
    requires 1 <= m <= 12 && 1 <= d <= 31
    ensures ParseDate(Pad2(m) + "/" + Pad2(d), year).Success? <==> d <= DaysInMonth(1900, m)
    ensures ParseDate(Pad2(m) + "/" + Pad2(d), year).Success? ==>
              ParseDate(Pad2(m) + "/" + Pad2(d), year).value == Date(year, m, d)
  {
    var f := Defaults.(month := m, day := d);
    DateRendered(f);
    MatchRender(DateFormat, f, Defaults);
    OverlayFields(DateFormat, f, Defaults);
  }

  lemma {:induction false} DateRendered(f: Fields)
    requires 1 <= f.month <= 12 && 1 <= f.day <= 31
    ensures Separated(DateFormat)
    ensures forall i :: 0 <= i < |DateFormat| ==> InRange(DateFormat[i], f)
    ensures Render(DateFormat, f) == Pad2(f.month) + "/" + Pad2(f.day)
  {
    var tail := [Lit('/'), Day];
    assert DateFormat[1..] == tail && tail[1..] == [Day] && [Day][1..] == [];
    assert Separated(DateFormat[2..]);
    assert Separated(DateFormat[1..]);
    assert Render([Day], f) == Pad2(f.day);
    assert Render(tail, f) == "/" + Pad2(f.day);
  }

  /** `02/29` ends the script even in a leap year. */
  lemma {:induction false} LeapDayRejected(year: int)
    ensures ParseDate("02/29", year).Failure?
  {
    ParseDateValid(2, 29, year);
    LeapDayText();
  }

  lemma {:induction false} LeapDayText()
    ensures Pad2(2) + "/" + Pad2(29) == "02/29"
  {
    assert NatToString(2) == "2" by { assert DigitChar(2) == '2'; }
    assert NatToString(29) == "29" by {
      assert NatToString(2) == "2" by { assert DigitChar(2) == '2'; }
      assert DigitChar(9) == '9';
    }
  }

  /** `%I:%M %p`, as the menu shows a tip-off time. */
  function ShowTime(c: Clock): string
    requires ValidClock(c)
  {
    var h := c.hour % 12;
    Pad2(if h == 0 then 12 else h) + ":" + Pad2(c.minute) + " " + (if c.hour >= 12 then "PM" else "AM")
  }

  function Marker(pm: bool): string {
    if pm then "PM" else "AM"
  }

  /** A time written `hh:mmAM`/`hh:mmPM` reads back as the 24-hour time it
      names, and the menu shows it again with a space before the marker. */
  lemma {:induction false} TipoffRoundTrip(h: int, m: int, pm: bool)
    requires 1 <= h <= 12 && 0 <= m <= 59
    ensures var t := ParseTipoff(Pad2(h) + ":" + Pad2(m) + Marker(pm));
      && t.Some?
      && t.value == Clock(if pm then h % 12 + 12 else h % 12, m)
      && ShowTime(t.value) == Pad2(h) + ":" + Pad2(m) + " " + Marker(pm)
  {
    TimeRead(h, m, pm);
    UpperOfTime(h, m, pm);
    ShowBack(h, m, pm);
  }

  lemma {:induction false} UpperOfTime(h: int, m: int, pm: bool)
    requires 1 <= h <= 12 && 0 <= m <= 59
    ensures Upper(Pad2(h) + ":" + Pad2(m) + Marker(pm)) == Pad2(h) + ":" + Pad2(m) + Marker(pm)
  {
    var a, b, c, d := Pad2(h), ":", Pad2(m), Marker(pm);
    UpperUnchanged(a);
    UpperUnchanged(c);
    UpperUnchanged(d);
    UpperUnchanged(b);
    UpperAppend(a, b);
    UpperAppend(a + b, c);
    UpperAppend(a + b + c, d);
  }

  lemma {:induction false} ShowBack(h: int, m: int, pm: bool)
    requires 1 <= h <= 12 && 0 <= m <= 59
    ensures ShowTime(Clock(if pm then h % 12 + 12 else h % 12, m)) == Pad2(h) + ":" + Pad2(m) + " " + Marker(pm)
  {
    var r := if h == 12 then 0 else h;
    assert h % 12 == r;
    var c := Clock(if pm then r + 12 else r, m);
    assert c.hour % 12 == r;
    assert (c.hour >= 12) == pm;
    assert (if r == 0 then 12 else r) == h;
  }

  lemma {:induction false} UpperAppend(a: string, b: string)
    ensures Upper(a + b) == Upper(a) + Upper(b)
  {
  }

  lemma {:induction false} TimeRead(h: int, m: int, pm: bool)
    requires 1 <= h <= 12 && 0 <= m <= 59
    ensures Strptime(Pad2(h) + ":" + Pad2(m) + Marker(pm), TimeFormat)
         == Some(Stamp(Date(1900, 1, 1), Clock(if pm then h % 12 + 12 else h % 12, m)))
  {
    var f := Defaults.(hour := h, minute := m, pm := pm);
    TimeRendered(f);
    MatchRender(TimeFormat, f, Defaults);
    assert Overlay(TimeFormat, f, Defaults) == f.(twelveHour := true);
  }

  lemma TimeRendered(f: Fields)
    requires 1 <= f.hour <= 12 && 0 <= f.minute <= 59
    ensures Separated(TimeFormat)
    ensures forall i :: 0 <= i < |TimeFormat| ==> InRange(TimeFormat[i], f)
    ensures Render(TimeFormat, f) == Pad2(f.hour) + ":" + Pad2(f.minute) + Marker(f.pm)
  {
    var t1 := [Lit(':'), Minute, AmPm];
    var t2 := [Minute, AmPm];
    assert TimeFormat[1..] == t1 && t1[1..] == t2 && t2[1..] == [AmPm] && [AmPm][1..] == [];
    assert Separated(TimeFormat[3..]);
    assert Separated(TimeFormat[2..]);
    assert Separated(TimeFormat[1..]);
    assert Render([AmPm], f) == Marker(f.pm);
    assert Render(t2, f) == Pad2(f.minute) + Marker(f.pm);
    assert Render(t1, f) == ":" + (Pad2(f.minute) + Marker(f.pm));
  }

  /** Upper-casing changes nothing in text without lower-case letters. */
  lemma {:induction false} UpperUnchanged(s: string)
    requires forall i :: 0 <= i < |s| ==> IsDigit(s[i]) || s[i] == ':' || 'A' <= s[i] <= 'Z'
    ensures Upper(s) == s
  {
  }

  /** The tip-off time is read without regard to case. */
  lemma {:induction false} TipoffIgnoresCase(s: string)
    ensures ParseTipoff(Lower(s)) == ParseTipoff(s)
  {
    assert Upper(Lower(s)) == Upper(s);
  }

  /** A cell saying `TBA` has no tip-off time. */
  lemma {:induction false} NoTimeForTba()
    ensures ParseTipoff("TBA").None?
  {
    assert Upper("TBA") == "TBA";
    assert DigitRun("TBA") == 0;
  }

  /** One game per row with at least four cells, in row order; a short row
      is skipped, and a row whose date does not parse ends the script. */
  lemma {:induction false} ScheduleRows(rows: seq<seq<Cell>>, year: int)
    ensures var r := ParseSchedule(rows, year);
      r.Success? ==>
        && |r.value| == |FilterMap(rows, Wide)|
        && forall i :: 0 <= i < |r.value| ==> Success(r.value[i]) == ReadRow(FilterMap(rows, Wide)[i], year)
    ensures forall tds :: tds in FilterMap(rows, Wide) <==> tds in rows && |tds| >= 4
  {
    var kept := FilterMap(rows, Wide);
    TraverseAll(kept, (tds: seq<Cell>) => ReadRow(tds, year));
    FilterMapMembers(rows, Wide);
  }

  /** A row with at least four cells whose date does not parse ends the
      script. */
  lemma {:induction false} BadDateFails(rows: seq<seq<Cell>>, year: int)
    ensures forall tds: seq<Cell> :: tds in rows && |tds| >= 4 && ParseDate(Strip(tds[0].text), year).Failure? ==>
      ParseSchedule(rows, year).Failure?
  {
    forall tds: seq<Cell> | tds in rows && |tds| >= 4 && ParseDate(Strip(tds[0].text), year).Failure?
      ensures ParseSchedule(rows, year).Failure?
    {
      BadRowFails(rows, year, tds);
    }
  }

  lemma {:induction false} BadRowFails(rows: seq<seq<Cell>>, year: int, tds: seq<Cell>)
    requires tds in rows && |tds| >= 4 && ParseDate(Strip(tds[0].text), year).Failure?
    ensures ParseSchedule(rows, year).Failure?
  {
    var kept := FilterMap(rows, Wide);
    var read := (tds: seq<Cell>) => ReadRow(tds, year);
    assert ParseSchedule(rows, year) == Traverse(kept, read);
    FilterMapMembers(rows, Wide);
    assert Wide(tds).value in kept;
    var k :| 0 <= k < |kept| && kept[k] == tds;
    assert read(kept[k]).Failure?;
    TraverseAll(kept, read);
  }

  /** `get_future_games` (bball.1d.py): the games, or None after printing a
      message when there is no schedule or it has no games. */
  function FutureGames(schedule: Option<seq<seq<Cell>>>, year: int): (r: (seq<string>, Result<Option<seq<Game>>>))
    ensures r.1.Success? && r.1.value.Some? ==> r.0 == [] && |r.1.value.value| > 0
    ensures r.1.Success? && r.1.value.None? ==> r.0 == [NoGames]
    ensures schedule.None? ==> r == ([NoGames], Success(None))
    ensures schedule.Some? && ParseSchedule(schedule.value, year) == Success([]) ==> r == ([NoGames], Success(None))
    ensures schedule.Some? && ParseSchedule(schedule.value, year).Success? && ParseSchedule(schedule.value, year).value != [] ==>
              r == ([], Success(Some(ParseSchedule(schedule.value, year).value)))
    ensures schedule.Some? && ParseSchedule(schedule.value, year).Failure? ==>
              r == ([], Failure(ParseSchedule(schedule.value, year).error))
  {
    match schedule
    case None => ([NoGames], Success(None))
    case Some(rows) =>
      match ParseSchedule(rows, year)
      case Failure(e) => ([], Failure(e))
      case Success(games) =>
        if |games| == 0 then ([NoGames], Success(None)) else ([], Success(Some(games)))
  }

  const NoGames: string := "No future games found."

  /** What the School record holds once `fetch_school_data` has run: the
      texts found on the school page. */
  datatype School = School(name: Option<string>, record: Option<string>, ranking: Option<string>, url: string)

  /** Python's `str` of an optional text. */
  function Show(o: Option<string>): string {
    if o.Some? then o.value else "None"
  }

  /** Day of the week, Monday first (Zeller's congruence). */
  function Weekday(d: Date): (r: int)
    ensures 0 <= r < 7
  {
    var m := if d.month < 3 then d.month + 12 else d.month;
    var y := if d.month < 3 then d.year - 1 else d.year;
    var k := y % 100;
    var j := y / 100;
    var h := (d.day + 13 * (m + 1) / 5 + k + k / 4 + j / 4 + 5 * j) % 7;
    (h + 5) % 7
  }

  function MonthName(m: int): string {
    if 1 <= m <= 12 then MonthAbbrs[m - 1] else ""
  }

  /** The line of one game: `%a, %b %d`, opponent, home or away, and the
      tip-off time or nothing. */
  function GameLine(g: Game): string
    requires ValidGame(g)
  {
    "--" + WeekdayAbbrs[Weekday(g.date)] + ", " + MonthAbbrs[g.date.month - 1] + " " + Pad2(g.date.day) + ": "
    + g.opponent + " " + g.homeAway + " " + (if g.tipoff.Some? then ShowTime(g.tipoff.value) else "") + " "
  }

  /** A game without a tip-off time ends in two spaces after home/away. */
  lemma {:induction false} UntimedGameLine(g: Game)
    requires ValidGame(g) && g.tipoff.None?
    ensures |GameLine(g)| >= |g.homeAway| + 2
    ensures GameLine(g)[|GameLine(g)| - |g.homeAway| - 2..] == g.homeAway + "  "
  {
    var head := "--" + WeekdayAbbrs[Weekday(g.date)] + ", " + MonthAbbrs[g.date.month - 1] + " " + Pad2(g.date.day) + ": "
      + g.opponent + " ";
    assert GameLine(g) == head + (g.homeAway + "  ");
  }

  predicate ValidGame(g: Game) {
    ValidDate(g.date) && (g.tipoff.Some? ==> ValidClock(g.tipoff.value))
  }

  predicate AllValid(games: seq<Game>) {
    forall i :: 0 <= i < |games| ==> ValidGame(games[i])
  }

  /** Every game read from the schedule falls on a real day of the year. */
  lemma {:induction false} ScheduleDatesValid(rows: seq<seq<Cell>>, year: int)
    requires 1 <= year <= 9999
    ensures ParseSchedule(rows, year).Success? ==> AllValid(ParseSchedule(rows, year).value)
  {
    var kept := FilterMap(rows, Wide);
    TraverseAll(kept, (tds: seq<Cell>) => ReadRow(tds, year));
  }

  function GameLines(games: seq<Game>): (r: seq<string>)
    requires AllValid(games)
    ensures |r| == |games| && forall i :: 0 <= i < |games| ==> r[i] == GameLine(games[i])
  {
    seq(|games|, i requires 0 <= i < |games| && AllValid(games) => GameLine(games[i]))
  }

  const Ball: string := "\U{1015c9}"

  const NotIterable: string := "TypeError: 'NoneType' object is not iterable"

  /** `swiftbar_menu` (bball.1d.py): the school line, then one line per
      game. When `get_future_games` returns None the loop over it raises
      TypeError. */
  function Menu(school: School, schedule: Option<seq<seq<Cell>>>, year: int): (r: Output)
    requires 1 <= year <= 9999
    ensures |r.lines| >= 3
    ensures r.lines[..3] == [Ball, "---", Show(school.name) + " (" + Show(school.record) + ") IL #:" + Show(school.ranking) + " | href = " + school.url]
    ensures FutureGames(schedule, year).1 == Success(None) ==> r.crash == Some(NotIterable) && r.lines[3..] == [NoGames]
    ensures r.crash.None? <==> FutureGames(schedule, year).1.Success? && FutureGames(schedule, year).1.value.Some?
    ensures r.crash.None? ==> |r.lines| == 3 + |FutureGames(schedule, year).1.value.value|
    ensures r.crash.None? ==> AllValid(FutureGames(schedule, year).1.value.value)
                              && r.lines[3..] == GameLines(FutureGames(schedule, year).1.value.value)
    ensures FutureGames(schedule, year).1.Failure? ==>
              r == Output(r.lines[..3], Some(FutureGames(schedule, year).1.error))
  {
    var head := [Ball, "---", Show(school.name) + " (" + Show(school.record) + ") IL #:" + Show(school.ranking) + " | href = " + school.url];
    var (log, games) := FutureGames(schedule, year);
    var lines := head + log;
    match games
    case Failure(e) => Output(lines, Some(e))
    case Success(None) => Output(lines, Some(NotIterable))
    case Success(Some(gs)) =>
      ScheduleDatesValid(schedule.value, year);
      Output(lines + GameLines(gs), None)
  }
}

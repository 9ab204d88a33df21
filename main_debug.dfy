/** The debug build js/main.debug.js: the schedule row helpers, the calendar
    link, the next game derived from the schedule when next.json is empty,
    and `paintNext`. The helpers it shares with js/main.js are in `Legacy`. */
module MainDebug {
  import opened Strs
  import opened Js
  import opened Sorting
  import opened Stamps
  import opened Widgets
  import opened Legacy

  const SixHoursMs: int := 6 * 3600 * 1000

  /** `r.is_home === true || r.home === true` */
  predicate IsHomeRow(r: Value) {
    Get(r, "is_home") == Bool(true) || Get(r, "home") == Bool(true)
  }

  /** `resultText(r)`: Tennessee's side from `is_home` or `home`; points read
      through `Number`, so null points read as 0 (see `NullPointsReadAsTie`). */
  function ResultText(r: Value): Value {
    PointsResult(r, IsHomeRow(r))
  }

  /** Either flag puts Tennessee's score first: for any scored row the text
      is `W|L|T us-them` with `us` the home points exactly when a flag is set. */
  lemma ResultTextSides(r: Value, h: int, a: int)
    requires !Truthy(Get(r, "result"))
    requires ToNumber(Get(r, "home_points")) == Some(h) && ToNumber(Get(r, "away_points")) == Some(a)
    ensures var home := Get(r, "is_home") == Bool(true) || Get(r, "home") == Bool(true);
      var us := if home then h else a;
      var them := if home then a else h;
      var t := ResultText(r);
      && t.Str? && |t.s| >= 2
      && (t.s[0] == 'W' <==> us > them)
      && (t.s[0] == 'L' <==> us < them)
      && (t.s[0] == 'T' <==> us == them)
      && t.s[1] == ' '
      && t.s[2..] == IntToStr(us) + "-" + IntToStr(them)
    ensures h == 28 && a == 10 ==>
              ResultText(r) == Str(if IsHomeRow(r) then "W 28-10" else "L 10-28")
  {
    PointsResultScored(r, IsHomeRow(r), h, a);
    if h == 28 && a == 10 {
      ScoreText28To10();
    }
  }

  /** `opponentOfRow(r)` */
  function OpponentOfRow(r: Value): (o: Value)
    ensures Truthy(Get(r, "opponent")) ==> o == Get(r, "opponent")
    ensures !Truthy(Get(r, "opponent")) && (!Truthy(Get(r, "home_team")) || !Truthy(Get(r, "away_team"))) ==>
              o == Str("")
    ensures !Truthy(Get(r, "opponent")) && Truthy(Get(r, "home_team")) && Truthy(Get(r, "away_team")) ==>
              o == (if Get(r, "home_team") == Str("Tennessee") then Get(r, "away_team") else Get(r, "home_team"))
  {
    if Truthy(Get(r, "opponent")) then Get(r, "opponent")
    else if Truthy(Get(r, "home_team")) && Truthy(Get(r, "away_team")) then
      (if Get(r, "home_team") == Str("Tennessee") then Get(r, "away_team") else Get(r, "home_team"))
    else Str("")
  }

  /** The match on "Tennessee" is exact: any other spelling counts as the opponent. */
  lemma OpponentMatchIsExact(r: Value)
    requires !Truthy(Get(r, "opponent")) && Get(r, "home_team") == Str("tennessee") && Truthy(Get(r, "away_team"))
    ensures OpponentOfRow(r) == Str("tennessee")
  {
  }

  /** `` `Tennessee ${home ? "vs" : "at"} ${opponent || ""}`.trim() `` */
  function CalTitle(opponent: Value, home: bool): string {
    Trim("Tennessee " + VsAt(home) + " " + ToStr(Or(opponent, Str(""))))
  }

  /** Only the end is trimmed: an opponent keeps its own leading blanks, and
      without an opponent the title ends after "vs" or "at". */
  lemma CalTitleTrim(opponent: Value, home: bool)
    ensures var o := ToStr(Or(opponent, Str("")));
      TrimEnd(o) != [] ==> CalTitle(opponent, home) == "Tennessee " + VsAt(home) + " " + TrimEnd(o)
    ensures var o := ToStr(Or(opponent, Str("")));
      TrimEnd(o) == [] ==> CalTitle(opponent, home) == "Tennessee " + VsAt(home)
  {
    var w := "Tennessee " + VsAt(home);
    assert w[0] == 'T' && (w[|w| - 1] == 's' || w[|w| - 1] == 't');
    TrimAfterWord(w, ToStr(Or(opponent, Str(""))));
  }

  /** `calHref({opponent, date, home})`: "#" without a date; `None` when the
      date is not valid, where `toISOString` throws. */
  function CalHref(opponent: Value, date: Value, home: bool, parse: string -> Option<int>,
                   toIso: int -> string, encode: string -> string): (r: Option<string>)
    ensures r == Some("#") <==> !Truthy(date)
    ensures r.None? <==> Truthy(date) && DateValue(date, parse).None?
  {
    if !Truthy(date) then Some("#")
    else match DateValue(date, parse)
      case None => None
      case Some(t) =>
        CalendarUrlStart(CalTitle(opponent, home), t, toIso, encode);
        Some(CalendarUrl(CalTitle(opponent, home), t, toIso, encode))
  }

  /** A row the next game can be drawn from: it has a date, the date is not
      more than six hours past, and the game is not completed. */
  predicate Upcoming(r: Value, now: int, parse: string -> Option<int>) {
    Truthy(Get(r, "date")) && RowDate(r, parse).Some? && RowDate(r, parse).value >= now - SixHoursMs
    && !Truthy(Get(r, "completed"))
  }

  /** `+new Date(r.date)` */
  function RowDate(r: Value, parse: string -> Option<int>): Option<int> {
    DateValue(Get(r, "date"), parse)
  }

  function UpcomingRows(rows: seq<Value>, now: int, parse: string -> Option<int>): (u: seq<Value>)
    ensures forall x :: x in u <==> x in rows && Upcoming(x, now, parse)
  {
    if rows == [] then []
    else
      var rest := UpcomingRows(rows[1..], now, parse);
      assert rows == [rows[0]] + rows[1..];
      if Upcoming(rows[0], now, parse) then [rows[0]] + rest else rest
  }

  /** `sched.filter(…).sort(…)[0] || null`; `None` when a row is null, where
      `r.date` throws. */
  function DeriveNext(rows: seq<Value>, now: int, parse: string -> Option<int>): Option<Value> {
    if exists i :: 0 <= i < |rows| && Nullish(rows[i]) then None
    else match EarliestBy(UpcomingRows(rows, now, parse), (r: Value) => RowDate(r, parse))
      case None => Some(Null)
      case Some(r) => Some(r)
  }

  /** The derived next game is the upcoming row with the earliest date, and
      null when no row is upcoming. */
  lemma DeriveNextIsEarliestUpcoming(rows: seq<Value>, now: int, parse: string -> Option<int>)
    ensures DeriveNext(rows, now, parse).None? <==> exists i :: 0 <= i < |rows| && Nullish(rows[i])
    ensures DeriveNext(rows, now, parse) == Some(Null) <==>
              (forall i :: 0 <= i < |rows| ==> !Nullish(rows[i])) && (forall x :: x in rows ==> !Upcoming(x, now, parse))
    ensures DeriveNext(rows, now, parse).Some? && DeriveNext(rows, now, parse) != Some(Null) ==>
              var g := DeriveNext(rows, now, parse).value;
              g in rows && Upcoming(g, now, parse)
              && forall x :: x in rows && Upcoming(x, now, parse) ==> RowDate(g, parse).value <= RowDate(x, parse).value
  {
    var u := UpcomingRows(rows, now, parse);
    if !(exists i :: 0 <= i < |rows| && Nullish(rows[i])) {
      if u != [] {
        var g := EarliestBy(u, (r: Value) => RowDate(r, parse)).value;
        assert g in u;
        assert Truthy(Get(g, "date"));
      }
    }
  }

  /** `item.opponent || opponentOfRow(item) || ""` */
  function OppOf(it: Value): Value {
    Or(Get(it, "opponent"), Or(OpponentOfRow(it), Str("")))
  }

  /** The kickoff instant when `item.date` is set and valid. */
  function WhenOf(it: Value, parse: string -> Option<int>): (w: Option<int>)
    ensures w.Some? <==> Truthy(Get(it, "date")) && DateValue(Get(it, "date"), parse).Some?
  {
    if Truthy(Get(it, "date")) then DateValue(Get(it, "date"), parse) else None
  }

  /** The next-game line, venue, countdown and calendar link of `paintNext`,
      painted only when the item has a valid date. */
  method ShowNext(panel: ScorePanel, it: Value, parse: string -> Option<int>,
                  toIso: int -> string, encode: string -> string, fmt: int -> string)
    modifies panel
    ensures panel.dot == old(panel.dot) && panel.message == old(panel.message)
    ensures WhenOf(it, parse).None? ==>
              panel.nextLine == old(panel.nextLine) && panel.nextVenue == old(panel.nextVenue)
              && panel.calendarHref == old(panel.calendarHref) && panel.countdownDate == old(panel.countdownDate)
    ensures WhenOf(it, parse).Some? ==>
              panel.nextLine == NextLine(fmt(WhenOf(it, parse).value), IsHomeRow(it), ToStr(OppOf(it)), Or(Get(it, "tv"), Str("")))
              && panel.nextVenue == ToStr(Or(Get(it, "venue_name"), Or(Get(it, "venue"), Str(""))))
              && panel.countdownDate == WhenOf(it, parse)
              && Some(panel.calendarHref) == CalHref(OppOf(it), Get(it, "date"), IsHomeRow(it), parse, toIso, encode)
              && panel.calendarHref != "#"
  {
    var when := WhenOf(it, parse);
    if when.Some? {
      var line := NextLine(fmt(when.value), IsHomeRow(it), ToStr(OppOf(it)), Or(Get(it, "tv"), Str("")));
      var venue := ToStr(Or(Get(it, "venue_name"), Or(Get(it, "venue"), Str(""))));
      panel.ShowNextLine(line, venue, when);
      ShowCalendar(panel, it, parse, toIso, encode);
    }
  }

  /** The calendar link, for an item with a valid date. */
  method ShowCalendar(panel: ScorePanel, it: Value, parse: string -> Option<int>,
                      toIso: int -> string, encode: string -> string)
    requires WhenOf(it, parse).Some?
    modifies panel
    ensures panel.dot == old(panel.dot) && panel.message == old(panel.message)
    ensures panel.nextLine == old(panel.nextLine) && panel.nextVenue == old(panel.nextVenue)
    ensures panel.countdownDate == old(panel.countdownDate)
    ensures Some(panel.calendarHref) == CalHref(OppOf(it), Get(it, "date"), IsHomeRow(it), parse, toIso, encode)
    ensures panel.calendarHref != "#"
  {
    var date := Get(it, "date");
    assert Truthy(date) && DateValue(date, parse).Some?;
    var href := CalHref(OppOf(it), date, IsHomeRow(it), parse, toIso, encode);
    panel.ShowLink(href.value);
  }

  /** `paintNext()` of the debug build, with next.json and schedule.json
      already fetched (`null` when missing), the clock, the date parser,
      `toISOString`, `encodeURIComponent` and `fmtDT` as parameters. */
  method PaintNext(panel: ScorePanel, next: Value, sched: Value, now: int, parse: string -> Option<int>,
                   toIso: int -> string, encode: string -> string, fmt: int -> string)
    modifies panel
    ensures ItemOf(next, sched, now, parse).None? ==>
              panel.dot == Red && panel.message == ResetBox.message && panel.nextLine == "No upcoming game found."
              && panel.nextVenue == "" && panel.calendarHref == "#" && panel.countdownDate == old(panel.countdownDate)
    ensures ItemOf(next, sched, now, parse).Some? && !Truthy(ItemOf(next, sched, now, parse).value) ==>
              panel.dot == Red && panel.message == ResetBox.message && panel.nextLine == "No upcoming game found."
              && panel.nextVenue == "" && panel.calendarHref == "#" && panel.countdownDate.None?
    ensures ItemOf(next, sched, now, parse).Some? && Truthy(ItemOf(next, sched, now, parse).value) ==>
              var it := ItemOf(next, sched, now, parse).value;
              var box := ScoreBoxOf(it, IsHomeRow(it), ToStr(OppOf(it)));
              panel.dot == box.dot && panel.message == box.message
              && (WhenOf(it, parse).None? ==>
                    panel.nextLine == "No upcoming game found." && panel.nextVenue == ""
                    && panel.calendarHref == "#" && panel.countdownDate == old(panel.countdownDate))
              && (WhenOf(it, parse).Some? ==>
                    panel.nextLine == NextLine(fmt(WhenOf(it, parse).value), IsHomeRow(it), ToStr(OppOf(it)), Or(Get(it, "tv"), Str("")))
                    && panel.countdownDate == WhenOf(it, parse) && panel.calendarHref != "#")
  {
    panel.Reset();
    var item := ItemOf(next, sched, now, parse);
    if item.None? {
      return;
    }
    var it := item.value;
    if !Truthy(it) {
      panel.countdownDate := None;
      return;
    }
    ShowNext(panel, it, parse, toIso, encode, fmt);
    panel.ShowBox(ScoreBoxOf(it, IsHomeRow(it), ToStr(OppOf(it))));
  }

  /** The item `paintNext` goes on with: next.json when it is truthy, else the
      row derived from a non-empty schedule; `None` when deriving throws. */
  function ItemOf(next: Value, sched: Value, now: int, parse: string -> Option<int>): Option<Value> {
    if !Truthy(next) && sched.Arr? && |sched.elems| > 0 then DeriveNext(sched.elems, now, parse)
    else Some(next)
  }

  /** next.json wins whenever it holds something. */
  lemma NextJsonWins(next: Value, sched: Value, now: int, parse: string -> Option<int>)
    requires Truthy(next)
    ensures ItemOf(next, sched, now, parse) == Some(next)
  {
  }
}

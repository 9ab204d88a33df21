/** The production build js/main.js: its schedule result text, its calendar
    link and its `paintNext`, which reads only next.json. The helpers it
    shares with the debug build are in `Legacy`; the lemmas at the end say
    where the two builds part. */
module MainJs {
  import opened Strs
  import opened Js
  import opened Widgets
  import opened Legacy
  import MainDebug

  /** `resultText(row)`: only `row.home === true` puts Tennessee's score first;
      points read through `Number`, as in the debug build. */
  function ResultText(row: Value): Value {
    PointsResult(row, Get(row, "home") == Bool(true))
  }

  /** In both builds an unplayed row, with null points, reads as a 0-0 tie. */
  lemma NullPointsTieInBothBuilds(row: Value)
    requires !Truthy(Get(row, "result")) && Get(row, "home_points") == Null && Get(row, "away_points") == Null
    ensures ResultText(row) == Str("T 0-0") && MainDebug.ResultText(row) == Str("T 0-0")
  {
    NullPointsReadAsTie(row, Get(row, "home") == Bool(true));
    NullPointsReadAsTie(row, MainDebug.IsHomeRow(row));
  }

  /** A row that marks the home game with `is_home` alone reads as an away
      game here, while the debug build reads it as a home game. */
  lemma IsHomeIgnored(row: Value, h: int, a: int)
    requires !Truthy(Get(row, "result"))
    requires ToNumber(Get(row, "home_points")) == Some(h) && ToNumber(Get(row, "away_points")) == Some(a)
    requires Get(row, "is_home") == Bool(true) && Get(row, "home") != Bool(true)
    ensures ResultText(row).Str? && ResultText(row).s[2..] == IntToStr(a) + "-" + IntToStr(h)
    ensures MainDebug.ResultText(row).Str? && MainDebug.ResultText(row).s[2..] == IntToStr(h) + "-" + IntToStr(a)
    ensures |ResultText(row).s| >= 1 && (ResultText(row).s[0] == 'W' <==> a > h)
    ensures |MainDebug.ResultText(row).s| >= 1 && (MainDebug.ResultText(row).s[0] == 'W' <==> h > a)
    ensures h != a ==> ResultText(row) != MainDebug.ResultText(row)
    ensures h == 28 && a == 10 ==> ResultText(row) == Str("L 10-28") && MainDebug.ResultText(row) == Str("W 28-10")
  {
    PointsResultScored(row, false, h, a);
    MainDebug.ResultTextSides(row, h, a);
  }

  /** `` `Tennessee ${home ? "vs" : "at"} ${opponent}` ``, not trimmed. */
  function CalTitle(opponent: string, home: bool): string {
    "Tennessee " + VsAt(home) + " " + opponent
  }

  /** `calendarLink({opponent, date, home})`: "#" without a date; `None` when
      the date is not valid, where `toISOString` throws. */
  function CalendarLink(opponent: string, date: Value, home: bool, parse: string -> Option<int>,
                        toIso: int -> string, encode: string -> string): (r: Option<string>)
    ensures r == Some("#") <==> !Truthy(date)
    ensures r.None? <==> Truthy(date) && DateValue(date, parse).None?
  {
    if !Truthy(date) then Some("#")
    else match DateValue(date, parse)
      case None => None
      case Some(t) =>
        CalendarUrlStart(CalTitle(opponent, home), t, toIso, encode);
        Some(CalendarUrl(CalTitle(opponent, home), t, toIso, encode))
  }

  /** For an opponent without trailing blanks both builds title the event
      alike; for no opponent this build keeps the blank after "vs" or "at". */
  lemma TitlesOfBothBuilds(opponent: string, home: bool)
    ensures opponent != "" && TrimEnd(opponent) == opponent ==>
              MainDebug.CalTitle(Str(opponent), home) == CalTitle(opponent, home)
    ensures opponent == "" ==>
              CalTitle(opponent, home) == MainDebug.CalTitle(Str(opponent), home) + " "
  {
    MainDebug.CalTitleTrim(Str(opponent), home);
    assert ToStr(Or(Str(opponent), Str(""))) == opponent;
    var w := "Tennessee " + VsAt(home);
    assert CalTitle(opponent, home) == w + " " + opponent;
    if opponent == "" {
      assert TrimEnd(opponent) == [];
      assert w + " " + opponent == w + " ";
    }
  }

  /** `venue_name`, then " — " and the city and state that are set, joined by ", ". */
  function Venue(next: Value): string {
    var name := if Truthy(Get(next, "venue_name")) then ToStr(Get(next, "venue_name")) else "";
    var city := Get(next, "venue_city");
    var state := Get(next, "venue_state");
    var parts := (if Truthy(city) then [ToStr(city)] else []) + (if Truthy(state) then [ToStr(state)] else []);
    name + (if Truthy(city) || Truthy(state) then " — " + Join(parts, ", ") else "")
  }

  /** The four shapes of the venue line. */
  lemma VenueCases(next: Value)
    ensures var name := if Truthy(Get(next, "venue_name")) then ToStr(Get(next, "venue_name")) else "";
      var city := Get(next, "venue_city");
      var state := Get(next, "venue_state");
      (!Truthy(city) && !Truthy(state) ==> Venue(next) == name)
      && (Truthy(city) && !Truthy(state) ==> Venue(next) == name + " — " + ToStr(city))
      && (!Truthy(city) && Truthy(state) ==> Venue(next) == name + " — " + ToStr(state))
      && (Truthy(city) && Truthy(state) ==> Venue(next) == name + " — " + ToStr(city) + ", " + ToStr(state))
  {
    var city := Get(next, "venue_city");
    var state := Get(next, "venue_state");
    if Truthy(city) && Truthy(state) {
      var parts := [ToStr(city)] + [ToStr(state)];
      assert parts[1..] == [ToStr(state)];
      assert Join(parts, ", ") == ToStr(city) + ", " + ToStr(state);
    }
  }

  /** `next.opponent || ""` */
  function OpponentOf(next: Value): string {
    ToStr(Or(Get(next, "opponent"), Str("")))
  }

  /** `next.home === true` */
  predicate IsHome(next: Value) {
    Get(next, "home") == Bool(true)
  }

  /** `next.date || null` */
  function DateOf(next: Value): Value {
    Or(Get(next, "date"), Null)
  }

  /** The kickoff instant when `next.date` is set and valid. */
  function WhenOf(next: Value, parse: string -> Option<int>): (w: Option<int>)
    ensures w.Some? <==> Truthy(Get(next, "date")) && DateValue(Get(next, "date"), parse).Some?
  {
    if Truthy(DateOf(next)) then DateValue(DateOf(next), parse) else None
  }

  /** The next-game line, venue and countdown target of `paintNext`. */
  method ShowNext(panel: ScorePanel, next: Value, parse: string -> Option<int>, fmt: int -> string)
    modifies panel
    ensures panel.dot == old(panel.dot) && panel.message == old(panel.message)
    ensures panel.calendarHref == old(panel.calendarHref)
    ensures WhenOf(next, parse).None? ==>
              panel.nextLine == "No upcoming game found." && panel.nextVenue == "" && panel.countdownDate.None?
    ensures WhenOf(next, parse).Some? ==>
              panel.nextLine == NextLine(fmt(WhenOf(next, parse).value), IsHome(next), OpponentOf(next), Or(Get(next, "tv"), Str("")))
              && panel.nextVenue == Venue(next) && panel.countdownDate == WhenOf(next, parse)
  {
    var when := WhenOf(next, parse);
    if when.Some? {
      var line := NextLine(fmt(when.value), IsHome(next), OpponentOf(next), Or(Get(next, "tv"), Str("")));
      panel.ShowNextLine(line, Venue(next), when);
    } else {
      panel.ShowNextLine("No upcoming game found.", "", None);
    }
  }

  /** The part of `paintNext()` after the defaults are set, for a truthy
      `next`: the next-game line, then the calendar link, then the box. */
  method PaintGame(panel: ScorePanel, next: Value, parse: string -> Option<int>,
                   toIso: int -> string, encode: string -> string, fmt: int -> string)
    requires panel.dot == Red && panel.message == ResetBox.message && panel.calendarHref == "#"
    modifies panel
    ensures Truthy(Get(next, "date")) && WhenOf(next, parse).None? ==>
              panel.dot == Red && panel.message == ResetBox.message && panel.nextLine == "No upcoming game found."
              && panel.nextVenue == "" && panel.calendarHref == "#" && panel.countdownDate.None?
    ensures !Truthy(Get(next, "date")) ==>
              var box := ScoreBoxOf(next, IsHome(next), OpponentOf(next));
              panel.dot == box.dot && panel.message == box.message
              && panel.nextLine == "No upcoming game found." && panel.nextVenue == ""
              && panel.calendarHref == "#" && panel.countdownDate.None?
    ensures WhenOf(next, parse).Some? ==>
              var box := ScoreBoxOf(next, IsHome(next), OpponentOf(next));
              panel.dot == box.dot && panel.message == box.message
              && panel.nextLine == NextLine(fmt(WhenOf(next, parse).value), IsHome(next), OpponentOf(next), Or(Get(next, "tv"), Str("")))
              && panel.nextVenue == Venue(next) && panel.countdownDate == WhenOf(next, parse)
              && Some(panel.calendarHref) == CalendarLink(OpponentOf(next), DateOf(next), IsHome(next), parse, toIso, encode)
              && panel.calendarHref != "#"
  {
    ShowNext(panel, next, parse, fmt);
    LinkOfNext(next, parse, toIso, encode);
    PaintLink(panel, next, parse, toIso, encode);
  }

  /** The calendar link of `next` is "#" exactly without a date and throws
      exactly for a date that is set but not valid. */
  lemma LinkOfNext(next: Value, parse: string -> Option<int>, toIso: int -> string, encode: string -> string)
    ensures var link := CalendarLink(OpponentOf(next), DateOf(next), IsHome(next), parse, toIso, encode);
            link == Some("#") <==> !Truthy(Get(next, "date"))
    ensures var link := CalendarLink(OpponentOf(next), DateOf(next), IsHome(next), parse, toIso, encode);
            link.None? <==> Truthy(Get(next, "date")) && WhenOf(next, parse).None?
  {
    assert Truthy(DateOf(next)) <==> Truthy(Get(next, "date"));
  }

  /** The calendar link, then the score box; a link that throws leaves the
      box as it was. */
  method PaintLink(panel: ScorePanel, next: Value, parse: string -> Option<int>,
                   toIso: int -> string, encode: string -> string)
    modifies panel
    ensures panel.nextLine == old(panel.nextLine) && panel.nextVenue == old(panel.nextVenue)
    ensures panel.countdownDate == old(panel.countdownDate)
    ensures CalendarLink(OpponentOf(next), DateOf(next), IsHome(next), parse, toIso, encode).None? ==>
              panel.dot == old(panel.dot) && panel.message == old(panel.message)
              && panel.calendarHref == old(panel.calendarHref)
    ensures CalendarLink(OpponentOf(next), DateOf(next), IsHome(next), parse, toIso, encode).Some? ==>
              var box := ScoreBoxOf(next, IsHome(next), OpponentOf(next));
              panel.dot == box.dot && panel.message == box.message
              && Some(panel.calendarHref) == CalendarLink(OpponentOf(next), DateOf(next), IsHome(next), parse, toIso, encode)
  {
    var href := CalendarLink(OpponentOf(next), DateOf(next), IsHome(next), parse, toIso, encode);
    if href.None? {
      return;
    }
    panel.ShowLink(href.value);
    var box := ScoreBoxOf(next, IsHome(next), OpponentOf(next));
    panel.ShowBox(box);
  }

  /** `paintNext()` of the production build, with next.json already fetched
      (`null` when missing), the date parser, `toISOString`,
      `encodeURIComponent` and `fmtDate` as parameters. A truthy date that is
      not valid makes the calendar link throw, after the next-game line was
      reset and before the score box is painted. */
  method PaintNext(panel: ScorePanel, next: Value, parse: string -> Option<int>,
                   toIso: int -> string, encode: string -> string, fmt: int -> string)
    modifies panel
    ensures !Truthy(next) ==>
              panel.dot == Red && panel.message == ResetBox.message && panel.nextLine == "No upcoming game found."
              && panel.nextVenue == "" && panel.calendarHref == "#" && panel.countdownDate.None?
    ensures Truthy(next) && Truthy(Get(next, "date")) && WhenOf(next, parse).None? ==>
              panel.dot == Red && panel.message == ResetBox.message && panel.nextLine == "No upcoming game found."
              && panel.nextVenue == "" && panel.calendarHref == "#" && panel.countdownDate.None?
    ensures Truthy(next) && !Truthy(Get(next, "date")) ==>
              var box := ScoreBoxOf(next, IsHome(next), OpponentOf(next));
              panel.dot == box.dot && panel.message == box.message
              && panel.nextLine == "No upcoming game found." && panel.nextVenue == ""
              && panel.calendarHref == "#" && panel.countdownDate.None?
    ensures Truthy(next) && WhenOf(next, parse).Some? ==>
              var box := ScoreBoxOf(next, IsHome(next), OpponentOf(next));
              panel.dot == box.dot && panel.message == box.message
              && panel.nextLine == NextLine(fmt(WhenOf(next, parse).value), IsHome(next), OpponentOf(next), Or(Get(next, "tv"), Str("")))
              && panel.nextVenue == Venue(next) && panel.countdownDate == WhenOf(next, parse)
              && Some(panel.calendarHref) == CalendarLink(OpponentOf(next), DateOf(next), IsHome(next), parse, toIso, encode)
              && panel.calendarHref != "#"
  {
    panel.Reset();
    if !Truthy(next) {
      panel.ShowNextLine("No upcoming game found.", "", None);
      return;
    }
    PaintGame(panel, next, parse, toIso, encode, fmt);
  }
}

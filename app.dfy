/** The schedule page of assets/js/app.mjs: the tolerant field readers over
    College Football Data records, the result and record counting, the score
    box dot, the countdown, and the choice of the game the top strip shows. */
module App {
  import opened Strs
  import opened Js
  import opened Sorting
  import opened Widgets

  // ---------- tolerant field readers ----------

  /** `pickIso(g)`: the first of `start_time`, `start_date`, `date`, `kickoff`
      that is neither null nor undefined, otherwise null. */
  function PickIso(g: Value): (r: Value)
    ensures !Nullish(Get(g, "start_time")) ==> r == Get(g, "start_time")
    ensures Nullish(Get(g, "start_time")) && !Nullish(Get(g, "start_date")) ==> r == Get(g, "start_date")
    ensures Nullish(Get(g, "start_time")) && Nullish(Get(g, "start_date")) && !Nullish(Get(g, "date")) ==>
              r == Get(g, "date")
    ensures Nullish(Get(g, "start_time")) && Nullish(Get(g, "start_date")) && Nullish(Get(g, "date")) ==>
              r == (if Nullish(Get(g, "kickoff")) then Null else Get(g, "kickoff"))
    ensures !r.Undefined?
  {
    Coalesce(Get(g, "start_time"), Coalesce(Get(g, "start_date"),
      Coalesce(Get(g, "date"), Coalesce(Get(g, "kickoff"), Null))))
  }

  /** `/^(TBA|TBD|N\/A)$/i.test(s)` */
  predicate IsTbaWord(s: string) {
    var t := ToLowerAscii(s);
    t == "tba" || t == "tbd" || t == "n/a"
  }

  predicate TimeAt(s: string, i: int) {
    0 <= i && i + 6 <= |s| && s[i] == 'T' && IsDigit(s[i + 1]) && IsDigit(s[i + 2])
    && s[i + 3] == ':' && IsDigit(s[i + 4]) && IsDigit(s[i + 5])
  }

  /** `/T\d{2}:\d{2}/.test(s)` */
  predicate HasTimeOfDay(s: string) {
    exists i | 0 <= i <= |s| :: TimeAt(s, i)
  }

  /** What `formatTimeLike` shows: "TBA", or an instant rendered by
      `toLocaleString` with or without the time of day. */
  datatype TimeLabel = Tba | Local(instant: int, withTime: bool)

  /** `formatTimeLike(iso)`; a date-only value is read at noon UTC. */
  function FormatTimeLike(iso: Value, parse: string -> Option<int>): TimeLabel {
    if !Truthy(iso) || IsTbaWord(ToStr(iso)) then Tba
    else
      var hasTime := HasTimeOfDay(ToStr(iso));
      var safeIso := if hasTime then iso else Str(ToStr(iso) + "T12:00:00Z");
      match DateValue(safeIso, parse)
      case None => Tba
      case Some(t) => Local(t, hasTime)
  }

  /** "TBA" exactly for an empty value, a TBA/TBD/N/A word in any case, or a
      value that does not parse; a date-only value is anchored at 12:00 UTC. */
  lemma FormatTimeLikeCases(iso: Value, parse: string -> Option<int>)
    ensures !Truthy(iso) || IsTbaWord(ToStr(iso)) ==> FormatTimeLike(iso, parse) == Tba
    ensures iso.Str? && iso.s != "" && !IsTbaWord(iso.s) && HasTimeOfDay(iso.s) ==>
              FormatTimeLike(iso, parse) == (if parse(iso.s).Some? then Local(parse(iso.s).value, true) else Tba)
    ensures iso.Str? && iso.s != "" && !IsTbaWord(iso.s) && !HasTimeOfDay(iso.s) ==>
              FormatTimeLike(iso, parse) ==
                (if parse(iso.s + "T12:00:00Z").Some? then Local(parse(iso.s + "T12:00:00Z").value, false) else Tba)
  {
  }

  /** "tbd" in upper, lower or mixed case is not a time. */
  lemma TbdAnyCase(parse: string -> Option<int>)
    ensures FormatTimeLike(Str("TBD"), parse) == Tba
    ensures FormatTimeLike(Str("tBa"), parse) == Tba
    ensures FormatTimeLike(Str("n/A"), parse) == Tba
  {
    assert ToLowerAscii("TBD") == "tbd";
    assert ToLowerAscii("tBa") == "tba";
    assert ToLowerAscii("n/A") == "n/a";
  }

  /** `teamName(x)`: `school`, `team` or `name` of a team object, the value
      itself otherwise, `""` for null. */
  function TeamName(x: Value): (r: Value)
    ensures !Nullish(r)
    ensures Nullish(x) ==> r == Str("")
    ensures !x.Obj? && !Nullish(x) ==> r == x
    ensures x.Obj? && !Nullish(Get(x, "school")) ==> r == Get(x, "school")
    ensures x.Obj? && Nullish(Get(x, "school")) && !Nullish(Get(x, "team")) ==> r == Get(x, "team")
    ensures x.Obj? && Nullish(Get(x, "school")) && Nullish(Get(x, "team")) && !Nullish(Get(x, "name")) ==>
              r == Get(x, "name")
    ensures x.Obj? && Nullish(Get(x, "school")) && Nullish(Get(x, "team")) && Nullish(Get(x, "name")) ==> r == x
  {
    Coalesce(Get(x, "school"), Coalesce(Get(x, "team"), Coalesce(Get(x, "name"), Coalesce(x, Str("")))))
  }

  function HomeTeam(g: Value): Value {
    TeamName(Coalesce(Get(g, "home_team"), Coalesce(Get(g, "homeTeam"), Get(g, "home"))))
  }

  function AwayTeam(g: Value): Value {
    TeamName(Coalesce(Get(g, "away_team"), Coalesce(Get(g, "awayTeam"), Get(g, "away"))))
  }

  /** `isNeutral(g)` */
  predicate IsNeutral(g: Value) {
    Truthy(Coalesce(Get(g, "neutral_site"), Coalesce(Get(g, "neutral"), Bool(false))))
  }

  /** `oppForUT(g)` */
  function OppForUT(g: Value): Value {
    var h := HomeTeam(g);
    var a := AwayTeam(g);
    if !Truthy(h) && !Truthy(a) then Str("")
    else if MentionsTennessee(h) then a
    else h
  }

  /** The opponent is the away team when the home team matches /tennessee/i,
      otherwise the home team, and `""` when both are empty; so when exactly
      one side is Tennessee, the result is the other side. */
  lemma OppForUTIsOpponent(g: Value)
    ensures !Truthy(HomeTeam(g)) && !Truthy(AwayTeam(g)) ==> OppForUT(g) == Str("")
    ensures Truthy(HomeTeam(g)) && MentionsTennessee(HomeTeam(g)) ==> OppForUT(g) == AwayTeam(g)
    ensures Truthy(HomeTeam(g)) && !MentionsTennessee(HomeTeam(g)) ==> OppForUT(g) == HomeTeam(g)
    ensures MentionsTennessee(AwayTeam(g)) && !MentionsTennessee(HomeTeam(g)) && Truthy(HomeTeam(g)) ==>
              !MentionsTennessee(OppForUT(g))
  {
  }

  /** `homeAway(g)` */
  function HomeAway(g: Value): string {
    var h := HomeTeam(g);
    if !Truthy(h) then (if IsNeutral(g) then "Neutral" else "—")
    else if MentionsTennessee(h) then "Home"
    else if IsNeutral(g) then "Neutral" else "Away"
  }

  /** Home on a home match; Neutral for a neutral site; an empty home team
      gives a dash unless neutral; Away otherwise. */
  lemma HomeAwayCases(g: Value)
    ensures HomeAway(g) in {"Home", "Away", "Neutral", "—"}
    ensures HomeAway(g) == "Home" <==> Truthy(HomeTeam(g)) && MentionsTennessee(HomeTeam(g))
    ensures HomeAway(g) == "—" <==> !Truthy(HomeTeam(g)) && !IsNeutral(g)
    ensures HomeAway(g) == "Away" <==> Truthy(HomeTeam(g)) && !MentionsTennessee(HomeTeam(g)) && !IsNeutral(g)
  {
  }

  /** `pickTV(g)` */
  function PickTV(g: Value): (r: Value)
    ensures !Nullish(r)
    ensures (Nullish(Get(g, "tv")) && Nullish(Get(g, "television")) && Nullish(Get(g, "broadcast"))) ==> r == Str("—")
    ensures !Nullish(Get(g, "tv")) ==> r == Get(g, "tv")
    ensures Nullish(Get(g, "tv")) && !Nullish(Get(g, "television")) ==> r == Get(g, "television")
    ensures Nullish(Get(g, "tv")) && Nullish(Get(g, "television")) && !Nullish(Get(g, "broadcast")) ==>
              r == Get(g, "broadcast")
  {
    Coalesce(Get(g, "tv"), Coalesce(Get(g, "television"), Coalesce(Get(g, "broadcast"), Str("—"))))
  }

  // ---------- results and the record ----------

  /** Tennessee's score and the opponent's, or `None` when neither score is present. */
  datatype Score = Score(ut: Value, opp: Value)

  function ScoreOf(g: Value): Option<Score> {
    var hp := Coalesce(Get(g, "home_points"), Get(g, "homePoints"));
    var ap := Coalesce(Get(g, "away_points"), Get(g, "awayPoints"));
    if Nullish(hp) && Nullish(ap) then None
    else
      var usAway := MentionsTennessee(Or(AwayTeam(g), Str("")));
      Some(if usAway then Score(ap, hp) else Score(hp, ap))
  }

  /** `ut > opp ? "W" : ut < opp ? "L" : "T"` */
  function Tag(sc: Score): string {
    if Less(sc.opp, sc.ut) then "W" else if Less(sc.ut, sc.opp) then "L" else "T"
  }

  /** The text of a scored row: tag, Tennessee's score, en dash, the opponent's. */
  function RowText(sc: Score): string {
    Tag(sc) + " " + ToStr(sc.ut) + "–" + ToStr(sc.opp)
  }

  /** `resultForRow(g)` */
  function ResultForRow(g: Value): string {
    match ScoreOf(g)
    case None => ""
    case Some(sc) => RowText(sc)
  }

  /** A scored row is the tag, a space, and Tennessee's score before the opponent's. */
  lemma RowTextShape(sc: Score)
    ensures var r := RowText(sc);
      |r| >= 2 && r[0] == Tag(sc)[0] && r[0] in "WLT" && r[1] == ' '
      && StartsWith(r[2..], ToStr(sc.ut) + "–")
  {
    var t := Tag(sc);
    var u := ToStr(sc.ut);
    var o := ToStr(sc.opp);
    SplitRow(t, u, o);
  }

  lemma SplitRow(t: string, u: string, o: string)
    requires t == "W" || t == "L" || t == "T"
    ensures var r := t + " " + u + "–" + o;
      |r| >= 2 && r[0] == t[0] && r[0] in "WLT" && r[1] == ' ' && StartsWith(r[2..], u + "–")
  {
    var r := t + " " + u + "–" + o;
    assert r == (t + " ") + (u + "–") + o;
    assert r[2..] == (u + "–") + o;
  }

  /** The row is empty exactly when both scores are absent. */
  lemma ResultForRowBlank(g: Value)
    ensures ResultForRow(g) == "" <==> ScoreOf(g).None?
  {
    if ScoreOf(g).Some? {
      RowTextShape(ScoreOf(g).value);
    }
  }

  /** With integer scores, W, L and T follow the scores. */
  lemma TagFollowsScore(x: int, y: int)
    ensures Tag(Score(Num(x), Num(y))) == (if x > y then "W" else if x < y then "L" else "T")
  {
    LessOnNumbers(x, y);
    LessOnNumbers(y, x);
  }

  /** Which side is Tennessee's: the away score when the away team matches /tennessee/i, else the home score. */
  lemma ScoreSides(g: Value)
    ensures var hp := Coalesce(Get(g, "home_points"), Get(g, "homePoints"));
      var ap := Coalesce(Get(g, "away_points"), Get(g, "awayPoints"));
      var usAway := MentionsTennessee(Or(AwayTeam(g), Str("")));
      && (ScoreOf(g).None? <==> Nullish(hp) && Nullish(ap))
      && (!(Nullish(hp) && Nullish(ap)) && usAway ==> ScoreOf(g) == Some(Score(ap, hp)))
      && (!(Nullish(hp) && Nullish(ap)) && !usAway ==> ScoreOf(g) == Some(Score(hp, ap)))
  {
  }

  function CountScored(sched: seq<Value>): nat {
    if sched == [] then 0 else CountScored(sched[..|sched| - 1]) + (if ScoreOf(sched[|sched| - 1]).Some? then 1 else 0)
  }

  /** The number of scored games whose tag is `tag`. */
  function CountTag(sched: seq<Value>, tag: string): nat {
    if sched == [] then 0
    else
      var g := sched[|sched| - 1];
      CountTag(sched[..|sched| - 1], tag) + (if ScoreOf(g).Some? && Tag(ScoreOf(g).value) == tag then 1 else 0)
  }

  /** Every scored game is exactly one of a win, a loss and a tie. */
  lemma {:induction false} RecordAddsUp(sched: seq<Value>)
    ensures CountTag(sched, "W") + CountTag(sched, "L") + CountTag(sched, "T") == CountScored(sched)
  {
    if sched != [] {
      RecordAddsUp(sched[..|sched| - 1]);
    }
  }

  /** The counts of `computeTeamStats(sched)`: wins, losses, ties and scored games. */
  method ComputeTeamStats(sched: seq<Value>) returns (w: nat, l: nat, t: nat, games: nat)
    ensures w == CountTag(sched, "W") && l == CountTag(sched, "L") && t == CountTag(sched, "T")
    ensures games == CountScored(sched)
    ensures w + l + t == games
  {
    w, l, t, games := 0, 0, 0, 0;
    var i := 0;
    while i < |sched|
      invariant 0 <= i <= |sched|
      invariant w == CountTag(sched[..i], "W") && l == CountTag(sched[..i], "L") && t == CountTag(sched[..i], "T")
      invariant games == CountScored(sched[..i])
    {
      assert sched[..i + 1][..i] == sched[..i];
      var g := sched[i];
      var sc := ScoreOf(g);
      if sc.Some? {
        games := games + 1;
        if Less(sc.value.opp, sc.value.ut) {
          w := w + 1;
        } else if Less(sc.value.ut, sc.value.opp) {
          l := l + 1;
        } else {
          t := t + 1;
        }
      }
      i := i + 1;
    }
    assert sched[..i] == sched;
    RecordAddsUp(sched);
  }

  // ---------- the score box dot ----------

  const HourMs: int := 3600 * 1000

  /** `dotForTiming(status, iso)` */
  function DotForTiming(status: Value, iso: Value, now: int, parse: string -> Option<int>): Dot {
    var s := ToLowerAscii(ToStr(Or(status, Str(""))));
    if Contains(s, "in progress") || Contains(s, "1st") || Contains(s, "2nd") || Contains(s, "3rd") || Contains(s, "4th")
    then Green
    else if Contains(s, "final") then Red
    else if Truthy(iso) && DateValue(iso, parse).Some? then
      var start := DateValue(iso, parse).value;
      if now >= start && now <= start + 5 * HourMs then Green
      else if start - now <= 72 * HourMs then Yellow
      else Red
    else Red
  }

  predicate LiveStatus(s: string) {
    Contains(s, "in progress") || Contains(s, "1st") || Contains(s, "2nd") || Contains(s, "3rd") || Contains(s, "4th")
  }

  /** The checks in order: a live status, then "final", then the five-hour
      game window, then any kickoff less than 72 hours away -- which also
      holds for every kickoff more than five hours in the past. */
  lemma DotForTimingOrder(status: Value, iso: Value, now: int, parse: string -> Option<int>)
    ensures var s := ToLowerAscii(ToStr(Or(status, Str(""))));
      LiveStatus(s) ==> DotForTiming(status, iso, now, parse) == Green
    ensures var s := ToLowerAscii(ToStr(Or(status, Str(""))));
      !LiveStatus(s) && Contains(s, "final") ==> DotForTiming(status, iso, now, parse) == Red
    ensures var s := ToLowerAscii(ToStr(Or(status, Str(""))));
      !LiveStatus(s) && !Contains(s, "final") && Truthy(iso) && DateValue(iso, parse).Some? ==>
        var start := DateValue(iso, parse).value;
        DotForTiming(status, iso, now, parse) ==
          (if start <= now <= start + 5 * HourMs then Green
           else if now < start + 5 * HourMs && start - now <= 72 * HourMs then Yellow
           else if now > start + 5 * HourMs then Yellow
           else Red)
    ensures !Truthy(iso) || DateValue(iso, parse).None? ==> DotForTiming(status, iso, now, parse) != Yellow
  {
  }

  // ---------- the countdown ----------

  /** `t0` after `setCountdownKickoff(iso)`: `None` is null or NaN. */
  function CountdownTarget(iso: Value, parse: string -> Option<int>): Option<int> {
    if Truthy(iso) then DateValue(iso, parse) else None
  }

  /** `tick()`: nothing when `t0` is falsy; otherwise days, hours, minutes and
      seconds left, each as the source pads it to two digits. */
  method Tick(t0: Option<int>, now: int) returns (clock: Option<Clock>, shown: seq<string>)
    ensures clock.None? <==> t0.None? || t0 == Some(0)
    ensures clock.None? ==> shown == []
    ensures clock.Some? ==> clock.value == ClockOf(SecondsLeft(t0.value, now)) && shown == Fields(clock.value)
  {
    if t0.None? || t0.value == 0 {
      return None, [];
    }
    var diff: nat := SecondsLeft(t0.value, now);
    var d := diff / 86400; diff := diff % 86400;
    var h := diff / 3600; diff := diff % 3600;
    var m := diff / 60;
    var s := diff % 60;
    clock := Some(Clock(d, h, m, s));
    shown := [PadStart2(NatToStr(d)), PadStart2(NatToStr(h)), PadStart2(NatToStr(m)), PadStart2(NatToStr(s))];
    ClockUnique(clock.value);
  }

  /** A kickoff in the past shows all zeros. */
  lemma CountdownClampsAtZero(t0: int, now: int)
    requires t0 <= now
    ensures SecondsLeft(t0, now) == 0
  {
  }

  // ---------- the top strip's game ----------

  /** The kickoff of a schedule row, whatever field carries it. */
  function StartOf(g: Value, parse: string -> Option<int>): Option<int> {
    DateValue(PickIso(g), parse)
  }

  /** `isFuture(iso)` */
  predicate IsFuture(g: Value, now: int, parse: string -> Option<int>) {
    Truthy(PickIso(g)) && StartOf(g, parse).Some? && StartOf(g, parse).value > now
  }

  function FutureGames(sched: seq<Value>, now: int, parse: string -> Option<int>): (r: seq<Value>)
    ensures forall x :: x in r <==> x in sched && IsFuture(x, now, parse)
  {
    if sched == [] then []
    else
      var rest := FutureGames(sched[1..], now, parse);
      assert forall x :: x in sched[1..] ==> x in sched;
      assert sched == [sched[0]] + sched[1..];
      if IsFuture(sched[0], now, parse) then [sched[0]] + rest else rest
  }

  function WithOpponent(gs: seq<Value>): (r: seq<Value>)
    ensures forall x :: x in r <==> x in gs && Truthy(OppForUT(x))
  {
    if gs == [] then []
    else
      var rest := WithOpponent(gs[1..]);
      assert gs == [gs[0]] + gs[1..];
      if Truthy(OppForUT(gs[0])) then [gs[0]] + rest else rest
  }

  /** The game with the earliest kickoff among `gs`, if any (`…sort(…)[0]`). */
  function Earliest(gs: seq<Value>, parse: string -> Option<int>): (r: Option<Value>)
    ensures r.None? <==> gs == []
    ensures r.Some? ==> r.value in gs
    ensures r.Some? && StartOf(r.value, parse).Some? ==>
              forall g :: g in gs && StartOf(g, parse).Some? ==> StartOf(r.value, parse).value <= StartOf(g, parse).value
  {
    EarliestBy(gs, (g: Value) => StartOf(g, parse))
  }

  /** The top strip's game: `ut_game.json` when it has an id; otherwise the
      next future game with a named opponent, otherwise the next future game;
      otherwise whatever `ut_game.json` held. */
  function TopStripGame(game: Value, sched: seq<Value>, now: int, parse: string -> Option<int>): Value {
    if Truthy(game) && Truthy(Get(game, "id")) then game
    else
      var future := FutureGames(sched, now, parse);
      match Earliest(WithOpponent(future), parse)
      case Some(g) => g
      case None =>
        match Earliest(future, parse)
        case Some(g) => g
        case None => game
  }

  /** The fallback picks the earliest future game that has an opponent, else the
      earliest future game; a game with an id is kept. */
  lemma TopStripGameChoice(game: Value, sched: seq<Value>, now: int, parse: string -> Option<int>)
    ensures Truthy(game) && Truthy(Get(game, "id")) ==> TopStripGame(game, sched, now, parse) == game
    ensures !(Truthy(game) && Truthy(Get(game, "id"))) && (exists g :: g in sched && IsFuture(g, now, parse)) ==>
      var c := TopStripGame(game, sched, now, parse);
      c in sched && IsFuture(c, now, parse)
      && ((exists g :: g in sched && IsFuture(g, now, parse) && Truthy(OppForUT(g))) ==>
            Truthy(OppForUT(c)) &&
            forall g :: g in sched && IsFuture(g, now, parse) && Truthy(OppForUT(g)) ==>
              StartOf(c, parse).value <= StartOf(g, parse).value)
      && ((forall g :: g in sched && IsFuture(g, now, parse) ==> !Truthy(OppForUT(g))) ==>
            forall g :: g in sched && IsFuture(g, now, parse) ==> StartOf(c, parse).value <= StartOf(g, parse).value)
    ensures !(Truthy(game) && Truthy(Get(game, "id"))) && (forall g :: g in sched ==> !IsFuture(g, now, parse)) ==>
      TopStripGame(game, sched, now, parse) == game
  {
    if !(Truthy(game) && Truthy(Get(game, "id"))) {
      if exists g :: g in sched && IsFuture(g, now, parse) && Truthy(OppForUT(g)) {
        TopStripNamed(game, sched, now, parse);
      } else if exists g :: g in sched && IsFuture(g, now, parse) {
        TopStripUnnamed(game, sched, now, parse);
      } else {
        TopStripNoFuture(game, sched, now, parse);
      }
    }
  }

  lemma TopStripNoFuture(game: Value, sched: seq<Value>, now: int, parse: string -> Option<int>)
    requires !(Truthy(game) && Truthy(Get(game, "id")))
    requires forall g :: g in sched ==> !IsFuture(g, now, parse)
    ensures TopStripGame(game, sched, now, parse) == game
  {
    var future := FutureGames(sched, now, parse);
    HeadIsMember(future);
    HeadIsMember(WithOpponent(future));
  }

  lemma TopStripNamed(game: Value, sched: seq<Value>, now: int, parse: string -> Option<int>)
    requires !(Truthy(game) && Truthy(Get(game, "id")))
    requires exists g :: g in sched && IsFuture(g, now, parse) && Truthy(OppForUT(g))
    ensures var c := TopStripGame(game, sched, now, parse);
      c in sched && IsFuture(c, now, parse) && Truthy(OppForUT(c))
      && forall g :: g in sched && IsFuture(g, now, parse) && Truthy(OppForUT(g)) ==>
           StartOf(c, parse).value <= StartOf(g, parse).value
  {
    var future := FutureGames(sched, now, parse);
    var g1 :| g1 in sched && IsFuture(g1, now, parse) && Truthy(OppForUT(g1));
    assert g1 in WithOpponent(future);
  }

  lemma TopStripUnnamed(game: Value, sched: seq<Value>, now: int, parse: string -> Option<int>)
    requires !(Truthy(game) && Truthy(Get(game, "id")))
    requires exists g :: g in sched && IsFuture(g, now, parse)
    requires forall g :: g in sched && IsFuture(g, now, parse) ==> !Truthy(OppForUT(g))
    ensures var c := TopStripGame(game, sched, now, parse);
      c in sched && IsFuture(c, now, parse)
      && forall g :: g in sched && IsFuture(g, now, parse) ==> StartOf(c, parse).value <= StartOf(g, parse).value
  {
    var future := FutureGames(sched, now, parse);
    var g0 :| g0 in sched && IsFuture(g0, now, parse);
    assert g0 in future;
    HeadIsMember(WithOpponent(future));
    assert WithOpponent(future) == [];
    var c := Earliest(future, parse).value;
    assert TopStripGame(game, sched, now, parse) == c;
    assert c in future;
  }

  /** A non-empty list has its first element as a member. */
  lemma HeadIsMember(s: seq<Value>)
    ensures s != [] ==> s[0] in s
  {
  }

  // ---------- the schedule table order ----------

  /** The comparator of the schedule table: by kickoff when both rows have
      one, otherwise by week (`None` is NaN). */
  function ScheduleCompare(a: Value, b: Value, parse: string -> Option<int>): Option<int> {
    if Truthy(PickIso(a)) && Truthy(PickIso(b)) then
      match (DateValue(PickIso(a), parse), DateValue(PickIso(b), parse))
      case (Some(x), Some(y)) => Some(x - y)
      case _ => None
    else
      match (ToNumber(Or(Get(a, "week"), Num(0))), ToNumber(Or(Get(b, "week"), Num(0))))
      case (Some(x), Some(y)) => Some(x - y)
      case _ => None
  }

  /** Swapping the rows negates the comparison, and NaN stays NaN. */
  lemma ScheduleCompareAntisymmetric(a: Value, b: Value, parse: string -> Option<int>)
    ensures ScheduleCompare(a, b, parse).Some? <==> ScheduleCompare(b, a, parse).Some?
    ensures ScheduleCompare(a, b, parse).Some? ==>
              ScheduleCompare(b, a, parse).value == -ScheduleCompare(a, b, parse).value
  {
  }

  /** The comparator is not a consistent order: three rows can each sort
      before the next in a cycle. */
  lemma ScheduleCompareCycles(parse: string -> Option<int>)
    requires parse("d1") == Some(1) && parse("d2") == Some(2)
    ensures var a := Obj(map["start_time" := Str("d2"), "week" := Num(1)]);
            var b := Obj(map["week" := Num(2)]);
            var c := Obj(map["start_time" := Str("d1"), "week" := Num(3)]);
            ScheduleCompare(a, b, parse).Some? && ScheduleCompare(a, b, parse).value < 0
            && ScheduleCompare(b, c, parse).Some? && ScheduleCompare(b, c, parse).value < 0
            && ScheduleCompare(c, a, parse).Some? && ScheduleCompare(c, a, parse).value < 0
  {
    var a := Obj(map["start_time" := Str("d2"), "week" := Num(1)]);
    var b := Obj(map["week" := Num(2)]);
    var c := Obj(map["start_time" := Str("d1"), "week" := Num(3)]);
    assert PickIso(a) == Str("d2") && PickIso(c) == Str("d1");
    assert PickIso(b) == Null;
  }
}

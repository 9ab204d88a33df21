/** The data pull of scripts/fetch-cfbd.mjs: normalizing College Football Data
    games, choosing the next and the last game, the iCalendar files, the
    retry rule for the HTTP client and the skip-if-unchanged file writes.

    The clock (`now`, the DTSTAMP instant), the date parser (`parse`) and
    `Date.prototype.toISOString` (`toIso`) are parameters. */
module FetchCfbd {
  import opened Strs
  import opened Js
  import opened Sorting
  import opened Stamps

  /** A game as written to data/ut_2025_schedule.json. */
  datatype Game = Game(
    id: Value,
    week: Value,
    startTime: Value,
    startDate: Value,
    homeTeam: Value,
    awayTeam: Value,
    homePoints: Value,
    awayPoints: Value,
    status: Value,
    tv: Value,
    venue: Value,
    neutralSite: bool)

  // ---------- normalizers ----------

  /** `pick(o, ...ks)`: the value of the first key whose value is neither
      null nor undefined; null when there is none. */
  function Pick(o: Value, ks: seq<string>): (r: Value)
    ensures (forall i :: 0 <= i < |ks| ==> Nullish(Get(o, ks[i]))) ==> r == Null
    ensures forall i :: (0 <= i < |ks| && ks[i] != "" && !Nullish(Get(o, ks[i])) &&
                         forall j :: 0 <= j < i ==> Nullish(Get(o, ks[j]))) ==> r == Get(o, ks[i])
    ensures r.Undefined? == false
  {
    var found := FindFirst(ks, k => !Nullish(Get(o, k)));
    // the found key itself is tested for truthiness
    if found.Some? && ks[found.value] != "" then Get(o, ks[found.value]) else Null
  }

  /** `pick` with no listed key present gives null, and an empty string counts as present. */
  lemma PickEmptyStringIsPresent(k: string)
    requires k != ""
    ensures Pick(Obj(map[k := Str("")]), [k, "other"]) == Str("")
    ensures Pick(Obj(map[]), [k, "other"]) == Null
  {
    var o := Obj(map[k := Str("")]);
    assert !Nullish(Get(o, [k, "other"][0]));
  }

  /** `String(iso).slice(0, 10)` */
  function Prefix10(s: string): string {
    if |s| <= 10 then s else s[..10]
  }

  /** `onlyDate(iso)` */
  function OnlyDate(iso: Value): Value {
    if Truthy(iso) then Str(Prefix10(ToStr(iso))) else Null
  }

  predicate TimeAt(s: string, i: int) {
    0 <= i && i + 6 <= |s| && s[i] == 'T' && IsDigit(s[i + 1]) && IsDigit(s[i + 2])
    && s[i + 3] == ':' && IsDigit(s[i + 4]) && IsDigit(s[i + 5])
  }

  /** `/T\d{2}:\d{2}/.test(s)` */
  predicate HasTimeOfDay(s: string) {
    exists i | 0 <= i <= |s| :: TimeAt(s, i)
  }

  const DateKeys: seq<string> :=
    ["start_time", "startTime", "start_date", "startDate", "date", "game_date", "gameDate"]

  /** The raw date value `normalizeGame` starts from. */
  function RawDate(g: Value): Value {
    Pick(g, DateKeys)
  }

  /** `normalizeGame(g)`; `g.id` on null throws, so the element must not be null. */
  function NormalizeGame(g: Value): (r: Game)
    requires !Nullish(g)
    ensures !r.startTime.Null? <==> Truthy(RawDate(g)) && HasTimeOfDay(ToStr(RawDate(g)))
    ensures r.startTime.Null? || r.startTime == RawDate(g)
    ensures !r.startTime.Null? ==> r.startDate == Str(Prefix10(ToStr(RawDate(g))))
    ensures r.startTime.Null? ==> r.startDate == (if Truthy(RawDate(g)) then Str(ToStr(RawDate(g))) else Null)
    ensures r.startDate.Null? || r.startDate.Str?
    ensures !Nullish(r.homeTeam) && !Nullish(r.awayTeam)
    ensures Pick(g, ["home_team", "homeTeam", "home"]).Null? ==> r.homeTeam == Str("")
    ensures !Pick(g, ["home_team", "homeTeam", "home"]).Null? ==> r.homeTeam == Pick(g, ["home_team", "homeTeam", "home"])
    ensures Pick(g, ["away_team", "awayTeam", "away"]).Null? ==> r.awayTeam == Str("")
    ensures !Pick(g, ["away_team", "awayTeam", "away"]).Null? ==> r.awayTeam == Pick(g, ["away_team", "awayTeam", "away"])
    ensures Nullish(Get(g, "id")) ==> r.id == Null
    ensures !Nullish(Get(g, "id")) ==> r.id == Get(g, "id")
    ensures Nullish(Get(g, "week")) ==> r.week == Null
    ensures !Nullish(Get(g, "week")) ==> r.week == Get(g, "week")
    ensures r.homePoints == Pick(g, ["home_points", "homePoints"])
    ensures r.awayPoints == Pick(g, ["away_points", "awayPoints"])
    ensures r.tv == Pick(g, ["tv", "television"])
    ensures Nullish(Get(g, "status")) ==> r.status == Null
    ensures !Nullish(Get(g, "status")) ==> r.status == Get(g, "status")
    ensures Nullish(Get(g, "venue")) ==> r.venue == Null
    ensures !Nullish(Get(g, "venue")) ==> r.venue == Get(g, "venue")
    ensures r.neutralSite <==> Truthy(Pick(g, ["neutral_site", "neutral"]))
  {
    var raw := RawDate(g);
    var hasTime := Truthy(raw) && HasTimeOfDay(ToStr(raw));
    Game(
      id := Coalesce(Get(g, "id"), Null),
      week := Coalesce(Get(g, "week"), Null),
      startTime := if hasTime then raw else Null,
      startDate := if hasTime then OnlyDate(raw) else if Truthy(raw) then Str(ToStr(raw)) else Null,
      homeTeam := Coalesce(Pick(g, ["home_team", "homeTeam", "home"]), Str("")),
      awayTeam := Coalesce(Pick(g, ["away_team", "awayTeam", "away"]), Str("")),
      homePoints := Coalesce(Pick(g, ["home_points", "homePoints"]), Null),
      awayPoints := Coalesce(Pick(g, ["away_points", "awayPoints"]), Null),
      status := Coalesce(Get(g, "status"), Null),
      tv := Coalesce(Pick(g, ["tv", "television"]), Null),
      venue := Coalesce(Get(g, "venue"), Null),
      neutralSite := Truthy(Pick(g, ["neutral_site", "neutral"])))
  }

  /** `kickoffIsoFromGame(g)`: the start time, else the start date at 16:00 UTC. */
  function KickoffIso(g: Game): (r: Value)
    ensures !Truthy(r) <==> !Truthy(g.startTime) && !Truthy(g.startDate)
    ensures Truthy(g.startTime) ==> r == g.startTime
    ensures !Truthy(g.startTime) && Truthy(g.startDate) ==> r == Str(ToStr(g.startDate) + "T16:00:00Z")
  {
    if Truthy(g.startTime) then g.startTime
    else if Truthy(g.startDate) then Str(ToStr(g.startDate) + "T16:00:00Z")
    else Null
  }

  /** Normalizing and then reading the kickoff back: a raw value with a time
      of day is the kickoff itself; a date-only value is read at 16:00 UTC. */
  lemma KickoffOfNormalized(g: Value)
    requires !Nullish(g)
    ensures var raw := RawDate(g);
            raw.Str? && HasTimeOfDay(raw.s) ==> KickoffIso(NormalizeGame(g)) == raw
    ensures var raw := RawDate(g);
            raw.Str? && raw.s != "" && !HasTimeOfDay(raw.s) ==>
              KickoffIso(NormalizeGame(g)) == Str(raw.s + "T16:00:00Z")
    ensures !Truthy(RawDate(g)) ==> !Truthy(KickoffIso(NormalizeGame(g)))
  {
    KickoffOfParts(NormalizeGame(g), RawDate(g));
  }

  /** The kickoff of a game whose start fields were derived from `raw` as `normalizeGame` does. */
  lemma KickoffOfParts(n: Game, raw: Value)
    requires !n.startTime.Null? <==> Truthy(raw) && HasTimeOfDay(ToStr(raw))
    requires n.startTime.Null? || n.startTime == raw
    requires n.startTime.Null? ==> n.startDate == (if Truthy(raw) then Str(ToStr(raw)) else Null)
    ensures raw.Str? && HasTimeOfDay(raw.s) ==> KickoffIso(n) == raw
    ensures raw.Str? && raw.s != "" && !HasTimeOfDay(raw.s) ==> KickoffIso(n) == Str(raw.s + "T16:00:00Z")
    ensures !Truthy(raw) ==> !Truthy(KickoffIso(n))
  {
    if raw.Str? && HasTimeOfDay(raw.s) {
      var i :| 0 <= i <= |raw.s| && TimeAt(raw.s, i);
      assert raw.s != "";
    }
  }

  /** The kickoff instant of a game, when it has one that parses. */
  function KickoffTime(g: Game, parse: string -> Option<int>): Option<int> {
    if Truthy(KickoffIso(g)) then DateValue(KickoffIso(g), parse) else None
  }

  // ---------- choosing the next and the last game ----------

  /** An element of `withTs`: the game and its timestamp (`None` is NaN). */
  datatype Stamped = Stamped(g: Game, t: Option<int>)

  /** `sched.map(g => ({g, t})).filter(x => x.t != null)`: games without a
      kickoff string are dropped, games whose kickoff does not parse stay with NaN. */
  function WithTimestamps(sched: seq<Game>, parse: string -> Option<int>): (r: seq<Stamped>)
    ensures forall x :: x in r ==> x.g in sched && Truthy(KickoffIso(x.g)) && x.t == KickoffTime(x.g, parse)
    ensures forall g :: g in sched && Truthy(KickoffIso(g)) ==> Stamped(g, KickoffTime(g, parse)) in r
  {
    if sched == [] then []
    else
      var g := sched[0];
      var rest := WithTimestamps(sched[1..], parse);
      if Truthy(KickoffIso(g)) then [Stamped(g, KickoffTime(g, parse))] + rest else rest
  }

  function StampKey(x: Stamped): Option<int> { x.t }

  predicate AfterNow(now: int, x: Stamped) { x.t.Some? && x.t.value > now }

  predicate AtOrBeforeNow(now: int, x: Stamped) { x.t.Some? && x.t.value <= now }

  /** Every kickoff string of the schedule parses: no NaN time reaches the
      comparator `a.t - b.t`, so the order of the sort is determined. */
  predicate KickoffsParse(sched: seq<Game>, parse: string -> Option<int>) {
    forall g :: g in sched && Truthy(KickoffIso(g)) ==> KickoffTime(g, parse).Some?
  }

  /** `withTs`: the timestamped games, in ascending kickoff order when every
      kickoff parses. */
  function SortedStamps(sched: seq<Game>, parse: string -> Option<int>): (r: seq<Stamped>)
    ensures KickoffsParse(sched, parse) ==> SortedOnDefined(r, StampKey)
    ensures multiset(r) == multiset(WithTimestamps(sched, parse))
    ensures forall x :: x in r <==> x in WithTimestamps(sched, parse)
  {
    var ts := WithTimestamps(sched, parse);
    SortByIsSorted(ts, StampKey);
    forall x ensures x in SortBy(ts, StampKey) <==> x in ts {
      SortBySameElements(ts, StampKey, x);
    }
    SortBy(ts, StampKey)
  }

  /** `withTs.find(x => x.t > now)` */
  function NextIndex(s: seq<Stamped>, now: int): (r: Option<nat>)
    ensures r.Some? ==> r.value < |s| && AfterNow(now, s[r.value])
    ensures r.Some? ==> forall j :: 0 <= j < r.value ==> !AfterNow(now, s[j])
    ensures r.None? ==> forall j :: 0 <= j < |s| ==> !AfterNow(now, s[j])
  {
    FindFirst(s, x => AfterNow(now, x))
  }

  /** `[...withTs].reverse().find(x => x.t <= now)` */
  function LastIndex(s: seq<Stamped>, now: int): (r: Option<nat>)
    ensures r.Some? ==> r.value < |s| && AtOrBeforeNow(now, s[r.value])
    ensures r.Some? ==> forall j :: r.value < j < |s| ==> !AtOrBeforeNow(now, s[j])
    ensures r.None? ==> forall j :: 0 <= j < |s| ==> !AtOrBeforeNow(now, s[j])
  {
    FindLast(s, x => AtOrBeforeNow(now, x))
  }

  /** `pickNextGame(sched)` */
  function PickNextGame(sched: seq<Game>, now: int, parse: string -> Option<int>): Option<Game> {
    var sorted := SortedStamps(sched, parse);
    match NextIndex(sorted, now)
    case Some(i) => Some(sorted[i].g)
    case None => None
  }

  /** `pickLastGame(sched)` */
  function PickLastGame(sched: seq<Game>, now: int, parse: string -> Option<int>): Option<Game> {
    var sorted := SortedStamps(sched, parse);
    match LastIndex(sorted, now)
    case Some(i) => Some(sorted[i].g)
    case None => None
  }

  /** A game with a kickoff after `now` has its stamped entry among the sorted ones. */
  lemma StampedEntryOf(sched: seq<Game>, parse: string -> Option<int>, g: Game)
    requires g in sched && KickoffTime(g, parse).Some?
    ensures exists j :: 0 <= j < |SortedStamps(sched, parse)| &&
                        SortedStamps(sched, parse)[j] == Stamped(g, KickoffTime(g, parse))
  {
    assert Truthy(KickoffIso(g));
    assert Stamped(g, KickoffTime(g, parse)) in SortedStamps(sched, parse);
  }

  /** The next game is a game with a kickoff strictly after `now`, and the
      earliest one when every kickoff parses; there is none exactly when no
      game has a kickoff after `now`. */
  lemma PickNextGameIsEarliestFuture(sched: seq<Game>, now: int, parse: string -> Option<int>)
    ensures PickNextGame(sched, now, parse).None? <==>
            forall g :: g in sched ==> !(KickoffTime(g, parse).Some? && KickoffTime(g, parse).value > now)
    ensures PickNextGame(sched, now, parse).Some? ==>
            var n := PickNextGame(sched, now, parse).value;
            n in sched && KickoffTime(n, parse).Some? && KickoffTime(n, parse).value > now
    ensures PickNextGame(sched, now, parse).Some? && KickoffsParse(sched, parse) ==>
            var n := PickNextGame(sched, now, parse).value;
            forall g :: g in sched && KickoffTime(g, parse).Some? && KickoffTime(g, parse).value > now ==>
              KickoffTime(n, parse).value <= KickoffTime(g, parse).value
  {
    var sorted := SortedStamps(sched, parse);
    match NextIndex(sorted, now)
    case None =>
      forall g | g in sched && KickoffTime(g, parse).Some?
        ensures KickoffTime(g, parse).value <= now
      {
        StampedEntryOf(sched, parse, g);
        var j :| 0 <= j < |sorted| && sorted[j] == Stamped(g, KickoffTime(g, parse));
        assert !AfterNow(now, sorted[j]);
      }
    case Some(i) =>
      assert sorted[i] in WithTimestamps(sched, parse);
      if KickoffsParse(sched, parse) {
        EarliestFutureStamp(sched, now, parse, i);
      }
  }

  lemma EarliestFutureStamp(sched: seq<Game>, now: int, parse: string -> Option<int>, i: nat)
    requires KickoffsParse(sched, parse)
    requires NextIndex(SortedStamps(sched, parse), now) == Some(i)
    ensures forall g :: g in sched && KickoffTime(g, parse).Some? && KickoffTime(g, parse).value > now ==>
              SortedStamps(sched, parse)[i].t.value <= KickoffTime(g, parse).value
  {
    var sorted := SortedStamps(sched, parse);
    forall g | g in sched && KickoffTime(g, parse).Some? && KickoffTime(g, parse).value > now
      ensures sorted[i].t.value <= KickoffTime(g, parse).value
    {
      StampedEntryOf(sched, parse, g);
      var j :| 0 <= j < |sorted| && sorted[j] == Stamped(g, KickoffTime(g, parse));
      assert AfterNow(now, sorted[j]);
      assert i <= j;
      SortedAt(sorted, StampKey, i, j);
    }
  }

  /** The last game is a game with a kickoff at or before `now`, and the
      latest one when every kickoff parses; there is none exactly when no game
      has a kickoff at or before `now`. */
  lemma PickLastGameIsLatestPast(sched: seq<Game>, now: int, parse: string -> Option<int>)
    ensures PickLastGame(sched, now, parse).None? <==>
            forall g :: g in sched ==> !(KickoffTime(g, parse).Some? && KickoffTime(g, parse).value <= now)
    ensures PickLastGame(sched, now, parse).Some? ==>
            var l := PickLastGame(sched, now, parse).value;
            l in sched && KickoffTime(l, parse).Some? && KickoffTime(l, parse).value <= now
    ensures PickLastGame(sched, now, parse).Some? && KickoffsParse(sched, parse) ==>
            var l := PickLastGame(sched, now, parse).value;
            forall g :: g in sched && KickoffTime(g, parse).Some? && KickoffTime(g, parse).value <= now ==>
              KickoffTime(g, parse).value <= KickoffTime(l, parse).value
  {
    var sorted := SortedStamps(sched, parse);
    match LastIndex(sorted, now)
    case None =>
      NoPastKickoff(sched, now, parse);
    case Some(i) =>
      assert sorted[i] in WithTimestamps(sched, parse);
      if KickoffsParse(sched, parse) {
        LatestPastKickoff(sched, now, parse, i);
      }
  }

  lemma NoPastKickoff(sched: seq<Game>, now: int, parse: string -> Option<int>)
    requires LastIndex(SortedStamps(sched, parse), now).None?
    ensures forall g :: g in sched && KickoffTime(g, parse).Some? ==> KickoffTime(g, parse).value > now
  {
    var sorted := SortedStamps(sched, parse);
    forall g | g in sched && KickoffTime(g, parse).Some?
      ensures KickoffTime(g, parse).value > now
    {
      StampedEntryOf(sched, parse, g);
      var j :| 0 <= j < |sorted| && sorted[j] == Stamped(g, KickoffTime(g, parse));
      assert !AtOrBeforeNow(now, sorted[j]);
    }
  }

  lemma LatestPastKickoff(sched: seq<Game>, now: int, parse: string -> Option<int>, i: nat)
    requires KickoffsParse(sched, parse)
    requires LastIndex(SortedStamps(sched, parse), now) == Some(i)
    ensures i < |SortedStamps(sched, parse)| && SortedStamps(sched, parse)[i].t.Some?
    ensures forall g :: g in sched && KickoffTime(g, parse).Some? && KickoffTime(g, parse).value <= now ==>
              KickoffTime(g, parse).value <= SortedStamps(sched, parse)[i].t.value
  {
    var sorted := SortedStamps(sched, parse);
    assert sorted[i] in WithTimestamps(sched, parse);
    forall g | g in sched && KickoffTime(g, parse).Some? && KickoffTime(g, parse).value <= now
      ensures KickoffTime(g, parse).value <= sorted[i].t.value
    {
      StampedEntryOf(sched, parse, g);
      var j :| 0 <= j < |sorted| && sorted[j] == Stamped(g, KickoffTime(g, parse));
      assert AtOrBeforeNow(now, sorted[j]);
      assert j <= i;
      SortedAt(sorted, StampKey, j, i);
    }
  }

  /** For one `now`, the next game and the last game are never the same game. */
  lemma NextAndLastDiffer(sched: seq<Game>, now: int, parse: string -> Option<int>)
    requires PickNextGame(sched, now, parse).Some? && PickLastGame(sched, now, parse).Some?
    ensures PickNextGame(sched, now, parse).value != PickLastGame(sched, now, parse).value
  {
    PickNextGameIsEarliestFuture(sched, now, parse);
    PickLastGameIsLatestPast(sched, now, parse);
  }

  // ---------- the schedule sort in main ----------

  const Sentinel: string := "2100-01-01T00:00:00Z"
  /** 2100-01-01T00:00:00Z in milliseconds since the epoch */
  const SentinelMs: int := 4102444800000

  /** The sort key of main's comparator: the kickoff, or the 2100 sentinel. */
  function ScheduleKey(parse: string -> Option<int>, g: Game): Option<int> {
    DateValue(Or(KickoffIso(g), Str(Sentinel)), parse)
  }

  function NormalizeAll(raw: seq<Value>): (r: seq<Game>)
    requires forall i :: 0 <= i < |raw| ==> !Nullish(raw[i])
    ensures |r| == |raw| && forall i :: 0 <= i < |raw| ==> r[i] == NormalizeGame(raw[i])
  {
    seq(|raw|, i requires 0 <= i < |raw| => NormalizeGame(raw[i]))
  }

  /** `sched.sort(...)` in main: the same games, ascending by `ScheduleKey`
      when every key is a number. */
  function SortSchedule(games: seq<Game>, parse: string -> Option<int>): (r: seq<Game>)
    ensures multiset(r) == multiset(games)
    ensures (forall g :: g in games ==> ScheduleKey(parse, g).Some?) ==>
              forall i, j :: 0 <= i < j < |r| ==>
                ScheduleKey(parse, r[i]).Some? && ScheduleKey(parse, r[j]).Some?
                && ScheduleKey(parse, r[i]).value <= ScheduleKey(parse, r[j]).value
  {
    var key := (g: Game) => ScheduleKey(parse, g);
    SortByIsSorted(games, key);
    forall x ensures x in SortBy(games, key) <==> x in games {
      SortBySameElements(games, key, x);
    }
    SortBy(games, key)
  }

  /** The schedule main writes: a non-empty array of games is normalized and
      sorted by kickoff; anything else yields no schedule. `None` is a null
      element, on which `normalizeGame` throws and the run exits with 1. */
  function BuildSchedule(rawSched: Value, parse: string -> Option<int>): (r: Option<seq<Game>>)
    ensures r.None? <==> rawSched.Arr? && exists i :: 0 <= i < |rawSched.elems| && Nullish(rawSched.elems[i])
    ensures r.Some? && rawSched.Arr? ==>
      multiset(r.value) == multiset(NormalizeAll(rawSched.elems))
    ensures r.Some? && !rawSched.Arr? ==> r.value == []
  {
    if !rawSched.Arr? || |rawSched.elems| == 0 then Some([])
    else if exists i :: 0 <= i < |rawSched.elems| && Nullish(rawSched.elems[i]) then None
    else Some(SortSchedule(NormalizeAll(rawSched.elems), parse))
  }

  /** When every dated kickoff parses to an instant before 2100, the schedule
      lists every dated game before every undated one. */
  lemma ScheduleUndatedLast(rawSched: Value, parse: string -> Option<int>)
    requires parse(Sentinel) == Some(SentinelMs)
    requires BuildSchedule(rawSched, parse).Some?
    requires forall g :: g in BuildSchedule(rawSched, parse).value && Truthy(KickoffIso(g)) ==>
               KickoffTime(g, parse).Some? && KickoffTime(g, parse).value < SentinelMs
    ensures var s := BuildSchedule(rawSched, parse).value;
            forall i, j :: 0 <= i < j < |s| && Truthy(KickoffIso(s[j])) ==> Truthy(KickoffIso(s[i]))
  {
    var s := BuildSchedule(rawSched, parse).value;
    if rawSched.Arr? && |rawSched.elems| > 0 {
      var games := NormalizeAll(rawSched.elems);
      assert s == SortSchedule(games, parse);
      forall g | g in games ensures ScheduleKey(parse, g).Some? {
        assert g in multiset(s);
        ScheduleKeyOf(g, parse);
      }
    }
    forall i, j | 0 <= i < j < |s| && Truthy(KickoffIso(s[j]))
      ensures Truthy(KickoffIso(s[i]))
    {
      assert s[j] in s;
      ScheduleKeyOf(s[i], parse);
      ScheduleKeyOf(s[j], parse);
    }
  }

  lemma ScheduleKeyOf(g: Game, parse: string -> Option<int>)
    requires parse(Sentinel) == Some(SentinelMs)
    ensures Truthy(KickoffIso(g)) ==> ScheduleKey(parse, g) == KickoffTime(g, parse)
    ensures !Truthy(KickoffIso(g)) ==> ScheduleKey(parse, g) == Some(SentinelMs)
  {
  }

  // ---------- iCalendar text ----------

  /** The character map of `icsEsc`: backslash before `,` and `;`, newline as `\n`. */
  function IcsEscChar(c: char): string {
    if c == ',' || c == ';' then ['\\', c] else if c == '\n' then "\\n" else [c]
  }

  /** `icsEsc(s)`, as written: two global replacements one after the other. */
  function IcsEsc(v: Value): string {
    var s := ToStr(Or(v, Str("")));
    ReplaceChar(FlatMap(s, c => if c == ',' || c == ';' then ['\\', c] else [c]), '\n', "\\n")
  }

  /** The two replacements amount to one character map: commas and semicolons
      gain a backslash, newlines become backslash-n, nothing else changes. */
  lemma IcsEscIsCharMap(v: Value)
    ensures IcsEsc(v) == FlatMap(ToStr(Or(v, Str(""))), IcsEscChar)
  {
    var s := ToStr(Or(v, Str("")));
    var f := (c: char) => if c == ',' || c == ';' then ['\\', c] else [c];
    var g := (x: char) => if x == '\n' then "\\n" else [x];
    FlatMapCompose(s, f, g);
    forall c ensures FlatMap(f(c), g) == IcsEscChar(c) {
      IcsEscCharSteps(c, f(c), g);
    }
    CharMapsAgree(s, c => FlatMap(f(c), g), IcsEscChar);
  }

  lemma IcsEscCharSteps(c: char, fc: string, g: char -> string)
    requires fc == if c == ',' || c == ';' then ['\\', c] else [c]
    requires forall x :: g(x) == if x == '\n' then "\\n" else [x]
    ensures FlatMap(fc, g) == IcsEscChar(c)
  {
    if c == ',' || c == ';' {
      assert fc[1..] == [c] && [c][1..] == [];
      assert FlatMap([c], g) == g(c) + FlatMap([], g) == [c];
      assert FlatMap(fc, g) == g('\\') + FlatMap([c], g);
    } else {
      assert fc[1..] == [];
      assert FlatMap(fc, g) == g(c) + FlatMap([], g);
    }
  }

  /** Reading RFC 5545 TEXT back: `\,` `\;` and `\n` decode, everything else is literal. */
  function IcsUnescape(s: string): string
    decreases |s|
  {
    if |s| >= 2 && s[0] == '\\' && (s[1] == ',' || s[1] == ';') then [s[1]] + IcsUnescape(s[2..])
    else if |s| >= 2 && s[0] == '\\' && s[1] == 'n' then "\n" + IcsUnescape(s[2..])
    else if s == [] then ""
    else [s[0]] + IcsUnescape(s[1..])
  }

  /** Text without backslashes survives escaping and unescaping unchanged. */
  lemma {:induction false} IcsEscRoundTrip(s: string)
    requires forall i :: 0 <= i < |s| ==> s[i] != '\\'
    ensures IcsUnescape(FlatMap(s, IcsEscChar)) == s
    decreases |s|
  {
    if s != [] {
      IcsEscRoundTrip(s[1..]);
      var rest := FlatMap(s[1..], IcsEscChar);
      if |rest| > 0 && s[0] != ',' && s[0] != ';' && s[0] != '\n' {
        assert FlatMap(s, IcsEscChar) == [s[0]] + rest;
      }
      assert s == [s[0]] + s[1..];
    }
  }

  /** Backslashes are not escaped, so wherever a text holds a backslash followed
      by `n`, the text with a newline there instead escapes to the same thing. */
  lemma IcsEscConflatesBackslash(a: string, b: string)
    ensures IcsEsc(Str(a + "\\n" + b)) == IcsEsc(Str(a + "\n" + b))
  {
    var x := a + "\\n" + b;
    var y := a + "\n" + b;
    IcsEscIsCharMap(Str(x));
    IcsEscIsCharMap(Str(y));
    assert x != [] && y != [];
    FlatMapConcat(a + "\\n", b, IcsEscChar);
    FlatMapConcat(a, "\\n", IcsEscChar);
    FlatMapConcat(a + "\n", b, IcsEscChar);
    FlatMapConcat(a, "\n", IcsEscChar);
    BackslashNAsNewline();
  }

  lemma BackslashNAsNewline()
    ensures FlatMap("\\n", IcsEscChar) == FlatMap("\n", IcsEscChar)
  {
    assert "\\n"[1..] == "n" && "n"[1..] == [];
    assert "\n"[1..] == [];
  }

  /** Escaped text never holds a line feed, so it cannot break a content line. */
  lemma {:induction false} IcsEscNoLineFeed(s: string)
    ensures forall i :: 0 <= i < |FlatMap(s, IcsEscChar)| ==> FlatMap(s, IcsEscChar)[i] != '\n'
    decreases |s|
  {
    if s != [] { IcsEscNoLineFeed(s[1..]); }
  }

  /** `icsStamp`: `String(iso).replace(/[-:]|\.\d{3}/g, "")`, scanning left to right. */
  function StripStamp(s: string): string
    decreases |s|
  {
    if s == [] then []
    else if s[0] == '-' || s[0] == ':' then StripStamp(s[1..])
    else if s[0] == '.' && |s| >= 4 && AllDigits(s[1..4]) then StripStamp(s[4..])
    else [s[0]] + StripStamp(s[1..])
  }

  function IcsStamp(iso: Value): string {
    StripStamp(ToStr(iso))
  }

  /** Characters `icsStamp` never removes on their own. */
  predicate Plain(c: char) { c != '-' && c != ':' && c != '.' }

  lemma {:induction false} StripKeepsPlain(p: string, rest: string)
    requires forall i :: 0 <= i < |p| ==> Plain(p[i])
    ensures StripStamp(p + rest) == p + StripStamp(rest)
    decreases |p|
  {
    if p == [] {
      assert p + rest == rest;
    } else {
      assert p == [p[0]] + p[1..];
      assert (p + rest)[0] == p[0];
      assert (p + rest)[1..] == p[1..] + rest;
      StripKeepsPlain(p[1..], rest);
    }
  }

  /** From position `i`, `icsStamp` keeps the plain run up to `j` and drops the separator there. */
  lemma StripRunThenSeparator(u: string, i: int, j: int)
    requires 0 <= i <= j < |u| && (u[j] == '-' || u[j] == ':')
    requires forall k :: i <= k < j ==> Plain(u[k])
    ensures StripStamp(u[i..]) == u[i..j] + StripStamp(u[j + 1..])
  {
    assert u[i..] == u[i..j] + u[j..];
    StripKeepsPlain(u[i..j], u[j..]);
    assert u[j..][1..] == u[j + 1..];
  }

  /** `icsStamp` turns every `toISOString` result into the basic UTC form,
      dropping the milliseconds. */
  lemma IcsStampOfIso(u: string)
    requires IsoShaped(u)
    ensures StripStamp(u) == BasicForm(u)
    ensures BasicUtcDateTime(StripStamp(u))
  {
    IsoPlainRuns(u);
    assert u[0..] == u;
    StripRunThenSeparator(u, 0, 4);
    StripRunThenSeparator(u, 5, 7);
    StripRunThenSeparator(u, 8, 13);
    StripRunThenSeparator(u, 14, 16);
    assert u[17..] == u[17..19] + u[19..];
    StripKeepsPlain(u[17..19], u[19..]);
    assert AllDigits(u[19..][1..4]) by {
      forall k | 0 <= k < 3 ensures IsDigit(u[19..][1..4][k]) { assert u[19..][1..4][k] == u[20 + k]; }
    }
    StripFraction(u[19..]);
    BasicFormRuns(u, "Z");
    BasicFormShape(u);
  }

  /** Outside the four separators and the fraction, a `toISOString` result is plain. */
  lemma IsoPlainRuns(u: string)
    requires IsoShaped(u)
    ensures forall k :: 0 <= k < 19 && k != 4 && k != 7 && k != 13 && k != 16 ==> Plain(u[k])
  {
    forall k | 0 <= k < 19 && k != 4 && k != 7 && k != 13 && k != 16 ensures Plain(u[k]) {
      if k != 10 { assert IsDigit(u[k]); }
    }
  }

  /** The `.sss` fraction is dropped and the zone designator kept. */
  lemma StripFraction(f: string)
    requires |f| == 5 && f[0] == '.' && AllDigits(f[1..4]) && f[4] == 'Z'
    ensures StripStamp(f) == "Z"
  {
    assert f[4..] == "Z";
    assert StripStamp("Z"[1..]) == [];
  }

  /** The calendar outcome of `icsForGame`: null without a kickoff; the
      RangeError `toISOString` throws on an invalid date; or the text. */
  datatype GameIcs = NoKickoff | InvalidDate | Calendar(text: string)

  /** The opponent named in SUMMARY. */
  function IcsOpponent(g: Game): Value {
    Or(if MentionsTennessee(Or(g.homeTeam, Str(""))) then g.awayTeam else g.homeTeam, Str("Opponent"))
  }

  /** `UID:ut-${g.id ?? `${g.week}-${icsStamp(iso)}`}@gameday-hub` */
  function UidLine(g: Game): string {
    "UID:ut-" + (if Nullish(g.id) then ToStr(g.week) + "-" + IcsStamp(KickoffIso(g)) else ToStr(g.id)) + "@gameday-hub"
  }

  /** The entries of `icsForGame`'s array literal before LOCATION. */
  function IcsHeadLines(g: Game, start: int, stampIso: string, toIso: int -> string): seq<string> {
    CalendarHeader +
    [ "BEGIN:VEVENT",
      UidLine(g),
      "DTSTAMP:" + StripStamp(stampIso),
      "DTSTART:" + StripStamp(toIso(start)),
      "DTEND:" + StripStamp(toIso(start + ThreeHoursMs)),
      "SUMMARY:" + IcsEsc(Str("Tennessee vs " + ToStr(IcsOpponent(g)))) ]
  }

  /** The LOCATION entry: null without a venue. */
  function LocationEntry(g: Game): Value {
    if Truthy(g.venue) then Str("LOCATION:" + IcsEsc(g.venue)) else Null
  }

  const Description: string := "Unofficial Gameday Hub"

  /** `icsEsc("Unofficial Gameday Hub")` is the text itself. */
  lemma DescriptionNeedsNoEscape()
    ensures IcsEsc(Str(Description)) == Description
  {
    PlainTextUnescaped(Description);
  }

  /** Text without `,`, `;` or newline is not changed by `icsEsc`. */
  lemma PlainTextUnescaped(s: string)
    requires s != "" && forall i :: 0 <= i < |s| ==> s[i] != ',' && s[i] != ';' && s[i] != '\n'
    ensures IcsEsc(Str(s)) == s
  {
    IcsEscIsCharMap(Str(s));
    NoSeparatorsUnchanged(s);
  }

  /** The entries after LOCATION, before the final `""`; the DESCRIPTION text
      is written out, as `DescriptionNeedsNoEscape` shows `icsEsc` leaves it. */
  function IcsTailLines(): seq<string> {
    ["DESCRIPTION:" + Description, "END:VEVENT", "END:VCALENDAR"]
  }

  function StrValues(ls: seq<string>): seq<Value> {
    seq(|ls|, i requires 0 <= i < |ls| => Str(ls[i]))
  }

  /** The array literal of `icsForGame`, before `filter(Boolean)`. */
  function IcsEntries(g: Game, start: int, stampIso: string, toIso: int -> string): seq<Value> {
    StrValues(IcsHeadLines(g, start, stampIso, toIso)) + [LocationEntry(g)] + StrValues(IcsTailLines()) + [Str("")]
  }

  /** `.filter(Boolean)` over an array of strings and nulls. */
  function KeepTruthy(vs: seq<Value>): seq<string> {
    if vs == [] then []
    else (if Truthy(vs[0]) then [ToStr(vs[0])] else []) + KeepTruthy(vs[1..])
  }

  /** The content lines of one game's calendar. */
  function IcsLines(g: Game, start: int, stampIso: string, toIso: int -> string): seq<string> {
    KeepTruthy(IcsEntries(g, start, stampIso, toIso))
  }

  /** `icsForGame(g)` */
  function IcsForGame(g: Game, stampIso: string, parse: string -> Option<int>, toIso: int -> string): GameIcs {
    var iso := KickoffIso(g);
    if !Truthy(iso) then NoKickoff
    else match DateValue(iso, parse)
      case None => InvalidDate
      case Some(start) => Calendar(Join(IcsLines(g, start, stampIso, toIso), CRLF))
  }

  /** `icsForGame` returns null exactly when the game has neither a start time
      nor a start date, and throws exactly when the kickoff does not parse. */
  lemma IcsForGameNullIffNoKickoff(g: Game, stampIso: string, parse: string -> Option<int>, toIso: int -> string)
    ensures IcsForGame(g, stampIso, parse, toIso).NoKickoff? <==> !Truthy(g.startTime) && !Truthy(g.startDate)
    ensures IcsForGame(g, stampIso, parse, toIso).InvalidDate? <==>
            Truthy(KickoffIso(g)) && DateValue(KickoffIso(g), parse).None?
  {
  }

  lemma {:induction false} KeepTruthyConcat(a: seq<Value>, b: seq<Value>)
    ensures KeepTruthy(a + b) == KeepTruthy(a) + KeepTruthy(b)
    decreases |a|
  {
    if a == [] {
      assert a + b == b;
    } else {
      assert a == [a[0]] + a[1..];
      assert (a + b)[0] == a[0];
      assert (a + b)[1..] == a[1..] + b;
      KeepTruthyConcat(a[1..], b);
    }
  }

  lemma {:induction false} KeepTruthyOfStrValues(ls: seq<string>)
    requires forall i :: 0 <= i < |ls| ==> ls[i] != ""
    ensures KeepTruthy(StrValues(ls)) == ls
    decreases |ls|
  {
    if ls != [] {
      assert StrValues(ls)[1..] == StrValues(ls[1..]);
      KeepTruthyOfStrValues(ls[1..]);
      assert ls == [ls[0]] + ls[1..];
    }
  }

  /** The LOCATION line, when there is one. */
  function LocationLines(g: Game): seq<string> {
    if Truthy(g.venue) then ["LOCATION:" + IcsEsc(g.venue)] else []
  }

  /** `filter(Boolean)` drops the null LOCATION and the final `""`, and nothing else. */
  lemma IcsLinesParts(g: Game, start: int, stampIso: string, toIso: int -> string)
    ensures IcsLines(g, start, stampIso, toIso) ==
            IcsHeadLines(g, start, stampIso, toIso) + LocationLines(g) + IcsTailLines()
  {
    var h := IcsHeadLines(g, start, stampIso, toIso);
    var t := IcsTailLines();
    HeadLinesNonEmpty(g, start, stampIso, toIso);
    assert forall i :: 0 <= i < |t| ==> |t[i]| > 0;
    KeepAround(h, LocationEntry(g), t);
    assert KeepTruthy([LocationEntry(g)]) == LocationLines(g);
  }

  lemma HeadLinesNonEmpty(g: Game, start: int, stampIso: string, toIso: int -> string)
    ensures forall i :: 0 <= i < |IcsHeadLines(g, start, stampIso, toIso)| ==> |IcsHeadLines(g, start, stampIso, toIso)[i]| > 0
  {
    HeadLinesFacts(g, start, stampIso, toIso);
  }

  /** Filtering non-empty strings around one entry keeps them all. */
  lemma KeepAround(h: seq<string>, loc: Value, t: seq<string>)
    requires forall i :: 0 <= i < |h| ==> |h[i]| > 0
    requires forall i :: 0 <= i < |t| ==> |t[i]| > 0
    ensures KeepTruthy(StrValues(h) + [loc] + StrValues(t) + [Str("")]) == h + KeepTruthy([loc]) + t
  {
    KeepTruthyConcat(StrValues(h) + [loc] + StrValues(t), [Str("")]);
    KeepTruthyConcat(StrValues(h) + [loc], StrValues(t));
    KeepTruthyConcat(StrValues(h), [loc]);
    KeepTruthyOfStrValues(h);
    KeepTruthyOfStrValues(t);
    assert KeepTruthy([Str("")]) == [];
  }

  /** One game's calendar: the five VCALENDAR header lines, then the VEVENT
      block, then `END:VCALENDAR`; DTEND is three hours after DTSTART, and a
      LOCATION line is present exactly when the game has a venue. */
  lemma IcsLinesShape(g: Game, start: int, stampIso: string, toIso: int -> string)
    ensures |IcsLines(g, start, stampIso, toIso)| == (if Truthy(g.venue) then 15 else 14)
    ensures IcsLines(g, start, stampIso, toIso)[..5] == CalendarHeader
    ensures IcsLines(g, start, stampIso, toIso)[5] == "BEGIN:VEVENT"
    ensures IcsLines(g, start, stampIso, toIso)[8] == "DTSTART:" + StripStamp(toIso(start))
    ensures IcsLines(g, start, stampIso, toIso)[9] == "DTEND:" + StripStamp(toIso(start + ThreeHoursMs))
    ensures var ls := IcsLines(g, start, stampIso, toIso); ls[|ls| - 2] == "END:VEVENT"
    ensures var ls := IcsLines(g, start, stampIso, toIso); ls[|ls| - 1] == "END:VCALENDAR"
    ensures var ls := IcsLines(g, start, stampIso, toIso);
      (exists k :: 0 <= k < |ls| && StartsWith(ls[k], "LOCATION:")) <==> Truthy(g.venue)
    ensures Truthy(g.venue) ==> IcsLines(g, start, stampIso, toIso)[11] == "LOCATION:" + IcsEsc(g.venue)
  {
    IcsLinesParts(g, start, stampIso, toIso);
    HeadLinesFacts(g, start, stampIso, toIso);
    TailLinesFacts();
    var loc := LocationLines(g);
    PartsShape(IcsHeadLines(g, start, stampIso, toIso), loc, IcsTailLines(), "LOCATION:");
    if Truthy(g.venue) {
      PrefixStartsWith("LOCATION:", IcsEsc(g.venue));
    }
  }

  lemma PrefixStartsWith(p: string, x: string)
    ensures StartsWith(p + x, p)
  {
    assert (p + x)[..|p|] == p;
  }

  /** What the lines before LOCATION are, as far as the shape of the calendar goes. */
  lemma HeadLinesFacts(g: Game, start: int, stampIso: string, toIso: int -> string)
    ensures var h := IcsHeadLines(g, start, stampIso, toIso);
      |h| == 11 && h[..5] == CalendarHeader && h[5] == "BEGIN:VEVENT"
      && h[8] == "DTSTART:" + StripStamp(toIso(start))
      && h[9] == "DTEND:" + StripStamp(toIso(start + ThreeHoursMs))
      && forall k :: 0 <= k < 11 ==> h[k] != [] && h[k][0] != 'L'
  {
  }

  /** What the closing lines are. */
  lemma TailLinesFacts()
    ensures var t := IcsTailLines();
      |t| == 3 && t[1] == "END:VEVENT" && t[2] == "END:VCALENDAR"
      && forall k :: 0 <= k < 3 ==> t[k] != [] && t[k][0] != 'L'
  {
  }

  /** Head lines, at most one middle line and three closing lines, laid end to
      end; only the middle line can start with `p`. */
  lemma PartsShape(h: seq<string>, loc: seq<string>, t: seq<string>, p: string)
    requires |h| == 11 && |loc| <= 1 && |t| == 3 && p != []
    requires forall k :: 0 <= k < 11 ==> h[k] != [] && h[k][0] != p[0]
    requires forall k :: 0 <= k < 3 ==> t[k] != [] && t[k][0] != p[0]
    ensures var ls := h + loc + t;
      |ls| == 14 + |loc| && ls[..5] == h[..5] && ls[5] == h[5] && ls[8] == h[8] && ls[9] == h[9]
      && ls[|ls| - 2] == t[1] && ls[|ls| - 1] == t[2] && (|loc| == 1 ==> ls[11] == loc[0])
      && forall k :: 0 <= k < |ls| && !(k == 11 && |loc| == 1) ==> !StartsWith(ls[k], p)
  {
    var ls := h + loc + t;
    assert ls[..5] == h[..5];
    forall k | 0 <= k < |ls| && !(k == 11 && |loc| == 1)
      ensures !StartsWith(ls[k], p)
    {
      if k < 11 { assert ls[k] == h[k]; }
      else { assert ls[k] == t[k - 11 - |loc|]; }
      FirstCharDiffers(ls[k], p);
    }
  }

  /** The calendar text of one game starts with `BEGIN:VCALENDAR`, ends with
      `END:VCALENDAR` and has no trailing CRLF. */
  lemma IcsForGameFraming(g: Game, stampIso: string, parse: string -> Option<int>, toIso: int -> string)
    requires IcsForGame(g, stampIso, parse, toIso).Calendar?
    ensures StartsWith(IcsForGame(g, stampIso, parse, toIso).text, "BEGIN:VCALENDAR" + CRLF)
    ensures EndsWith(IcsForGame(g, stampIso, parse, toIso).text, CRLF + "END:VCALENDAR")
    ensures !EndsWith(IcsForGame(g, stampIso, parse, toIso).text, CRLF)
  {
    var start := DateValue(KickoffIso(g), parse).value;
    IcsTextFraming(g, start, stampIso, toIso);
  }

  lemma IcsTextFraming(g: Game, start: int, stampIso: string, toIso: int -> string)
    ensures StartsWith(Join(IcsLines(g, start, stampIso, toIso), CRLF), "BEGIN:VCALENDAR" + CRLF)
    ensures EndsWith(Join(IcsLines(g, start, stampIso, toIso), CRLF), CRLF + "END:VCALENDAR")
    ensures !EndsWith(Join(IcsLines(g, start, stampIso, toIso), CRLF), CRLF)
  {
    var ls := IcsLines(g, start, stampIso, toIso);
    IcsLinesShape(g, start, stampIso, toIso);
    assert ls[0] == ls[..5][0] == CalendarHeader[0] == "BEGIN:VCALENDAR";
    CrlfFraming(ls, "BEGIN:VCALENDAR", "END:VCALENDAR");
  }

  /** CRLF-joined lines start with the first line and a CRLF and end with a
      CRLF and the last line, with no trailing CRLF when that line does not end in a line feed. */
  lemma CrlfFraming(ls: seq<string>, first: string, last: string)
    requires |ls| >= 2 && ls[0] == first && ls[|ls| - 1] == last
    requires |last| >= 1 && last[|last| - 1] != '\n'
    ensures StartsWith(Join(ls, CRLF), first + CRLF)
    ensures EndsWith(Join(ls, CRLF), CRLF + last)
    ensures !EndsWith(Join(ls, CRLF), CRLF)
  {
    JoinFraming(ls, CRLF);
    assert (CRLF + last)[|CRLF + last| - 1] == last[|last| - 1];
    EndsWithLast(Join(ls, CRLF), CRLF + last);
  }

  lemma EndsWithLast(text: string, suffix: string)
    requires EndsWith(text, suffix) && |suffix| >= 2 && suffix[|suffix| - 1] != '\n'
    ensures !EndsWith(text, CRLF)
  {
    assert text[|text| - 1] == suffix[|suffix| - 1];
  }

  lemma {:induction false} JoinFraming(ls: seq<string>, sep: string)
    requires |ls| >= 2
    ensures StartsWith(Join(ls, sep), ls[0] + sep)
    ensures EndsWith(Join(ls, sep), sep + ls[|ls| - 1])
    decreases |ls|
  {
    if |ls| > 2 {
      JoinFraming(ls[1..], sep);
      assert Join(ls, sep) == ls[0] + sep + Join(ls[1..], sep);
    } else {
      assert Join(ls, sep) == ls[0] + sep + ls[1];
    }
  }

  // ---------- the season calendar ----------

  const CalendarHeader: seq<string> :=
    ["BEGIN:VCALENDAR", "VERSION:2.0", "PRODID:-//Gameday Hub//CFBD//EN", "CALSCALE:GREGORIAN", "METHOD:PUBLISH"]

  /** The filter regex of `icsForSeason` as written,
      `^BEGIN:VCALENDAR|END:VCALENDAR|VERSION:|PRODID:|CALSCALE:|METHOD:`:
      the anchor binds to the first alternative only. */
  predicate IsFrameLineAsWritten(l: string) {
    StartsWith(l, "BEGIN:VCALENDAR") || Contains(l, "END:VCALENDAR") || Contains(l, "VERSION:")
    || Contains(l, "PRODID:") || Contains(l, "CALSCALE:") || Contains(l, "METHOD:")
  }

  /** The evidently intended filter: a line belongs to the VCALENDAR frame when
      it starts with one of the frame properties. */
  predicate IsFrameLine(l: string) {
    StartsWith(l, "BEGIN:VCALENDAR") || StartsWith(l, "END:VCALENDAR") || StartsWith(l, "VERSION:")
    || StartsWith(l, "PRODID:") || StartsWith(l, "CALSCALE:") || StartsWith(l, "METHOD:")
  }

  /** `lines.filter(l => !frame(l))`: the lines the test does not match, in order. */
  function DropLines(ls: seq<string>, frame: string -> bool): (r: seq<string>)
    ensures forall k :: 0 <= k < |r| ==> !frame(r[k])
    ensures |r| <= |ls|
    ensures (forall k :: 0 <= k < |ls| ==> !frame(ls[k])) ==> r == ls
  {
    if ls == [] then [] else (if frame(ls[0]) then [] else [ls[0]]) + DropLines(ls[1..], frame)
  }

  /** Exactly the lines the test does not match are kept. */
  lemma {:induction false} DropLinesMembers(ls: seq<string>, frame: string -> bool)
    ensures forall x :: x in DropLines(ls, frame) <==> x in ls && !frame(x)
    decreases |ls|
  {
    if ls != [] {
      DropLinesMembers(ls[1..], frame);
      assert forall x :: x in ls <==> x == ls[0] || x in ls[1..];
    }
  }

  /** The filter of line 130 as it is written. */
  function DropFrameAsWritten(ls: seq<string>): seq<string> {
    DropLines(ls, IsFrameLineAsWritten)
  }

  /** The anchored filter. */
  function DropFrame(ls: seq<string>): seq<string> {
    DropLines(ls, IsFrameLine)
  }

  /** The VEVENT lines `icsForSeason` keeps from one game's calendar, with
      the filter as written. */
  function VEventLines(body: string): seq<string> {
    DropFrameAsWritten(SplitCrlf(body))
  }

  /** The outcome of `icsForSeason`: the RangeError of a game whose kickoff
      does not parse, or the text. */
  datatype SeasonIcs = SeasonThrows | SeasonCalendar(text: string)

  /** The lines the season calendar takes from the games, in order, `None`
      when one throws. */
  function SeasonEvents(sched: seq<Game>, stampIso: string, parse: string -> Option<int>, toIso: int -> string):
    Option<seq<string>>
  {
    if sched == [] then Some([])
    else
      var before := SeasonEvents(sched[..|sched| - 1], stampIso, parse, toIso);
      match IcsForGame(sched[|sched| - 1], stampIso, parse, toIso)
      case NoKickoff => before
      case InvalidDate => None
      case Calendar(body) => if before.None? then None else Some(before.value + VEventLines(body))
  }

  lemma {:induction false} SeasonEventsThrowPersists(sched: seq<Game>, n: nat, stampIso: string,
                                                     parse: string -> Option<int>, toIso: int -> string)
    requires n <= |sched| && SeasonEvents(sched[..n], stampIso, parse, toIso).None?
    ensures SeasonEvents(sched, stampIso, parse, toIso).None?
    decreases |sched| - n
  {
    if n < |sched| {
      assert sched[..n + 1][..n] == sched[..n];
      SeasonEventsThrowPersists(sched, n + 1, stampIso, parse, toIso);
    } else {
      assert sched[..n] == sched;
    }
  }

  lemma SeasonEventsStep(sched: seq<Game>, i: nat, stampIso: string, parse: string -> Option<int>, toIso: int -> string)
    requires i < |sched|
    ensures SeasonEvents(sched[..i + 1], stampIso, parse, toIso) ==
      match IcsForGame(sched[i], stampIso, parse, toIso)
      case NoKickoff => SeasonEvents(sched[..i], stampIso, parse, toIso)
      case InvalidDate => None
      case Calendar(body) =>
        var before := SeasonEvents(sched[..i], stampIso, parse, toIso);
        if before.None? then None else Some(before.value + VEventLines(body))
  {
    assert sched[..i + 1][..i] == sched[..i];
  }

  /** `icsForSeason(sched)`: the header, the lines the filter keeps of every
      game in schedule order, then `END:VCALENDAR` and an empty last element, so the
      text ends with CRLF. */
  method IcsForSeason(sched: seq<Game>, stampIso: string, parse: string -> Option<int>, toIso: int -> string)
    returns (r: SeasonIcs)
    ensures r.SeasonThrows? <==> SeasonEvents(sched, stampIso, parse, toIso).None?
    ensures r.SeasonCalendar? ==>
      r.text == Join(CalendarHeader + SeasonEvents(sched, stampIso, parse, toIso).value + ["END:VCALENDAR", ""], CRLF)
  {
    var blocks := CalendarHeader;
    var i := 0;
    assert sched[..0] == [] && blocks[5..] == [];
    while i < |sched|
      invariant 0 <= i <= |sched|
      invariant |blocks| >= 5 && blocks[..5] == CalendarHeader
      invariant SeasonEvents(sched[..i], stampIso, parse, toIso) == Some(blocks[5..])
    {
      var next := AddGame(sched, i, blocks, stampIso, parse, toIso);
      if next.None? {
        SeasonEventsThrowPersists(sched, i + 1, stampIso, parse, toIso);
        return SeasonThrows;
      }
      blocks := next.value;
      i := i + 1;
    }
    assert sched[..i] == sched;
    blocks := blocks + ["END:VCALENDAR", ""];
    assert blocks == CalendarHeader + SeasonEvents(sched, stampIso, parse, toIso).value + ["END:VCALENDAR", ""];
    return SeasonCalendar(Join(blocks, CRLF));
  }

  /** One pass of the loop of `icsForSeason`: the VEVENT lines of game `i`
      appended to the blocks, `None` when its kickoff does not parse. */
  method AddGame(sched: seq<Game>, i: nat, blocks: seq<string>, stampIso: string,
                 parse: string -> Option<int>, toIso: int -> string) returns (r: Option<seq<string>>)
    requires i < |sched| && |blocks| >= 5 && blocks[..5] == CalendarHeader
    requires SeasonEvents(sched[..i], stampIso, parse, toIso) == Some(blocks[5..])
    ensures r.None? <==> SeasonEvents(sched[..i + 1], stampIso, parse, toIso).None?
    ensures r.Some? ==> (|r.value| >= 5 && r.value[..5] == CalendarHeader
                         && SeasonEvents(sched[..i + 1], stampIso, parse, toIso) == Some(r.value[5..]))
  {
    SeasonEventsStep(sched, i, stampIso, parse, toIso);
    var body := IcsForGame(sched[i], stampIso, parse, toIso);
    match body {
      case NoKickoff =>
        r := Some(blocks);
      case InvalidDate =>
        r := None;
      case Calendar(text) =>
        var next := blocks + VEventLines(text);
        AppendAfterHeader(blocks, VEventLines(text));
        r := Some(next);
    }
  }

  lemma AppendAfterHeader(blocks: seq<string>, extra: seq<string>)
    requires |blocks| >= 5
    ensures (blocks + extra)[..5] == blocks[..5] && (blocks + extra)[5..] == blocks[5..] + extra
  {
  }

  /** The season text opens with the VCALENDAR header and ends with
      `END:VCALENDAR` followed by CRLF, whatever the events. */
  lemma SeasonTextFraming(events: seq<string>)
    ensures StartsWith(Join(CalendarHeader + events + ["END:VCALENDAR", ""], CRLF), "BEGIN:VCALENDAR" + CRLF)
    ensures EndsWith(Join(CalendarHeader + events + ["END:VCALENDAR", ""], CRLF), CRLF + "END:VCALENDAR" + CRLF)
  {
    var pre := CalendarHeader + events;
    var ls := pre + ["END:VCALENDAR", ""];
    assert ls == (pre + ["END:VCALENDAR"]) + [""];
    JoinSnoc(pre + ["END:VCALENDAR"], "", CRLF);
    JoinSnoc(pre, "END:VCALENDAR", CRLF);
    JoinFraming(ls, CRLF);
    assert ls[0] == "BEGIN:VCALENDAR";
    var text := Join(ls, CRLF);
    var body := Join(pre, CRLF);
    assert text == body + CRLF + "END:VCALENDAR" + CRLF + "";
    assert text[|text| - |CRLF + "END:VCALENDAR" + CRLF|..] == CRLF + "END:VCALENDAR" + CRLF;
  }

  /** The filter distributes over concatenation, so the kept lines keep their order. */
  lemma {:induction false} DropLinesConcat(a: seq<string>, b: seq<string>, frame: string -> bool)
    ensures DropLines(a + b, frame) == DropLines(a, frame) + DropLines(b, frame)
    decreases |a|
  {
    if a == [] {
      assert a + b == b;
    } else {
      assert (a + b)[0] == a[0];
      assert (a + b)[1..] == a[1..] + b;
      DropLinesConcat(a[1..], b, frame);
    }
  }

  lemma {:induction false} DropLinesKeeps(ls: seq<string>, frame: string -> bool)
    requires forall k :: 0 <= k < |ls| ==> !frame(ls[k])
    ensures DropLines(ls, frame) == ls
    decreases |ls|
  {
    if ls != [] {
      DropLinesKeeps(ls[1..], frame);
      assert ls == [ls[0]] + ls[1..];
    }
  }

  /** A content line of one game's calendar is free of CRLF. */
  predicate CleanLines(ls: seq<string>) {
    forall k :: 0 <= k < |ls| ==> NoCrlf(ls[k])
  }

  /** What the season calendar takes from one game: of its VEVENT block,
      `BEGIN:VEVENT` to `END:VEVENT`, the lines that contain none of the frame
      properties; so the whole block, and what the anchored filter keeps,
      exactly when no line of the block contains one. */
  lemma SeasonKeepsVEvent(g: Game, start: int, stampIso: string, toIso: int -> string)
    requires CleanLines(IcsLines(g, start, stampIso, toIso))
    ensures var ls := IcsLines(g, start, stampIso, toIso);
      |ls| >= 14 && VEventLines(Join(ls, CRLF)) == DropFrameAsWritten(ls[5..|ls| - 1])
    ensures var ls := IcsLines(g, start, stampIso, toIso);
      (forall k :: 5 <= k < |ls| - 1 ==> !IsFrameLineAsWritten(ls[k])) <==>
        VEventLines(Join(ls, CRLF)) == ls[5..|ls| - 1]
    ensures var ls := IcsLines(g, start, stampIso, toIso);
      (forall k :: 5 <= k < |ls| - 1 ==> !IsFrameLineAsWritten(ls[k])) ==>
        VEventLines(Join(ls, CRLF)) == DropFrame(ls)
  {
    var ls := IcsLines(g, start, stampIso, toIso);
    IcsLinesShape(g, start, stampIso, toIso);
    SplitJoinRoundTrip(ls);
    LooseDropOfIcsLines(g, start, stampIso, toIso);
    DropFrameOfIcsLines(g, start, stampIso, toIso);
    InnerLines(ls, IsFrameLineAsWritten);
  }

  /** The filter as written removes the five header lines and the closing
      line, and of the lines between them those that contain a frame property. */
  lemma LooseDropOfIcsLines(g: Game, start: int, stampIso: string, toIso: int -> string)
    ensures var ls := IcsLines(g, start, stampIso, toIso);
      |ls| >= 14 && DropFrameAsWritten(ls) == DropFrameAsWritten(ls[5..|ls| - 1])
  {
    var ls := IcsLines(g, start, stampIso, toIso);
    IcsLinesShape(g, start, stampIso, toIso);
    CalendarHeaderIsLooseFrame();
    ClosingLineIsLooseFrame();
    SplitAround(ls);
    DropAround(ls[..5], ls[5..|ls| - 1], ls[|ls| - 1], IsFrameLineAsWritten);
  }

  lemma SplitAround(ls: seq<string>)
    requires |ls| >= 6
    ensures ls == ls[..5] + ls[5..|ls| - 1] + [ls[|ls| - 1]]
  {
  }

  /** Dropping all of a head and a last line leaves what the filter keeps in between. */
  lemma DropAround(h: seq<string>, mid: seq<string>, last: string, frame: string -> bool)
    requires DropLines(h, frame) == [] && frame(last)
    ensures DropLines(h + mid + [last], frame) == DropLines(mid, frame)
  {
    DropLinesConcat(h + mid, [last], frame);
    DropLinesConcat(h, mid, frame);
    assert [last][1..] == [];
  }

  /** The filter keeps all the lines between the first five and the last
      exactly when it matches none of them. */
  lemma InnerLines(ls: seq<string>, frame: string -> bool)
    requires |ls| >= 6
    ensures (forall k :: 5 <= k < |ls| - 1 ==> !frame(ls[k])) <==> DropLines(ls[5..|ls| - 1], frame) == ls[5..|ls| - 1]
  {
    var mid := ls[5..|ls| - 1];
    if forall k :: 5 <= k < |ls| - 1 ==> !frame(ls[k]) {
      forall k | 0 <= k < |mid| ensures !frame(mid[k]) {
        assert mid[k] == ls[k + 5];
      }
      DropLinesKeeps(mid, frame);
    } else {
      var k :| 5 <= k < |ls| - 1 && frame(ls[k]);
      assert ls[k] == mid[k - 5];
    }
  }

  lemma ClosingLineIsLooseFrame()
    ensures IsFrameLineAsWritten("END:VCALENDAR")
  {
    PrefixStartsWith("END:VCALENDAR", "");
    assert "END:VCALENDAR" + "" == "END:VCALENDAR";
    StartContains("END:VCALENDAR", "END:VCALENDAR");
  }

  lemma StartContains(s: string, p: string)
    requires StartsWith(s, p)
    ensures Contains(s, p)
  {
    assert s[0..|p|] == s[..|p|];
    ContainsWitness(s, p, 0);
  }

  /** Every line of the calendar header matches the filter as written. */
  lemma CalendarHeaderIsLooseFrame()
    ensures DropFrameAsWritten(CalendarHeader) == []
  {
    var c := CalendarHeader;
    PrefixStartsWith("VERSION:", "2.0");
    PrefixStartsWith("PRODID:", "-//Gameday Hub//CFBD//EN");
    PrefixStartsWith("CALSCALE:", "GREGORIAN");
    PrefixStartsWith("METHOD:", "PUBLISH");
    StartContains(c[1], "VERSION:");
    StartContains(c[2], "PRODID:");
    StartContains(c[3], "CALSCALE:");
    StartContains(c[4], "METHOD:");
    assert StartsWith(c[0], "BEGIN:VCALENDAR");
    DropLinesAll(c, IsFrameLineAsWritten);
  }

  /** The anchored filter removes the five header lines and the closing line, and nothing else. */
  lemma DropFrameOfIcsLines(g: Game, start: int, stampIso: string, toIso: int -> string)
    ensures var ls := IcsLines(g, start, stampIso, toIso);
      |ls| >= 14 && DropFrame(ls) == ls[5..|ls| - 1]
  {
    IcsLinesParts(g, start, stampIso, toIso);
    HeadLinesFrame(g, start, stampIso, toIso);
    LocationLinesNotFrame(g);
    TailLinesFrame();
    DropFrameParts(IcsHeadLines(g, start, stampIso, toIso), LocationLines(g), IcsTailLines(), IsFrameLine);
  }

  /** The LOCATION line is not a frame line. */
  lemma LocationLinesNotFrame(g: Game)
    ensures |LocationLines(g)| <= 1
    ensures forall k :: 0 <= k < |LocationLines(g)| ==> !IsFrameLine(LocationLines(g)[k])
  {
    if Truthy(g.venue) {
      VEventLineNotFrame(LocationLines(g)[0]);
    }
  }

  /** Of the closing lines, DESCRIPTION and END:VEVENT are not frame lines and END:VCALENDAR is. */
  lemma TailLinesFrame()
    ensures |IcsTailLines()| == 3
    ensures !IsFrameLine(IcsTailLines()[0]) && !IsFrameLine(IcsTailLines()[1]) && IsFrameLine(IcsTailLines()[2])
  {
    var t := IcsTailLines();
    VEventLineNotFrame(t[0]);
    VEventLineNotFrame(t[1]);
    assert StartsWith(t[2], "END:VCALENDAR");
  }

  /** A calendar laid out as five frame lines, VEVENT lines and one closing
      frame line loses exactly the frame. */
  lemma DropFrameParts(h: seq<string>, loc: seq<string>, t: seq<string>, frame: string -> bool)
    requires |h| == 11 && DropLines(h[..5], frame) == [] && forall k :: 5 <= k < 11 ==> !frame(h[k])
    requires |loc| <= 1 && forall k :: 0 <= k < |loc| ==> !frame(loc[k])
    requires |t| == 3 && !frame(t[0]) && !frame(t[1]) && frame(t[2])
    ensures var ls := h + loc + t; |ls| >= 14 && DropLines(ls, frame) == ls[5..|ls| - 1]
  {
    var mid := h[5..] + loc + t[..2];
    assert h + loc + t == h[..5] + mid + [t[2]];
    DropAround(h[..5], mid, t[2], frame);
    forall k | 0 <= k < |mid| ensures !frame(mid[k]) {
      if k < 6 {
        assert mid[k] == h[k + 5];
      } else if k < 6 + |loc| {
        assert mid[k] == loc[k - 6];
      } else {
        assert mid[k] == t[k - 6 - |loc|];
      }
    }
    DropLinesKeeps(mid, frame);
    assert (h + loc + t)[5..|h + loc + t| - 1] == mid;
  }

  /** Of the lines before LOCATION, the first five are frame lines and the rest are not. */
  lemma HeadLinesFrame(g: Game, start: int, stampIso: string, toIso: int -> string)
    ensures var h := IcsHeadLines(g, start, stampIso, toIso);
      |h| == 11 && DropFrame(h[..5]) == []
      && forall k :: 5 <= k < 11 ==> !IsFrameLine(h[k])
  {
    HeadLinesFacts(g, start, stampIso, toIso);
    CalendarHeaderIsFrame();
    HeadEventLines(g, start, stampIso, toIso);
    var h := IcsHeadLines(g, start, stampIso, toIso);
    forall k | 5 <= k < 11 ensures !IsFrameLine(h[k]) {
      VEventLineNotFrame(h[k]);
    }
  }

  /** The VEVENT lines before LOCATION: `BEGIN:VEVENT`, then UID, DTSTAMP,
      DTSTART, DTEND and SUMMARY. */
  lemma HeadEventLines(g: Game, start: int, stampIso: string, toIso: int -> string)
    ensures var h := IcsHeadLines(g, start, stampIso, toIso);
      |h| == 11 && forall k :: 5 <= k < 11 ==> h[k] == "BEGIN:VEVENT" || (h[k] != [] && h[k][0] in "UDS")
  {
  }

  /** Every line of the calendar header is a frame line. */
  lemma CalendarHeaderIsFrame()
    ensures DropFrame(CalendarHeader) == []
  {
    var c := CalendarHeader;
    PrefixStartsWith("VERSION:", "2.0");
    PrefixStartsWith("PRODID:", "-//Gameday Hub//CFBD//EN");
    PrefixStartsWith("CALSCALE:", "GREGORIAN");
    PrefixStartsWith("METHOD:", "PUBLISH");
    assert StartsWith(c[0], "BEGIN:VCALENDAR");
    DropLinesAll(c, IsFrameLine);
  }

  lemma {:induction false} DropLinesAll(ls: seq<string>, frame: string -> bool)
    requires forall k :: 0 <= k < |ls| ==> frame(ls[k])
    ensures DropLines(ls, frame) == []
    decreases |ls|
  {
    if ls != [] {
      DropLinesAll(ls[1..], frame);
    }
  }

  lemma FirstCharDiffers(l: string, p: string)
    requires l != [] && p != [] && l[0] != p[0]
    ensures !StartsWith(l, p)
  {
    if |p| <= |l| { assert l[..|p|][0] != p[0]; }
  }

  /** A line that is `BEGIN:VEVENT` or `END:VEVENT`, or starts with `U`, `D`,
      `S` or `L`, is not a frame line. */
  lemma VEventLineNotFrame(l: string)
    requires l == "BEGIN:VEVENT" || l == "END:VEVENT" || (l != [] && l[0] in "UDSL")
    ensures !IsFrameLine(l)
  {
    if l == "BEGIN:VEVENT" {
      FirstCharDiffers(l, "END:VCALENDAR");
    } else if l == "END:VEVENT" {
      FirstCharDiffers(l, "BEGIN:VCALENDAR");
    } else {
      FirstCharDiffers(l, "BEGIN:VCALENDAR");
      FirstCharDiffers(l, "END:VCALENDAR");
    }
    FirstCharDiffers(l, "VERSION:");
    FirstCharDiffers(l, "PRODID:");
    FirstCharDiffers(l, "CALSCALE:");
    FirstCharDiffers(l, "METHOD:");
  }

  /** As written, the filter also drops a VEVENT line that merely contains a
      frame property: a venue such as `Hall VERSION: 2` loses its LOCATION line,
      which the anchored filter keeps. */
  lemma FrameFilterDropsLocation(g: Game, start: int, stampIso: string, toIso: int -> string, v: string, i: nat)
    requires g.venue == Str(v) && v != ""
    requires forall k :: 0 <= k < |v| ==> v[k] != ',' && v[k] != ';' && v[k] != '\n'
    requires OccursAt(v, "VERSION:", i)
    ensures var ls := IcsLines(g, start, stampIso, toIso);
      |ls| == 15 && ls[11] == "LOCATION:" + v
      && IsFrameLineAsWritten(ls[11]) && !IsFrameLine(ls[11])
  {
    IcsLinesShape(g, start, stampIso, toIso);
    PlainTextUnescaped(v);
    LocationLineMatchesLoosely(v, i);
  }

  lemma LocationLineMatchesLoosely(v: string, i: nat)
    requires OccursAt(v, "VERSION:", i)
    ensures IsFrameLineAsWritten("LOCATION:" + v) && !IsFrameLine("LOCATION:" + v)
  {
    var l := "LOCATION:" + v;
    assert l[9 + i..9 + i + 8] == v[i..i + 8];
    assert OccursAt(l, "VERSION:", 9 + i);
    VEventLineNotFrame(l);
  }

  /** The venue `Hall VERSION: 2` meets the conditions of `FrameFilterDropsLocation`. */
  lemma HallVenueIsDropped(g: Game, start: int, stampIso: string, toIso: int -> string)
    requires g.venue == Str("Hall VERSION: 2")
    ensures var ls := IcsLines(g, start, stampIso, toIso);
      |ls| == 15 && IsFrameLineAsWritten(ls[11]) && !IsFrameLine(ls[11])
  {
    var v := "Hall VERSION: 2";
    assert v[5..13] == "VERSION:";
    FrameFilterDropsLocation(g, start, stampIso, toIso, v, 5);
  }

  lemma {:induction false} NoSeparatorsUnchanged(s: string)
    requires forall i :: 0 <= i < |s| ==> s[i] != ',' && s[i] != ';' && s[i] != '\n'
    ensures FlatMap(s, IcsEscChar) == s
    decreases |s|
  {
    if s != [] {
      NoSeparatorsUnchanged(s[1..]);
      assert s == [s[0]] + s[1..];
    }
  }

  // ---------- HTTP retry ----------

  /** What one `fetch` answers: the status, the `retry-after` header, and the
      body parsed as JSON (`None` when `r.json()` rejects). */
  datatype Response = Response(status: int, retryAfter: Option<string>, json: Option<Value>)

  predicate Retryable(r: Response) { r.status == 429 || r.status >= 500 }

  /** `r.ok` */
  predicate IsOk(r: Response) { 200 <= r.status <= 299 }

  function Min(a: int, b: int): int { if a <= b then a else b }

  /** The wait before attempt `a + 1`: `retry-after` seconds when that header
      is non-empty (`None` when it is not a number), otherwise
      `min(30000, a * 2000)` milliseconds. */
  function RetryWait(r: Response, a: nat): (w: Option<int>)
    ensures (r.retryAfter.None? || r.retryAfter == Some("")) ==> w == Some(Min(30000, 2000 * a))
    ensures r.retryAfter.Some? && r.retryAfter.value != "" ==>
              w == (if StrToNumber(r.retryAfter.value).Some? then Some(1000 * StrToNumber(r.retryAfter.value).value) else None)
  {
    match r.retryAfter
    case Some(ra) =>
      if ra != "" then
        match StrToNumber(ra)
        case Some(n) => Some(n * 1000)
        case None => None
      else Some(Min(30000, a * 2000))
    case None => Some(Min(30000, a * 2000))
  }

  /** Without a `retry-after` header the backoff grows by two seconds per
      attempt and stays between two and thirty seconds. */
  lemma BackoffBounds(r: Response, a: nat, b: nat)
    requires r.retryAfter.None? && 1 <= a <= b
    ensures 2000 <= RetryWait(r, a).value <= RetryWait(r, b).value <= 30000
    ensures a <= 15 ==> RetryWait(r, a).value == 2000 * a
  {
  }

  /** How `getWithRetry` ends: the parsed body; the error thrown after the
      last retryable response; the error of any other non-OK response; or the
      rejection of `r.json()`. */
  datatype Fetch = Fetched(body: Value) | GaveUp(status: int, tries: int) | HttpError(status: int) | BadJson

  /** `getWithRetry(url, {tries})`, where `respond(a)` is the response to attempt `a`.
      Also returns the number of attempts and the waits between them. */
  method GetWithRetry(respond: nat -> Response, tries: int) returns (out: Fetch, attempts: nat, waits: seq<Option<int>>)
    ensures 1 <= attempts && |waits| == attempts - 1
    ensures attempts == 1 || attempts < tries + 1
    ensures forall a :: 1 <= a < attempts ==>
              Retryable(respond(a)) && a < tries && waits[a - 1] == RetryWait(respond(a), a)
    ensures out.GaveUp? <==> Retryable(respond(attempts))
    ensures out.GaveUp? ==> attempts >= tries && out == GaveUp(respond(attempts).status, tries)
    ensures !Retryable(respond(attempts)) ==>
              out == (if !IsOk(respond(attempts)) then HttpError(respond(attempts).status)
                      else if respond(attempts).json.None? then BadJson
                      else Fetched(respond(attempts).json.value))
  {
    var a: nat := 1;
    waits := [];
    while true
      invariant 1 <= a && |waits| == a - 1
      invariant a == 1 || a <= tries
      invariant forall k :: 1 <= k < a ==>
                  Retryable(respond(k)) && k < tries && waits[k - 1] == RetryWait(respond(k), k)
      decreases tries - a
    {
      var r := respond(a);
      if Retryable(r) {
        if a >= tries {
          return GaveUp(r.status, tries), a, waits;
        }
        waits := waits + [RetryWait(r, a)];
        a := a + 1;
      } else if !IsOk(r) {
        return HttpError(r.status), a, waits;
      } else if r.json.None? {
        return BadJson, a, waits;
      } else {
        return Fetched(r.json.value), a, waits;
      }
    }
  }

  // ---------- skip-if-unchanged writes ----------

  /** The files under the repository root: path to content; a missing key is
      a file that cannot be read. */
  class ArtifactStore {
    var files: map<string, string>

    constructor (initial: map<string, string>)
      ensures files == initial
    {
      files := initial;
    }

    /** `writeText(rel, text)`; the `endsWith` test in the source chooses `text`
        on both branches. */
    method WriteText(path: string, text: string) returns (wrote: bool)
      modifies this
      ensures files == old(files)[path := text]
      ensures wrote <==> !(path in old(files) && old(files)[path] == text)
      ensures !wrote ==> files == old(files)
    {
      if path in files && files[path] == text {
        return false;
      }
      files := files[path := text];
      return true;
    }

    /** `writeJson(rel, obj)`, given the `JSON.stringify(obj, null, 2)` text. */
    method WriteJson(path: string, json: string) returns (wrote: bool)
      modifies this
      ensures files == old(files)[path := json + "\n"]
      ensures wrote <==> !(path in old(files) && old(files)[path] == json + "\n")
    {
      wrote := WriteText(path, json + "\n");
    }

    /** `wrote |= await write…(…)` over the artifacts of one run, in order. */
    method WriteAll(writes: seq<(string, string)>) returns (wrote: bool)
      modifies this
      ensures files == ApplyWrites(old(files), writes)
      ensures !wrote <==> forall k :: 0 <= k < |writes| ==> InPlace(old(files), writes, k)
    {
      wrote := false;
      var i := 0;
      while i < |writes|
        invariant 0 <= i <= |writes|
        invariant files == ApplyWrites(old(files), writes[..i])
        invariant !wrote <==> forall k :: 0 <= k < i ==> InPlace(old(files), writes, k)
      {
        ApplyWritesSnoc(old(files), writes, i);
        ghost var before := files;
        var w := WriteText(writes[i].0, writes[i].1);
        assert InPlace(old(files), writes, i) <==> writes[i].0 in before && before[writes[i].0] == writes[i].1;
        wrote := wrote || w;
        i := i + 1;
      }
      assert writes[..i] == writes;
    }
  }

  function ApplyWrites(files: map<string, string>, writes: seq<(string, string)>): map<string, string>
  {
    if writes == [] then files
    else ApplyWrites(files, writes[..|writes| - 1])[writes[|writes| - 1].0 := writes[|writes| - 1].1]
  }

  /** The `k`-th write finds its content already in place. */
  predicate InPlace(files: map<string, string>, writes: seq<(string, string)>, k: int)
    requires 0 <= k < |writes|
  {
    writes[k].0 in ApplyWrites(files, writes[..k]) && ApplyWrites(files, writes[..k])[writes[k].0] == writes[k].1
  }

  /** The store after one more write. */
  lemma ApplyWritesSnoc(files: map<string, string>, writes: seq<(string, string)>, i: int)
    requires 0 <= i < |writes|
    ensures ApplyWrites(files, writes[..i + 1]) == ApplyWrites(files, writes[..i])[writes[i].0 := writes[i].1]
  {
    assert writes[..i + 1][..i] == writes[..i];
  }

  predicate DistinctPaths(writes: seq<(string, string)>) {
    forall i, j :: 0 <= i < j < |writes| ==> writes[i].0 != writes[j].0
  }

  /** A path no write touches keeps its content (or stays absent). */
  lemma {:induction false} ApplyWritesElsewhere(files: map<string, string>, writes: seq<(string, string)>, p: string)
    requires forall k :: 0 <= k < |writes| ==> writes[k].0 != p
    ensures p in ApplyWrites(files, writes) <==> p in files
    ensures p in files ==> ApplyWrites(files, writes)[p] == files[p]
    decreases |writes|
  {
    if writes != [] {
      ApplyWritesElsewhere(files, writes[..|writes| - 1], p);
    }
  }

  /** After distinct writes, each path holds what was written to it. */
  lemma {:induction false} ApplyWritesAt(files: map<string, string>, writes: seq<(string, string)>, k: int)
    requires DistinctPaths(writes) && 0 <= k < |writes|
    ensures writes[k].0 in ApplyWrites(files, writes)
    ensures ApplyWrites(files, writes)[writes[k].0] == writes[k].1
    decreases |writes|
  {
    if k < |writes| - 1 {
      ApplyWritesAt(files, writes[..|writes| - 1], k);
    }
  }

  /** Running the same distinct writes a second time changes nothing and reports no write. */
  method RerunWritesNothing(store: ArtifactStore, writes: seq<(string, string)>) returns (second: bool)
    requires DistinctPaths(writes)
    modifies store
    ensures !second
    ensures store.files == ApplyWrites(old(store.files), writes)
  {
    var first := store.WriteAll(writes);
    ghost var after := store.files;
    second := store.WriteAll(writes);
    forall k | 0 <= k < |writes| ensures InPlace(after, writes, k) {
      ApplyWritesAt(old(store.files), writes, k);
      ApplyWritesElsewhere(after, writes[..k], writes[k].0);
    }
    ApplyWritesUnchanged(after, writes);
  }

  lemma UpdateSameValue(m: map<string, string>, key: string, val: string)
    requires key in m && m[key] == val
    ensures m[key := val] == m
  {
  }

  /** Writes that each find their content already in place change nothing. */
  lemma {:induction false} ApplyWritesUnchanged(files: map<string, string>, writes: seq<(string, string)>)
    requires forall k :: 0 <= k < |writes| ==> InPlace(files, writes, k)
    ensures ApplyWrites(files, writes) == files
    decreases |writes|
  {
    if writes != [] {
      var n := |writes| - 1;
      var init := writes[..n];
      forall k | 0 <= k < |init| ensures InPlace(files, init, k) {
        assert init[..k] == writes[..k];
        assert InPlace(files, writes, k);
      }
      ApplyWritesUnchanged(files, init);
      var w := writes[n];
      assert InPlace(files, writes, n);
      assert w.0 in files && files[w.0] == w.1;
      UpdateSameValue(files, w.0, w.1);
    }
  }
}

/** scripts/validate-data.mjs: the checks run over the emitted schedule,
    rankings and betting lines before a deploy. Each file arrives already
    read and parsed; `None` stands for a file that is missing or is not
    JSON, which the script replaces by `[]`. The error list holds messages
    as values; `Text` renders each as the script prints it, and
    `TextInjective` shows that no two messages print alike. */
module ValidateData {
  import opened Strs
  import opened Js

  /** The three checks made on every game. */
  datatype Check = Start | Home | Away

  /** The messages `must` can push. */
  datatype Msg =
    | ScheduleEmpty
    | GameMissing(index: nat, check: Check)
    | RankingsNotArray
    | LinesNotArray

  /** What a failed check says is missing. */
  function What(c: Check): string {
    match c
    case Start => "start_time/start_date"
    case Home => "home_team"
    case Away => "away_team"
  }

  /** The message as printed; a game's is `` `schedule[${i}] missing ${what}` ``. */
  function Text(m: Msg): string {
    match m
    case ScheduleEmpty => "schedule missing/empty"
    case GameMissing(i, c) => "schedule[" + (NatToStr(i) + ("] missing " + What(c)))
    case RankingsNotArray => "rankings not array"
    case LinesNotArray => "lines not array"
  }

  /** Whether game `g` fails check `c`. */
  predicate Lacks(g: Value, c: Check) {
    match c
    case Start => !Truthy(Or(Get(g, "start_time"), Get(g, "start_date")))
    case Home => !Truthy(Get(g, "home_team"))
    case Away => !Truthy(Get(g, "away_team"))
  }

  /** The messages of game `i`, in the order the script checks. */
  function GameMsgs(i: nat, g: Value): seq<Msg> {
    (if Lacks(g, Start) then [GameMissing(i, Start)] else [])
    + (if Lacks(g, Home) then [GameMissing(i, Home)] else [])
    + (if Lacks(g, Away) then [GameMissing(i, Away)] else [])
  }

  /** The messages of all games, game by game. */
  function AllGameMsgs(gs: seq<Value>): seq<Msg>
    decreases |gs|
  {
    if gs == [] then [] else AllGameMsgs(gs[..|gs| - 1]) + GameMsgs(|gs| - 1, gs[|gs| - 1])
  }

  lemma AllGameMsgsSnoc(gs: seq<Value>, i: nat)
    requires i < |gs|
    ensures AllGameMsgs(gs[..i + 1]) == AllGameMsgs(gs[..i]) + GameMsgs(i, gs[i])
  {
    assert gs[..i + 1][..i] == gs[..i];
  }

  /** Some game is `null` or `undefined`. */
  predicate HasNullGame(gs: seq<Value>) {
    exists i :: 0 <= i < |gs| && Nullish(gs[i])
  }

  /** `load(p).catch(() => [])` */
  function Loaded(f: Option<Value>): Value {
    if f.Some? then f.value else Arr([])
  }

  /** How a run ends: it throws when the schedule is not an array
      (`sched.entries` is not a function) or holds a null game (`g.start_time`
      of null), and otherwise it has its list of errors. */
  datatype Outcome = Crashed | Checked(errs: seq<Msg>)

  /** The exit status: 1 after a throw or when an error was collected. */
  function ExitCode(o: Outcome): int {
    if o.Crashed? || o.errs != [] then 1 else 0
  }

  /** What a run of `main` comes to. */
  function Expected(schedFile: Option<Value>, ranksFile: Option<Value>, linesFile: Option<Value>): Outcome {
    var sched := Loaded(schedFile);
    if !sched.Arr? || HasNullGame(sched.elems) then Crashed
    else
      Checked((if |sched.elems| > 0 then [] else [ScheduleEmpty])
        + AllGameMsgs(sched.elems)
        + (if Loaded(ranksFile).Arr? then [] else [RankingsNotArray])
        + (if Loaded(linesFile).Arr? then [] else [LinesNotArray]))
  }

  /** `main()`: `must` pushes a message onto `errs` for every check that fails. */
  method Validate(schedFile: Option<Value>, ranksFile: Option<Value>, linesFile: Option<Value>) returns (out: Outcome)
    ensures out == Expected(schedFile, ranksFile, linesFile)
  {
    var errs: seq<Msg> := [];
    var sched := Loaded(schedFile);
    if !(sched.Arr? && |sched.elems| > 0) {
      errs := errs + [ScheduleEmpty];
    }
    if !sched.Arr? {
      return Crashed;
    }
    ghost var head := errs;
    assert head == (if |sched.elems| > 0 then [] else [ScheduleEmpty]);
    var crashed;
    crashed, errs := CheckGames(sched.elems, errs);
    if crashed {
      return Crashed;
    }
    errs := Tail(errs, ranksFile, linesFile);
    ExpectedChecked(schedFile, ranksFile, linesFile);
    return Checked(errs);
  }

  /** The two checks after the games. */
  method Tail(errs: seq<Msg>, ranksFile: Option<Value>, linesFile: Option<Value>) returns (r: seq<Msg>)
    ensures r == errs + (if Loaded(ranksFile).Arr? then [] else [RankingsNotArray])
                      + (if Loaded(linesFile).Arr? then [] else [LinesNotArray])
  {
    r := errs;
    if !Loaded(ranksFile).Arr? {
      r := r + [RankingsNotArray];
    }
    if !Loaded(linesFile).Arr? {
      r := r + [LinesNotArray];
    }
  }

  /** Unfolding step for `Validate`: the `Checked` branch of `Expected`. */
  lemma ExpectedChecked(schedFile: Option<Value>, ranksFile: Option<Value>, linesFile: Option<Value>)
    requires Loaded(schedFile).Arr? && !HasNullGame(Loaded(schedFile).elems)
    ensures var gs := Loaded(schedFile).elems;
      Expected(schedFile, ranksFile, linesFile)
      == Checked((if |gs| > 0 then [] else [ScheduleEmpty]) + AllGameMsgs(gs)
                 + (if Loaded(ranksFile).Arr? then [] else [RankingsNotArray])
                 + (if Loaded(linesFile).Arr? then [] else [LinesNotArray]))
  {
  }

  /** The loop over `sched.entries()`; `crashed` when a game is null. */
  method CheckGames(gs: seq<Value>, head: seq<Msg>) returns (crashed: bool, errs: seq<Msg>)
    ensures crashed <==> HasNullGame(gs)
    ensures !crashed ==> errs == head + AllGameMsgs(gs)
  {
    errs := head;
    var i := 0;
    while i < |gs|
      invariant 0 <= i <= |gs|
      invariant errs == head + AllGameMsgs(gs[..i])
      invariant forall k :: 0 <= k < i ==> !Nullish(gs[k])
    {
      var g := gs[i];
      if Nullish(g) {
        assert HasNullGame(gs);
        return true, errs;
      }
      errs := CheckGame(i, g, errs);
      AllGameMsgsSnoc(gs, i);
      i := i + 1;
    }
    assert gs[..|gs|] == gs;
    return false, errs;
  }

  /** The three `must` calls of one loop turn. */
  method CheckGame(i: nat, g: Value, errs: seq<Msg>) returns (errs': seq<Msg>)
    ensures errs' == errs + GameMsgs(i, g)
  {
    errs' := errs;
    if !Truthy(Or(Get(g, "start_time"), Get(g, "start_date"))) {
      errs' := errs' + [GameMissing(i, Start)];
    }
    if !Truthy(Get(g, "home_team")) {
      errs' := errs' + [GameMissing(i, Home)];
    }
    if !Truthy(Get(g, "away_team")) {
      errs' := errs' + [GameMissing(i, Away)];
    }
  }

  // ---------- the printed messages ----------

  /** A common prefix cancels. */
  lemma PrefixCancel(p: string, x: string, y: string)
    requires p + x == p + y
    ensures x == y
  {
    assert x == (p + x)[|p|..];
  }

  /** A run of digits followed by ']' is fixed by the string it starts. */
  lemma DigitsThenBracket(a: string, b: string, x: string, y: string)
    requires AllDigits(a) && AllDigits(b) && x != [] && y != [] && x[0] == ']' && y[0] == ']'
    requires a + x == b + y
    ensures a == b && x == y
  {
    assert a == (a + x)[..|a|];
    assert b == (b + y)[..|b|];
    PrefixCancel(a, x, y);
  }

  lemma GameTextInjective(i: nat, j: nat, c: Check, d: Check)
    requires Text(GameMissing(i, c)) == Text(GameMissing(j, d))
    ensures i == j && c == d
  {
    var tail := "] missing ";
    assert tail[0] == ']';
    var x := tail + What(c);
    var y := tail + What(d);
    PrefixCancel("schedule[", NatToStr(i) + x, NatToStr(j) + y);
    DigitsThenBracket(NatToStr(i), NatToStr(j), x, y);
    PrefixCancel(tail, What(c), What(d));
  }

  /** Every game message is longer than the three file-level messages. */
  lemma GameTextIsLong(i: nat, c: Check)
    ensures |Text(GameMissing(i, c))| > 22
  {
    assert |NatToStr(i)| >= 1;
    assert |What(c)| >= 9;
  }

  /** No two messages print alike, so the printed list has the same
      repetitions and order as the list of messages. */
  lemma TextInjective(m: Msg, n: Msg)
    requires Text(m) == Text(n)
    ensures m == n
  {
    if m.GameMissing? && n.GameMissing? {
      GameTextInjective(m.index, n.index, m.check, n.check);
    } else if m.GameMissing? {
      GameTextIsLong(m.index, m.check);
    } else if n.GameMissing? {
      GameTextIsLong(n.index, n.check);
    }
  }

  // ---------- properties of the outcome ----------

  /** Game `i` adds exactly one message for each check it fails, and none
      for a check it passes; no message names a game past the end. */
  lemma {:induction false} GameMsgCount(gs: seq<Value>, i: nat, c: Check)
    ensures multiset(AllGameMsgs(gs))[GameMissing(i, c)] == if i < |gs| && Lacks(gs[i], c) then 1 else 0
    decreases |gs|
  {
    if gs != [] {
      var k := |gs| - 1;
      var pre := gs[..k];
      GameMsgCount(pre, i, c);
      assert AllGameMsgs(gs) == AllGameMsgs(pre) + GameMsgs(k, gs[k]);
      assert multiset(AllGameMsgs(gs)) == multiset(AllGameMsgs(pre)) + multiset(GameMsgs(k, gs[k]));
      OneGameCount(k, gs[k], i, c);
      if i < k {
        assert pre[i] == gs[i];
      }
    }
  }

  /** One game's messages hold each of its own at most once, and no other. */
  lemma OneGameCount(k: nat, g: Value, i: nat, c: Check)
    ensures multiset(GameMsgs(k, g))[GameMissing(i, c)] == if k == i && Lacks(g, c) then 1 else 0
  {
    var m := GameMissing(i, c);
    var s1 := if Lacks(g, Start) then [GameMissing(k, Start)] else [];
    var s2 := if Lacks(g, Home) then [GameMissing(k, Home)] else [];
    var s3 := if Lacks(g, Away) then [GameMissing(k, Away)] else [];
    assert GameMsgs(k, g) == s1 + s2 + s3;
    assert multiset(s1 + s2 + s3) == multiset(s1) + multiset(s2) + multiset(s3);
    CondCount(Lacks(g, Start), GameMissing(k, Start), m);
    CondCount(Lacks(g, Home), GameMissing(k, Home), m);
    CondCount(Lacks(g, Away), GameMissing(k, Away), m);
  }

  lemma CondCount(b: bool, x: Msg, m: Msg)
    ensures multiset(if b then [x] else [])[m] == if b && x == m then 1 else 0
  {
  }

  /** The games add only game messages. */
  lemma {:induction false} NoOtherMsgs(gs: seq<Value>, m: Msg)
    requires m in AllGameMsgs(gs)
    ensures m.GameMissing?
    decreases |gs|
  {
    var k := |gs| - 1;
    assert AllGameMsgs(gs) == AllGameMsgs(gs[..k]) + GameMsgs(k, gs[k]);
    if m in AllGameMsgs(gs[..k]) {
      NoOtherMsgs(gs[..k], m);
    }
  }

  /** A message in the first games names one of them. */
  lemma InFirstGames(gs: seq<Value>, x: nat)
    requires x < |AllGameMsgs(gs)|
    ensures AllGameMsgs(gs)[x].GameMissing? && AllGameMsgs(gs)[x].index < |gs|
  {
    var m := AllGameMsgs(gs)[x];
    assert m in multiset(AllGameMsgs(gs));
    NoOtherMsgs(gs, m);
    GameMsgCount(gs, m.index, m.check);
  }

  /** Messages appear by game: one that names an earlier game comes first. */
  lemma {:induction false} GameMsgsInOrder(gs: seq<Value>, p: nat, q: nat)
    requires p < |AllGameMsgs(gs)| && q < |AllGameMsgs(gs)|
    requires AllGameMsgs(gs)[p].GameMissing? && AllGameMsgs(gs)[q].GameMissing?
    requires AllGameMsgs(gs)[p].index < AllGameMsgs(gs)[q].index
    ensures p < q
    decreases |gs|
  {
    var k := |gs| - 1;
    var pre := gs[..k];
    var a := AllGameMsgs(pre);
    var last := GameMsgs(k, gs[k]);
    assert AllGameMsgs(gs) == a + last;
    assert forall x :: 0 <= x < |last| ==> last[x].GameMissing? && last[x].index == k;
    if q < |a| {
      InFirstGames(pre, q);
      if p < |a| {
        GameMsgsInOrder(pre, p, q);
      }
    }
  }

  /** No game messages at all exactly when every game passes every check. */
  lemma {:induction false} NoGameMsgs(gs: seq<Value>)
    ensures AllGameMsgs(gs) == [] <==>
              forall i :: 0 <= i < |gs| ==> !Lacks(gs[i], Start) && !Lacks(gs[i], Home) && !Lacks(gs[i], Away)
    decreases |gs|
  {
    if gs != [] {
      var k := |gs| - 1;
      NoGameMsgs(gs[..k]);
      assert AllGameMsgs(gs) == AllGameMsgs(gs[..k]) + GameMsgs(k, gs[k]);
      assert forall i :: 0 <= i < k ==> gs[..k][i] == gs[i];
    }
  }

  /** A run passes exactly when the schedule is a non-empty array of games
      that each have a start, a home team and an away team, and the
      rankings and lines are arrays or missing. */
  lemma Passes(schedFile: Option<Value>, ranksFile: Option<Value>, linesFile: Option<Value>)
    ensures var sched := Loaded(schedFile);
      ExitCode(Expected(schedFile, ranksFile, linesFile)) == 0 <==>
        sched.Arr? && |sched.elems| > 0
        && (forall i :: 0 <= i < |sched.elems| ==>
              !Nullish(sched.elems[i]) && !Lacks(sched.elems[i], Start)
              && !Lacks(sched.elems[i], Home) && !Lacks(sched.elems[i], Away))
        && Loaded(ranksFile).Arr? && Loaded(linesFile).Arr?
  {
    var sched := Loaded(schedFile);
    if sched.Arr? {
      NoGameMsgs(sched.elems);
    }
  }

  /** The schedule message comes first, and exactly when the schedule is empty. */
  lemma ScheduleMessage(schedFile: Option<Value>, ranksFile: Option<Value>, linesFile: Option<Value>)
    requires Expected(schedFile, ranksFile, linesFile).Checked?
    ensures var e := Expected(schedFile, ranksFile, linesFile).errs;
      (ScheduleEmpty in e <==> Loaded(schedFile).elems == []) && (ScheduleEmpty in e ==> e[0] == ScheduleEmpty)
  {
    var gs := Loaded(schedFile).elems;
    if ScheduleEmpty in AllGameMsgs(gs) {
      NoOtherMsgs(gs, ScheduleEmpty);
    }
  }

  /** A game message is in the list as often as that game fails that check. */
  lemma GameMessages(schedFile: Option<Value>, ranksFile: Option<Value>, linesFile: Option<Value>, i: nat, c: Check)
    requires Expected(schedFile, ranksFile, linesFile).Checked?
    ensures var e := Expected(schedFile, ranksFile, linesFile).errs;
      var gs := Loaded(schedFile).elems;
      multiset(e)[GameMissing(i, c)] == if i < |gs| && Lacks(gs[i], c) then 1 else 0
  {
    var gs := Loaded(schedFile).elems;
    var a := if |gs| > 0 then [] else [ScheduleEmpty];
    var b := AllGameMsgs(gs);
    var r := if Loaded(ranksFile).Arr? then [] else [RankingsNotArray];
    var l := if Loaded(linesFile).Arr? then [] else [LinesNotArray];
    ExpectedChecked(schedFile, ranksFile, linesFile);
    CountInMiddle(a, b, r, l, GameMissing(i, c));
    GameMsgCount(gs, i, c);
  }

  /** A message absent from the outer parts occurs in the whole list as
      often as in the middle part. */
  lemma CountInMiddle<T>(a: seq<T>, b: seq<T>, r: seq<T>, l: seq<T>, x: T)
    requires x !in a && x !in r && x !in l
    ensures multiset(a + b + r + l)[x] == multiset(b)[x]
  {
    assert multiset(a + b + r + l) == multiset(a) + multiset(b) + multiset(r) + multiset(l);
  }

  /** The rankings message is there exactly when the rankings file holds
      something other than an array, and only the lines message follows it. */
  lemma RankingsMessage(schedFile: Option<Value>, ranksFile: Option<Value>, linesFile: Option<Value>)
    requires Expected(schedFile, ranksFile, linesFile).Checked?
    ensures var e := Expected(schedFile, ranksFile, linesFile).errs;
      (RankingsNotArray in e <==> ranksFile.Some? && !ranksFile.value.Arr?)
      && (RankingsNotArray in e ==> e[|e| - (if Loaded(linesFile).Arr? then 1 else 2)] == RankingsNotArray)
  {
    var gs := Loaded(schedFile).elems;
    if RankingsNotArray in AllGameMsgs(gs) {
      NoOtherMsgs(gs, RankingsNotArray);
    }
  }

  /** The lines message is there exactly when the lines file holds
      something other than an array, and it comes last. */
  lemma LinesMessage(schedFile: Option<Value>, ranksFile: Option<Value>, linesFile: Option<Value>)
    requires Expected(schedFile, ranksFile, linesFile).Checked?
    ensures var e := Expected(schedFile, ranksFile, linesFile).errs;
      (LinesNotArray in e <==> linesFile.Some? && !linesFile.value.Arr?)
      && (LinesNotArray in e ==> e[|e| - 1] == LinesNotArray)
  {
    var gs := Loaded(schedFile).elems;
    if LinesNotArray in AllGameMsgs(gs) {
      NoOtherMsgs(gs, LinesNotArray);
    }
  }

  /** A schedule that is not an array, or that holds a null game, makes the
      run throw; a missing schedule file reads as empty and is reported. */
  lemma CrashesExactly(schedFile: Option<Value>, ranksFile: Option<Value>, linesFile: Option<Value>)
    ensures var sched := Loaded(schedFile);
      Expected(schedFile, ranksFile, linesFile).Crashed? <==> !sched.Arr? || HasNullGame(sched.elems)
    ensures schedFile.None? ==>
              Expected(schedFile, ranksFile, linesFile).Checked? && Expected(schedFile, ranksFile, linesFile).errs[0] == ScheduleEmpty
  {
  }
}

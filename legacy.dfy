/** What the two older front ends, js/main.js and js/main.debug.js, share
    word for word: HTML escaping, `pad2`, the millisecond countdown, the
    compact stamps of the Google Calendar link, the next-game line and the
    live score box, and the score-derived result text. */
module Legacy {
  import opened Strs
  import opened Js
  import opened Stamps
  import opened Widgets

  // ---------- HTML escaping ----------

  /** The entity each of the five special characters becomes. */
  function HtmlEntity(c: char): string {
    if c == '&' then "&amp;"
    else if c == '<' then "&lt;"
    else if c == '>' then "&gt;"
    else if c == '"' then "&quot;"
    else if c == '\'' then "&#39;"
    else [c]
  }

  /** The five global replacements of `escapeHtml` / `esc`, `&` first. */
  function EscapeText(s: string): string {
    ReplaceChar(ReplaceChar(ReplaceChar(ReplaceChar(ReplaceChar(s, '&', "&amp;"), '<', "&lt;"), '>', "&gt;"),
      '"', "&quot;"), '\'', "&#39;")
  }

  /** `escapeHtml(s)`: `String(s ?? "")`, escaped. */
  function EscapeHtml(v: Value): string {
    EscapeText(ToStr(Coalesce(v, Str(""))))
  }

  lemma EscapeTextConcat(a: string, b: string)
    ensures EscapeText(a + b) == EscapeText(a) + EscapeText(b)
  {
    ReplaceCharConcat(a, b, '&', "&amp;");
    var a1, b1 := ReplaceChar(a, '&', "&amp;"), ReplaceChar(b, '&', "&amp;");
    ReplaceCharConcat(a1, b1, '<', "&lt;");
    var a2, b2 := ReplaceChar(a1, '<', "&lt;"), ReplaceChar(b1, '<', "&lt;");
    ReplaceCharConcat(a2, b2, '>', "&gt;");
    var a3, b3 := ReplaceChar(a2, '>', "&gt;"), ReplaceChar(b2, '>', "&gt;");
    ReplaceCharConcat(a3, b3, '"', "&quot;");
    var a4, b4 := ReplaceChar(a3, '"', "&quot;"), ReplaceChar(b3, '"', "&quot;");
    ReplaceCharConcat(a4, b4, '\'', "&#39;");
  }

  /** The five replacements in turn, each a stage of its own. */
  function Stage1(s: string): string { ReplaceChar(s, '&', "&amp;") }
  function Stage2(s: string): string { ReplaceChar(s, '<', "&lt;") }
  function Stage3(s: string): string { ReplaceChar(s, '>', "&gt;") }
  function Stage4(s: string): string { ReplaceChar(s, '"', "&quot;") }
  function Stage5(s: string): string { ReplaceChar(s, '\'', "&#39;") }

  lemma EscapeTextStages(s: string)
    ensures EscapeText(s) == Stage5(Stage4(Stage3(Stage2(Stage1(s)))))
  {
  }

  /** A character none of the stages targets passes through unchanged. */
  lemma PlainChar(c: char)
    requires c != '&' && !Markup(c)
    ensures Stage5(Stage4(Stage3(Stage2(Stage1([c]))))) == [c]
  {
    ReplaceCharAbsent([c], '&', "&amp;");
    ReplaceCharAbsent([c], '<', "&lt;");
    ReplaceCharAbsent([c], '>', "&gt;");
    ReplaceCharAbsent([c], '"', "&quot;");
    ReplaceCharAbsent([c], '\'', "&#39;");
  }

  /** Text without the characters of the later stages passes through them unchanged. */
  lemma Keep5(e: string)
    requires '\'' !in e
    ensures Stage5(e) == e
  {
    ReplaceCharAbsent(e, '\'', "&#39;");
  }

  lemma Keep4(e: string)
    requires '"' !in e && '\'' !in e
    ensures Stage5(Stage4(e)) == e
  {
    ReplaceCharAbsent(e, '"', "&quot;");
    Keep5(e);
  }

  lemma Keep3(e: string)
    requires '>' !in e && '"' !in e && '\'' !in e
    ensures Stage5(Stage4(Stage3(e))) == e
  {
    ReplaceCharAbsent(e, '>', "&gt;");
    Keep4(e);
  }

  lemma Keep2(e: string)
    requires '<' !in e && '>' !in e && '"' !in e && '\'' !in e
    ensures Stage5(Stage4(Stage3(Stage2(e)))) == e
  {
    ReplaceCharAbsent(e, '<', "&lt;");
    Keep3(e);
  }

  lemma AmpChar()
    ensures Stage5(Stage4(Stage3(Stage2(Stage1("&"))))) == "&amp;"
  {
    ReplaceCharHit('&', "&amp;");
    Keep2("&amp;");
  }

  lemma LtChar()
    ensures Stage5(Stage4(Stage3(Stage2(Stage1("<"))))) == "&lt;"
  {
    ReplaceCharAbsent("<", '&', "&amp;");
    ReplaceCharHit('<', "&lt;");
    Keep3("&lt;");
  }

  lemma GtChar()
    ensures Stage5(Stage4(Stage3(Stage2(Stage1(">"))))) == "&gt;"
  {
    ReplaceCharAbsent(">", '&', "&amp;");
    ReplaceCharAbsent(">", '<', "&lt;");
    ReplaceCharHit('>', "&gt;");
    Keep4("&gt;");
  }

  lemma QuotChar()
    ensures Stage5(Stage4(Stage3(Stage2(Stage1("\""))))) == "&quot;"
  {
    ReplaceCharAbsent("\"", '&', "&amp;");
    ReplaceCharAbsent("\"", '<', "&lt;");
    ReplaceCharAbsent("\"", '>', "&gt;");
    ReplaceCharHit('"', "&quot;");
    Keep5("&quot;");
  }

  lemma AposChar()
    ensures Stage5(Stage4(Stage3(Stage2(Stage1("'"))))) == "&#39;"
  {
    ReplaceCharAbsent("'", '&', "&amp;");
    ReplaceCharAbsent("'", '<', "&lt;");
    ReplaceCharAbsent("'", '>', "&gt;");
    ReplaceCharAbsent("'", '"', "&quot;");
    ReplaceCharHit('\'', "&#39;");
  }

  /** Escaping one character goes through the five replacements in turn;
      no entity holds a character a later replacement targets. */
  lemma EscapeTextChar(c: char)
    ensures EscapeText([c]) == HtmlEntity(c)
  {
    EscapeTextStages([c]);
    if c == '&' { AmpChar(); }
    else if c == '<' { LtChar(); }
    else if c == '>' { GtChar(); }
    else if c == '"' { QuotChar(); }
    else if c == '\'' { AposChar(); }
    else { PlainChar(c); }
  }

  /** The chain of replacements is one character map: each special character
      becomes its entity and every other character stays as it is. */
  lemma {:induction false} EscapeTextIsCharMap(s: string)
    ensures EscapeText(s) == FlatMap(s, HtmlEntity)
    decreases |s|
  {
    if s == [] {
      assert EscapeText(s) == "" by {
        ReplaceCharAbsent(s, '&', "&amp;");
        ReplaceCharAbsent(s, '<', "&lt;");
        ReplaceCharAbsent(s, '>', "&gt;");
        ReplaceCharAbsent(s, '"', "&quot;");
        ReplaceCharAbsent(s, '\'', "&#39;");
      }
    } else {
      assert s == [s[0]] + s[1..];
      EscapeTextConcat([s[0]], s[1..]);
      EscapeTextChar(s[0]);
      EscapeTextIsCharMap(s[1..]);
    }
  }

  predicate Markup(c: char) {
    c == '<' || c == '>' || c == '"' || c == '\''
  }

  /** Escaped text holds none of `<`, `>`, `"` and `'` raw. */
  lemma {:induction false} EscapedHasNoMarkup(s: string)
    ensures forall i :: 0 <= i < |EscapeText(s)| ==> !Markup(EscapeText(s)[i])
    decreases |s|
  {
    EscapeTextIsCharMap(s);
    if s != [] {
      EscapedHasNoMarkup(s[1..]);
      EscapeTextIsCharMap(s[1..]);
      EntityHasNoMarkup(s[0]);
      assert FlatMap(s, HtmlEntity) == HtmlEntity(s[0]) + FlatMap(s[1..], HtmlEntity);
      NoMarkupConcat(HtmlEntity(s[0]), FlatMap(s[1..], HtmlEntity));
    }
  }

  predicate NoMarkup(t: string) {
    forall i :: 0 <= i < |t| ==> !Markup(t[i])
  }

  lemma EntityHasNoMarkup(c: char)
    ensures NoMarkup(HtmlEntity(c))
  {
    if c == '&' { assert HtmlEntity(c) == "&amp;"; }
    else if c == '<' { assert HtmlEntity(c) == "&lt;"; }
    else if c == '>' { assert HtmlEntity(c) == "&gt;"; }
    else if c == '"' { assert HtmlEntity(c) == "&quot;"; }
    else if c == '\'' { assert HtmlEntity(c) == "&#39;"; }
  }

  lemma NoMarkupConcat(a: string, b: string)
    requires NoMarkup(a) && NoMarkup(b)
    ensures NoMarkup(a + b)
  {
    assert forall i :: 0 <= i < |a + b| ==> (a + b)[i] == if i < |a| then a[i] else b[i - |a|];
  }

  /** Reading HTML text back: the five entities decode, everything else is literal. */
  function HtmlUnescape(t: string): string
    decreases |t|
  {
    if StartsWith(t, "&amp;") then "&" + HtmlUnescape(t[5..])
    else if StartsWith(t, "&lt;") then "<" + HtmlUnescape(t[4..])
    else if StartsWith(t, "&gt;") then ">" + HtmlUnescape(t[4..])
    else if StartsWith(t, "&quot;") then "\"" + HtmlUnescape(t[6..])
    else if StartsWith(t, "&#39;") then "'" + HtmlUnescape(t[5..])
    else if t == [] then []
    else [t[0]] + HtmlUnescape(t[1..])
  }

  lemma UnescapeEntity(c: char, rest: string)
    ensures HtmlUnescape(HtmlEntity(c) + rest) == [c] + HtmlUnescape(rest)
  {
    if c == '&' { UnescapeAmp(rest); }
    else if c == '<' { UnescapeLt(rest); }
    else if c == '>' { UnescapeGt(rest); }
    else if c == '"' { UnescapeQuot(rest); }
    else if c == '\'' { UnescapeApos(rest); }
    else {
      var t := [c] + rest;
      assert t[0] == c && t[1..] == rest;
      assert !StartsWith(t, "&amp;") && !StartsWith(t, "&lt;") && !StartsWith(t, "&gt;");
      assert !StartsWith(t, "&quot;") && !StartsWith(t, "&#39;");
    }
  }

  lemma UnescapeAmp(rest: string)
    ensures HtmlUnescape("&amp;" + rest) == "&" + HtmlUnescape(rest)
  {
    var t := "&amp;" + rest;
    assert t[..5] == "&amp;" && t[5..] == rest;
  }

  lemma UnescapeLt(rest: string)
    ensures HtmlUnescape("&lt;" + rest) == "<" + HtmlUnescape(rest)
  {
    var t := "&lt;" + rest;
    assert t[1] == 'l';
    assert !StartsWith(t, "&amp;");
    assert t[..4] == "&lt;" && t[4..] == rest;
  }

  lemma UnescapeGt(rest: string)
    ensures HtmlUnescape("&gt;" + rest) == ">" + HtmlUnescape(rest)
  {
    var t := "&gt;" + rest;
    assert t[1] == 'g';
    assert !StartsWith(t, "&amp;") && !StartsWith(t, "&lt;");
    assert t[..4] == "&gt;" && t[4..] == rest;
  }

  lemma UnescapeQuot(rest: string)
    ensures HtmlUnescape("&quot;" + rest) == "\"" + HtmlUnescape(rest)
  {
    var t := "&quot;" + rest;
    assert t[1] == 'q';
    assert !StartsWith(t, "&amp;") && !StartsWith(t, "&lt;") && !StartsWith(t, "&gt;");
    assert t[..6] == "&quot;" && t[6..] == rest;
  }

  lemma UnescapeApos(rest: string)
    ensures HtmlUnescape("&#39;" + rest) == "'" + HtmlUnescape(rest)
  {
    var t := "&#39;" + rest;
    assert t[1] == '#';
    assert !StartsWith(t, "&amp;") && !StartsWith(t, "&lt;") && !StartsWith(t, "&gt;") && !StartsWith(t, "&quot;");
    assert t[..5] == "&#39;" && t[5..] == rest;
  }

  /** Unescaping undoes escaping for every text. */
  lemma {:induction false} EscapeTextRoundTrip(s: string)
    ensures HtmlUnescape(EscapeText(s)) == s
    decreases |s|
  {
    EscapeTextIsCharMap(s);
    if s != [] {
      EscapeTextRoundTrip(s[1..]);
      EscapeTextIsCharMap(s[1..]);
      UnescapeEntity(s[0], FlatMap(s[1..], HtmlEntity));
      assert s == [s[0]] + s[1..];
    }
  }

  // ---------- pad2 ----------

  /** `pad2(n)`: `String(n).padStart(2, "0")`. */
  function Pad2(n: int): string {
    PadStart2(IntToStr(n))
  }

  /** At least two characters; a natural number reads back as itself, with one
      leading zero below ten; a negative number is never padded. */
  lemma Pad2Meaning(n: int)
    ensures |Pad2(n)| >= 2
    ensures n >= 0 ==> AllDigits(Pad2(n)) && DigitsValue(Pad2(n)) == n
    ensures 0 <= n < 10 ==> Pad2(n) == "0" + NatToStr(n)
    ensures (n >= 10 || n < 0) ==> Pad2(n) == IntToStr(n)
  {
    if n >= 0 {
      PadStart2OfNat(n);
    }
  }

  // ---------- the countdown ----------

  /** `target - now`, clamped at zero (`if (diff <= 0) diff = 0`). */
  function MsLeft(target: int, now: int): nat {
    if target - now <= 0 then 0 else target - now
  }

  /** The four fields of `tick`, each from the milliseconds left:
      `diff / 86_400_000`, `diff % 86_400_000 / 3_600_000`, … */
  function Breakdown(ms: nat): Clock {
    Clock(ms / 86400000, ms % 86400000 / 3600000, ms % 3600000 / 60000, ms % 60000 / 1000)
  }

  /** The millisecond arithmetic gives the clock of the whole seconds left:
      the fields are in range and add up to `floor(ms / 1000)` seconds. */
  lemma BreakdownIsClockOfSeconds(ms: nat)
    ensures Breakdown(ms) == ClockOf(ms / 1000)
    ensures InRange(Breakdown(ms)) && TotalSeconds(Breakdown(ms)) == ms / 1000
  {
    var k := ClockOf(ms / 1000);
    var r := ms % 1000;
    var r3 := 1000 * k.seconds + r;
    var r2 := 60000 * k.minutes + r3;
    var r1 := 3600000 * k.hours + r2;
    assert ms == 86400000 * k.days + r1;
    DivUnique(ms, 86400000, k.days, r1);
    DivUnique(r1, 3600000, k.hours, r2);
    DivUnique(ms, 3600000, 24 * k.days + k.hours, r2);
    DivUnique(r2, 60000, k.minutes, r3);
    DivUnique(ms, 60000, 1440 * k.days + 60 * k.hours + k.minutes, r3);
    DivUnique(r3, 1000, k.seconds, r);
  }

  /** The older front ends show the same countdown as the schedule page. */
  lemma SameCountdownAsSchedulePage(target: int, now: int)
    ensures Breakdown(MsLeft(target, now)) == ClockOf(SecondsLeft(target, now))
  {
    var ms := MsLeft(target, now);
    BreakdownIsClockOfSeconds(ms);
    if target - now <= 0 {
      assert (target - now) / 1000 <= 0;
      assert SecondsLeft(target, now) == 0 == ms / 1000;
    } else {
      assert SecondsLeft(target, now) == ms / 1000;
    }
  }

  /** `startCountdown` / `startCD` and their `tick`: the interval timer and the
      four fields it writes. */
  class Countdown {
    var target: Option<int>
    var running: bool
    var fields: seq<string>

    constructor()
      ensures target.None? && !running && fields == []
    {
      target := None;
      running := false;
      fields := [];
    }

    /** `startCountdown(target)`: nothing for an invalid date; otherwise one
        tick now and a fresh one-second timer (set after the first tick, so it
        runs even when that tick reached zero). */
    method Start(t: Option<int>, now: int)
      modifies this
      ensures t.None? ==> target == old(target) && running == old(running) && fields == old(fields)
      ensures t.Some? ==> target == t && running && fields == Fields(Breakdown(MsLeft(t.value, now)))
    {
      if t.None? {
        return;
      }
      target := t;
      Tick(now);
      running := true;
    }

    /** `tick()`: the fields for `now`, stopping the timer when nothing is left. */
    method Tick(now: int)
      requires target.Some?
      modifies this
      ensures target == old(target)
      ensures fields == Fields(Breakdown(MsLeft(target.value, now)))
      ensures running == (old(running) && MsLeft(target.value, now) != 0)
    {
      var ms := MsLeft(target.value, now);
      var clock := Breakdown(ms);
      fields := Fields(clock);
      running := running && ms != 0;
    }
  }

  /** Once the target has passed, every later tick shows all zeros. */
  lemma PastTargetShowsZero(target: int, now: int, later: int)
    requires target <= now <= later
    ensures MsLeft(target, later) == 0 && Breakdown(MsLeft(target, later)) == Clock(0, 0, 0, 0)
  {
  }

  // ---------- the Google Calendar link ----------

  /** `.replace(/[-:]/g, "")` */
  function DropDashColon(s: string): string
    decreases |s|
  {
    if s == [] then []
    else if s[0] == '-' || s[0] == ':' then DropDashColon(s[1..])
    else [s[0]] + DropDashColon(s[1..])
  }

  /** `toICS(d)`: `d.toISOString().replace(/[-:]/g, "").replace(".000Z", "Z")`. */
  function CompactStamp(iso: string): string {
    ReplaceFirst(DropDashColon(iso), ".000Z", "Z")
  }

  lemma {:induction false} DropKeepsRun(p: string, rest: string)
    requires '-' !in p && ':' !in p
    ensures DropDashColon(p + rest) == p + DropDashColon(rest)
    decreases |p|
  {
    if p == [] {
      assert p + rest == rest;
    } else {
      assert p == [p[0]] + p[1..];
      assert (p + rest)[0] == p[0];
      assert (p + rest)[1..] == p[1..] + rest;
      DropKeepsRun(p[1..], rest);
    }
  }

  /** From position `i`, the run up to the separator at `j` is kept and the separator dropped. */
  lemma DropRunThenSeparator(u: string, i: int, j: int)
    requires 0 <= i <= j < |u| && (u[j] == '-' || u[j] == ':')
    requires forall k :: i <= k < j ==> u[k] != '-' && u[k] != ':'
    ensures DropDashColon(u[i..]) == u[i..j] + DropDashColon(u[j + 1..])
  {
    assert u[i..] == u[i..j] + u[j..];
    DropKeepsRun(u[i..j], u[j..]);
    assert u[j..][1..] == u[j + 1..];
  }

  /** Dropping the separators of a `toISOString` result leaves the basic
      date and time with the fraction still attached. */
  lemma DropOfIso(u: string)
    requires IsoShaped(u)
    ensures DropDashColon(u) == BasicForm(u)[..15] + u[19..]
  {
    IsoRuns(u);
    assert u[0..] == u;
    DropRunThenSeparator(u, 0, 4);
    DropRunThenSeparator(u, 5, 7);
    DropRunThenSeparator(u, 8, 13);
    DropRunThenSeparator(u, 14, 16);
    DropKeepsRun(u[17..], []);
    assert u[17..] + [] == u[17..] == u[17..19] + u[19..];
    BasicFormRuns(u, u[19..]);
  }

  /** The only separators of a `toISOString` result are the four at 4, 7, 13 and 16. */
  lemma IsoRuns(u: string)
    requires IsoShaped(u)
    ensures forall k :: 0 <= k < |u| && k != 4 && k != 7 && k != 13 && k != 16 ==> u[k] != '-' && u[k] != ':'
    ensures '-' !in u[17..] && ':' !in u[17..]
  {
    forall k | 17 <= k < |u| ensures u[k] != '-' && u[k] != ':' {
      if k != 19 && k != 23 { assert IsDigit(u[k]); }
    }
    assert forall k :: 0 <= k < |u[17..]| ==> u[17..][k] == u[17 + k];
  }

  /** A whole-second instant gets the basic UTC form of section 3.3.5 of
      RFC 5545; any other instant keeps its `.sss` fraction. */
  lemma CompactStampOfIso(u: string)
    requires IsoShaped(u)
    ensures u[20..23] == "000" ==> CompactStamp(u) == BasicForm(u) && BasicUtcDateTime(CompactStamp(u))
    ensures u[20..23] != "000" ==> CompactStamp(u) == BasicForm(u)[..15] + u[19..]
  {
    DropOfIso(u);
    var head := BasicForm(u)[..15];
    assert '.' !in head by {
      BasicFormShape(u);
      forall k | 0 <= k < 15 ensures head[k] != '.' {
        assert head[k] == BasicForm(u)[k];
      }
    }
    ReplaceFirstSkips(head, u[19..], ".000Z", "Z");
    var frac := u[19..];
    if u[20..23] == "000" {
      assert |frac| == 5 && frac[0] == '.' && frac[4] == 'Z';
      assert frac[1] == u[20..23][0] && frac[2] == u[20..23][1] && frac[3] == u[20..23][2];
      assert frac == ".000Z";
      assert BasicForm(u) == head + "Z";
      BasicFormShape(u);
    } else {
      assert !StartsWith(frac, ".000Z") by { assert frac[1..4] == u[20..23]; }
      assert '.' !in frac[1..] by {
        forall k | 0 <= k < |frac[1..]| ensures frac[1..][k] != '.' {
          assert frac[1..][k] == u[20 + k];
          if k < 3 { assert IsDigit(u[20 + k]); }
        }
      }
      ReplaceFirstSkips(frac[1..], [], ".000Z", "Z");
      assert frac[1..] + [] == frac[1..];
      assert frac == [frac[0]] + frac[1..];
    }
  }

  /** The link both front ends build for a valid start instant:
      the title, URI-encoded, and the start and the start plus three hours. */
  function CalendarUrl(title: string, start: int, toIso: int -> string, encode: string -> string): string {
    "https://www.google.com/calendar/render?action=TEMPLATE&text=" + encode(title)
      + "&dates=" + CompactStamp(toIso(start)) + "/" + CompactStamp(toIso(start + ThreeHoursMs))
  }

  /** A link is never the placeholder "#". */
  lemma CalendarUrlStart(title: string, start: int, toIso: int -> string, encode: string -> string)
    ensures CalendarUrl(title, start, toIso, encode) != "#"
  {
    var head := "https://www.google.com/calendar/render?action=TEMPLATE&text=";
    assert |head| > 1;
    assert |CalendarUrl(title, start, toIso, encode)| >= |head|;
  }

  /** The `dates` parameter closes the link: two basic UTC stamps three hours
      apart, for whole-second instants. */
  lemma CalendarUrlDates(title: string, start: int, toIso: int -> string, encode: string -> string)
    requires IsoShaped(toIso(start)) && toIso(start)[20..23] == "000"
    requires IsoShaped(toIso(start + ThreeHoursMs)) && toIso(start + ThreeHoursMs)[20..23] == "000"
    ensures EndsWith(CalendarUrl(title, start, toIso, encode),
                     "&dates=" + BasicForm(toIso(start)) + "/" + BasicForm(toIso(start + ThreeHoursMs)))
    ensures BasicUtcDateTime(BasicForm(toIso(start))) && BasicUtcDateTime(BasicForm(toIso(start + ThreeHoursMs)))
    ensures StartsWith(CalendarUrl(title, start, toIso, encode), "https://www.google.com/calendar/render?")
  {
    CompactStampOfIso(toIso(start));
    CompactStampOfIso(toIso(start + ThreeHoursMs));
    var head := "https://www.google.com/calendar/render?action=TEMPLATE&text=" + encode(title);
    var tail := "&dates=" + BasicForm(toIso(start)) + "/" + BasicForm(toIso(start + ThreeHoursMs));
    assert CalendarUrl(title, start, toIso, encode) == head + tail;
    assert (head + tail)[..|"https://www.google.com/calendar/render?"|] == "https://www.google.com/calendar/render?";
  }

  /** `home ? "vs" : "at"` */
  function VsAt(home: bool): string {
    if home then "vs" else "at"
  }

  // ---------- the next-game line and the score box ----------

  /** `${fmt(when)} • ${vs|at} ${opponent}${tv ? ` • ${tv}` : ""}` */
  function NextLine(when: string, home: bool, opponent: string, tv: Value): string {
    when + " • " + VsAt(home) + " " + opponent + (if Truthy(tv) then " • " + ToStr(tv) else "")
  }

  /** The TV part appears exactly when there is a TV value. */
  lemma NextLineTv(when: string, home: bool, opponent: string, tv: Value)
    ensures StartsWith(NextLine(when, home, opponent, tv), when + " • " + VsAt(home) + " " + opponent)
    ensures !Truthy(tv) ==> NextLine(when, home, opponent, tv) == when + " • " + VsAt(home) + " " + opponent
    ensures Truthy(tv) ==> EndsWith(NextLine(when, home, opponent, tv), " • " + ToStr(tv))
  {
    var p := when + " • " + VsAt(home) + " " + opponent;
    var r := NextLine(when, home, opponent, tv);
    if Truthy(tv) {
      assert r == p + (" • " + ToStr(tv));
      assert r[..|p|] == p;
    } else {
      assert r == p + "";
    }
  }

  datatype ScoreBox = ScoreBox(dot: Dot, message: string)

  /** What `paintNext` sets before it looks at any data. */
  const ResetBox: ScoreBox := ScoreBox(Red, "No game in progress.")

  /** `(item.status || "").toLowerCase()`; `None` when the status is not a
      string, where `toLowerCase` throws a TypeError. */
  function StatusText(item: Value): Option<string> {
    var s := Or(Get(item, "status"), Str(""));
    if s.Str? then Some(ToLowerAscii(s.s)) else None
  }

  /** `Number(v ?? NaN)`: `None` is NaN. */
  function Points(v: Value): Option<int> {
    if Nullish(v) then None else ToNumber(v)
  }

  /** The status branch of `paintNext`: in progress, final, any other
      non-empty status, or the reset state for an empty one. */
  function StatusBox(status: string, us: Option<int>, them: Option<int>, home: bool, opponent: string): ScoreBox {
    if status == "in_progress" then
      ScoreBox(Green, if us.Some? && them.Some?
        then IntToStr(us.value) + " – " + IntToStr(them.value) + " " + VsAt(home) + " " + opponent
        else "Game in progress.")
    else if status == "final" then ScoreBox(Red, "Final")
    else if status != "" then ScoreBox(Yellow, "Not started.")
    else ResetBox
  }

  /** The score box after `paintNext`: a status that is not a string throws
      before the box changes, so the reset state stays. */
  function ScoreBoxOf(item: Value, home: bool, opponent: string): ScoreBox {
    match StatusText(item)
    case None => ResetBox
    case Some(s) =>
      var hp := Points(Get(item, "home_points"));
      var ap := Points(Get(item, "away_points"));
      StatusBox(s, if home then hp else ap, if home then ap else hp, home, opponent)
  }

  /** Green exactly in progress, yellow exactly for another non-empty status,
      red otherwise; an empty status keeps the reset message. A game in
      progress shows the score exactly when both points are numbers. */
  lemma StatusBoxCases(status: string, us: Option<int>, them: Option<int>, home: bool, opponent: string)
    ensures StatusBox(status, us, them, home, opponent).dot == Green <==> status == "in_progress"
    ensures StatusBox(status, us, them, home, opponent).dot == Yellow <==>
              status != "" && status != "in_progress" && status != "final"
    ensures StatusBox(status, us, them, home, opponent).dot == Red <==> status == "" || status == "final"
    ensures status == "" ==> StatusBox(status, us, them, home, opponent) == ResetBox
    ensures status == "final" ==> StatusBox(status, us, them, home, opponent).message == "Final"
    ensures status == "in_progress" ==>
              (StatusBox(status, us, them, home, opponent).message == "Game in progress." <==> us.None? || them.None?)
  {
    if status == "in_progress" && us.Some? && them.Some? {
      LiveScoreMessage(us.value, them.value, home, opponent);
    }
  }

  lemma LiveScoreMessage(us: int, them: int, home: bool, opponent: string)
    ensures var m := IntToStr(us) + " – " + IntToStr(them) + " " + VsAt(home) + " " + opponent;
      m != "Game in progress."
  {
    IntToStrStart(us);
    HeadDiffers(IntToStr(us), " – " + IntToStr(them) + " " + VsAt(home) + " " + opponent, "Game in progress.");
  }

  /** Strings whose first characters differ are different. */
  lemma HeadDiffers(a: string, b: string, t: string)
    requires a != [] && t != [] && a[0] != t[0]
    ensures a + b != t
  {
    assert (a + b)[0] == a[0];
  }


  // ---------- result text ----------

  /** `resultText(row)` with the side Tennessee plays on given: an explicit
      `result` wins; then "—" unless both `Number(points)` are finite;
      otherwise `W|L|T us-them`. */
  function PointsResult(row: Value, usHome: bool): Value {
    if Truthy(Get(row, "result")) then Get(row, "result")
    else
      var hp := ToNumber(Get(row, "home_points"));
      var ap := ToNumber(Get(row, "away_points"));
      if hp.None? || ap.None? then Str("—")
      else
        var us := if usHome then hp.value else ap.value;
        var them := if usHome then ap.value else hp.value;
        Str(WinLossTie(us, them) + " " + IntToStr(us) + "-" + IntToStr(them))
  }

  function WinLossTie(us: int, them: int): string {
    if us > them then "W" else if us < them then "L" else "T"
  }

  /** The result text's cases. */
  lemma PointsResultCases(row: Value, usHome: bool)
    ensures Truthy(Get(row, "result")) ==> PointsResult(row, usHome) == Get(row, "result")
    ensures !Truthy(Get(row, "result")) &&
            (ToNumber(Get(row, "home_points")).None? || ToNumber(Get(row, "away_points")).None?) ==>
              PointsResult(row, usHome) == Str("—")
    ensures !Truthy(Get(row, "result")) && Get(row, "home_points") == Num(28) && Get(row, "away_points") == Num(10) ==>
              PointsResult(row, usHome) == Str(if usHome then "W 28-10" else "L 10-28")
  {
    if !Truthy(Get(row, "result")) && Get(row, "home_points") == Num(28) && Get(row, "away_points") == Num(10) {
      assert ToNumber(Num(28)) == Some(28) && ToNumber(Num(10)) == Some(10);
      ScoreText28To10();
    }
  }

  /** A scored row without an explicit result reads `W|L|T us-them`, with
      Tennessee's side chosen by `usHome`. */
  lemma PointsResultScored(row: Value, usHome: bool, h: int, a: int)
    requires !Truthy(Get(row, "result"))
    requires ToNumber(Get(row, "home_points")) == Some(h) && ToNumber(Get(row, "away_points")) == Some(a)
    ensures var us := if usHome then h else a;
      var them := if usHome then a else h;
      var r := PointsResult(row, usHome);
      && r.Str? && |r.s| >= 2
      && (r.s[0] == 'W' <==> us > them)
      && (r.s[0] == 'L' <==> us < them)
      && (r.s[0] == 'T' <==> us == them)
      && r.s[1] == ' '
      && r.s[2..] == IntToStr(us) + "-" + IntToStr(them)
  {
    var us := if usHome then h else a;
    var them := if usHome then a else h;
    var t := WinLossTie(us, them) + " " + IntToStr(us) + "-" + IntToStr(them);
    assert t == (WinLossTie(us, them) + " ") + (IntToStr(us) + "-" + IntToStr(them));
  }

  /** The two texts a 28-10 score can give. */
  lemma ScoreText28To10()
    ensures WinLossTie(28, 10) + " " + IntToStr(28) + "-" + IntToStr(10) == "W 28-10"
    ensures WinLossTie(10, 28) + " " + IntToStr(10) + "-" + IntToStr(28) == "L 10-28"
  {
    assert IntToStr(28) == "28" && IntToStr(10) == "10";
  }

  /** As written, a row whose points are JSON `null` (an unplayed game) is
      scored as a 0-0 tie, because `Number(null)` is 0. */
  lemma NullPointsReadAsTie(row: Value, usHome: bool)
    requires !Truthy(Get(row, "result")) && Get(row, "home_points") == Null && Get(row, "away_points") == Null
    ensures PointsResult(row, usHome) == Str("T 0-0")
  {
    assert IntToStr(0) == "0";
  }

  /** The evidently intended result text: only points that are present and
      numeric make a score. */
  function PointsResultCorrected(row: Value, usHome: bool): (r: Value)
    ensures Truthy(Get(row, "result")) ==> r == Get(row, "result")
  {
    if Truthy(Get(row, "result")) then Get(row, "result")
    else
      var hp := Points(Get(row, "home_points"));
      var ap := Points(Get(row, "away_points"));
      if hp.None? || ap.None? then Str("—")
      else
        var us := if usHome then hp.value else ap.value;
        var them := if usHome then ap.value else hp.value;
        Str(WinLossTie(us, them) + " " + IntToStr(us) + "-" + IntToStr(them))
  }

  /** Corrected: a dash exactly when a point is missing, null or not a number;
      otherwise the same text as written. */
  lemma PointsResultCorrectedCases(row: Value, usHome: bool)
    ensures !Truthy(Get(row, "result")) ==>
              (PointsResultCorrected(row, usHome) == Str("—") <==>
                 Points(Get(row, "home_points")).None? || Points(Get(row, "away_points")).None?)
    ensures Points(Get(row, "home_points")).Some? && Points(Get(row, "away_points")).Some? ==>
              PointsResultCorrected(row, usHome) == PointsResult(row, usHome)
  {
    if !Truthy(Get(row, "result")) {
      var hp := Points(Get(row, "home_points"));
      var ap := Points(Get(row, "away_points"));
      if hp.Some? && ap.Some? {
        var us := if usHome then hp.value else ap.value;
        var them := if usHome then ap.value else hp.value;
        var t := WinLossTie(us, them) + " " + IntToStr(us) + "-" + IntToStr(them);
        assert t[0] != "—"[0];
      }
    }
  }

  // ---------- the panel paintNext writes ----------

  /** The page elements `paintNext` writes: the score dot and message, the
      next-game line and venue, the calendar link, and the date last handed
      to the countdown (`None` is null). */
  class ScorePanel {
    var dot: Dot
    var message: string
    var nextLine: string
    var nextVenue: string
    var calendarHref: string
    var countdownDate: Option<int>

    constructor()
      ensures dot == Red && message == "" && nextLine == "" && nextVenue == "" && calendarHref == "#"
      ensures countdownDate.None?
    {
      dot := Red;
      message := "";
      nextLine := "";
      nextVenue := "";
      calendarHref := "#";
      countdownDate := None;
    }

    /** The default states `paintNext` sets first. */
    method Reset()
      modifies this
      ensures dot == ResetBox.dot && message == ResetBox.message
      ensures nextLine == "No upcoming game found." && nextVenue == "" && calendarHref == "#"
      ensures countdownDate == old(countdownDate)
    {
      dot := ResetBox.dot;
      message := ResetBox.message;
      nextLine := "No upcoming game found.";
      nextVenue := "";
      calendarHref := "#";
    }

    method ShowBox(box: ScoreBox)
      modifies this
      ensures dot == box.dot && message == box.message
      ensures nextLine == old(nextLine) && nextVenue == old(nextVenue) && calendarHref == old(calendarHref)
      ensures countdownDate == old(countdownDate)
    {
      dot := box.dot;
      message := box.message;
    }

    /** The next-game line, the venue and the countdown target, set together. */
    method ShowNextLine(line: string, venue: string, when: Option<int>)
      modifies this
      ensures dot == old(dot) && message == old(message) && calendarHref == old(calendarHref)
      ensures nextLine == line && nextVenue == venue && countdownDate == when
    {
      nextLine := line;
      nextVenue := venue;
      countdownDate := when;
    }

    /** The calendar link alone. */
    method ShowLink(href: string)
      modifies this
      ensures dot == old(dot) && message == old(message)
      ensures nextLine == old(nextLine) && nextVenue == old(nextVenue) && countdownDate == old(countdownDate)
      ensures calendarHref == href
    {
      calendarHref := href;
    }
  }
}

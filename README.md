# Gameday hub: a Dafny model of its data pipeline and page logic

This project models the decision logic of the editorial sportspage gameday
hub, a static site about Tennessee football. The model covers six parts:

- **Feed ingestion.** `scripts/fetch-cfbd.mjs` turns the College Football
  Data feed into a schedule. It picks the next and the last game, writes
  iCalendar files and writes artifacts only when their content changed.
- **Schedule page.** `assets/js/app.mjs` holds tolerant field helpers, the
  schedule row text, win/loss/tie counting, the status dot, the top-strip
  game choice and the countdown.
- **Two older front ends.** `js/main.js` and its debug build
  `js/main.debug.js` hold the result text, the opponent, the calendar deep
  link, HTML escaping, the countdown and `paintNext`.
- **Data validator.** `scripts/validate-data.mjs` checks the emitted files.
- **Deal form and tutorial tabs.** `js/vendor.js` holds the checklist tests,
  the completion percentage, submit enabling and keyboard navigation.

Values read from JSON are the datatype `Js.Value`. A missing property is
`Undefined`, and numeric coercion yields `Option<int>`, where `None` stands
for NaN.

Instants are integer milliseconds. Anything that depends on the host is a
parameter of the operation that uses it:

- the current time `now`;
- the date parser `parse` (`new Date(s).getTime()`);
- `toISOString` (`toIso`);
- `encodeURIComponent` (`encode`);
- the locale formatter `fmt`.

A call that throws in JavaScript is an explicit outcome. It is `None`, or
`InvalidDate`, `SeasonThrows` or `Crashed`.

State that the scripts update in place is modelled as classes:

- the artifact store, `FetchCfbd.ArtifactStore`;
- the page elements `paintNext` writes, `Legacy.ScorePanel`;
- the countdown timer, `Legacy.Countdown`;
- the tab list, `Vendor.TabList`, whose selected, tabIndex and hidden
  attributes are arrays;
- the checklist, `Vendor.Checklist`.

Loops in the source become methods with loop invariants. These are
`icsForSeason`, `getWithRetry`, `computeTeamStats`, the validator's message
loop, `activate` and `renderChecklist`.

Modules:

| module | models |
|---|---|
| `Js` | the JavaScript values and coercions the scripts rely on |
| `Strs` | string helpers: trimming, lower-casing, joining and splitting on CRLF, digits |
| `Sorting` | a stable sort by an optional numeric key with ECMAScript comparator semantics, and `find` |
| `Stamps` | `toISOString` shapes and the basic DATE-TIME form of section 3.3.5 of RFC 5545 |
| `Widgets` | the day/hour/minute/second clock every countdown shows |
| `FetchCfbd` | scripts/fetch-cfbd.mjs |
| `App` | assets/js/app.mjs |
| `Legacy` | what js/main.js and js/main.debug.js share |
| `MainDebug` | js/main.debug.js |
| `MainJs` | js/main.js |
| `ValidateData` | scripts/validate-data.mjs |
| `Vendor` | js/vendor.js |

## Model

| member | source | states |
|---|---|---|
| FetchCfbd.Pick | scripts/fetch-cfbd.mjs:53 | null when every listed key is nullish; otherwise the value of the first key whose value is neither null nor undefined; never undefined |
| FetchCfbd.PickEmptyStringIsPresent | scripts/fetch-cfbd.mjs:53 | an empty string counts as present and is returned; an object with none of the keys gives null |
| FetchCfbd.NormalizeGame | scripts/fetch-cfbd.mjs:56-73 | a raw date with `Thh:mm` becomes `start_time`, and its first 10 characters become `start_date`; otherwise `start_time` is null and `start_date` is the raw value as a string, or null; each team is the first present of its three keys, else `""`; the points and tv are the first present of their keys, else null; id, week, status and venue are kept when present and null otherwise; `neutral_site` is the truthiness of the first present neutral key |
| FetchCfbd.KickoffIso | scripts/fetch-cfbd.mjs:74 | `start_time` when truthy; otherwise `start_date + "T16:00:00Z"`; falsy exactly when both are falsy |
| FetchCfbd.KickoffOfNormalized | scripts/fetch-cfbd.mjs:56-74 | after normalisation the kickoff is the raw time-bearing value, or the date-only value with `T16:00:00Z`, or nothing when the raw date is falsy |
| FetchCfbd.WithTimestamps | scripts/fetch-cfbd.mjs:78-79 | exactly the games with a truthy kickoff, each paired with its parsed instant |
| FetchCfbd.SortedStamps | scripts/fetch-cfbd.mjs:78-80 | a permutation (same multiset) of the timestamped games; sorted by instant when every kickoff string parses |
| FetchCfbd.NextIndex | scripts/fetch-cfbd.mjs:81 | the first entry whose instant is after `now`, or none when no entry is |
| FetchCfbd.LastIndex | scripts/fetch-cfbd.mjs:88 | the last entry whose instant is at or before `now`, or none when no entry is |
| FetchCfbd.PickNextGameIsEarliestFuture | scripts/fetch-cfbd.mjs:76-82 | null exactly when no game kicks off after `now`; otherwise a scheduled game that kicks off after `now`, and when every kickoff parses the one with the smallest such kickoff; an undated game is never chosen |
| FetchCfbd.PickLastGameIsLatestPast | scripts/fetch-cfbd.mjs:83-89 | null exactly when no game kicks off at or before `now`; otherwise a scheduled game that kicks off at or before `now`, and when every kickoff parses the one with the largest such kickoff |
| FetchCfbd.NextAndLastDiffer | scripts/fetch-cfbd.mjs:76-89 | for one `now` the two pickers never return the same game |
| FetchCfbd.NormalizeAll | scripts/fetch-cfbd.mjs:149 | one normalised game per raw game, in order |
| FetchCfbd.SortSchedule | scripts/fetch-cfbd.mjs:149-153 | a permutation of the games; in ascending key order when every key parses |
| FetchCfbd.BuildSchedule | scripts/fetch-cfbd.mjs:147-153 | for an array feed, a permutation of its normalised games; an empty schedule for anything else; a throw exactly when an element is null or undefined |
| FetchCfbd.ScheduleUndatedLast | scripts/fetch-cfbd.mjs:150-153 | when every kickoff parses before the 2100 sentinel, undated games come after all dated ones |
| FetchCfbd.IcsEscIsCharMap | scripts/fetch-cfbd.mjs:92 | `icsEsc` maps each character on its own: `,` and `;` get a backslash, a newline becomes `\n`, every other character is kept |
| FetchCfbd.IcsEscRoundTrip | scripts/fetch-cfbd.mjs:92 | for text without backslashes, TEXT unescaping (section 3.3.11 of RFC 5545) gives back the original |
| FetchCfbd.IcsEscConflatesBackslash | scripts/fetch-cfbd.mjs:92 | a literal backslash-n and a newline escape alike, so the escape is not injective when backslashes occur |
| FetchCfbd.IcsEscNoLineFeed | scripts/fetch-cfbd.mjs:92 | escaped text holds no line feed, so it stays on one content line |
| FetchCfbd.IcsStampOfIso | scripts/fetch-cfbd.mjs:93 | for a `toISOString` result, `icsStamp` gives the basic UTC DATE-TIME `YYYYMMDDTHHMMSSZ` |
| FetchCfbd.DescriptionNeedsNoEscape | scripts/fetch-cfbd.mjs:113 | the DESCRIPTION text comes out unchanged |
| FetchCfbd.PlainTextUnescaped | scripts/fetch-cfbd.mjs:92 | non-empty text without `,`, `;` or newlines is not changed by escaping |
| FetchCfbd.IcsForGameNullIffNoKickoff | scripts/fetch-cfbd.mjs:94-96 | null exactly when there is no kickoff; a throw exactly when the kickoff does not parse |
| FetchCfbd.IcsLinesShape | scripts/fetch-cfbd.mjs:100-117 | the five-line VCALENDAR header, BEGIN:VEVENT, DTSTART at the start, DTEND three hours later, a LOCATION line exactly when the venue is truthy, then END:VEVENT and END:VCALENDAR; the final empty entry is dropped |
| FetchCfbd.IcsForGameFraming | scripts/fetch-cfbd.mjs:100-117 | the CRLF-joined text starts with `BEGIN:VCALENDAR` and a CRLF, ends with a CRLF and `END:VCALENDAR`, and has no trailing CRLF |
| FetchCfbd.IcsTextFraming | scripts/fetch-cfbd.mjs:117 | the CRLF join of the lines starts with `BEGIN:VCALENDAR` and a CRLF, ends with a CRLF and `END:VCALENDAR`, and has no trailing CRLF |
| FetchCfbd.DropLines | scripts/fetch-cfbd.mjs:130 | no kept line matches the filter's test, no line is added, and when no line matches every line is kept |
| FetchCfbd.DropLinesMembers | scripts/fetch-cfbd.mjs:130 | a line is kept exactly when it is one of the input lines and the test does not match it |
| FetchCfbd.DropLinesConcat | scripts/fetch-cfbd.mjs:130 | filtering distributes over concatenation, so the kept lines keep their input order |
| FetchCfbd.LooseDropOfIcsLines | scripts/fetch-cfbd.mjs:128-131 | the filter as written removes a game's five header lines and its closing line, and of the lines between them keeps those its test does not match |
| FetchCfbd.IcsForSeason | scripts/fetch-cfbd.mjs:119-135 | throws exactly when some game's calendar throws; otherwise the header, the lines of each dated game's calendar that the filter as written keeps, in schedule order, then `END:VCALENDAR` and an empty line, CRLF-joined |
| FetchCfbd.AddGame | scripts/fetch-cfbd.mjs:127-132 | one loop step: the blocks grow by the lines of the next game's text that the filter as written keeps, or skip an undated game |
| FetchCfbd.SeasonEventsThrowPersists | scripts/fetch-cfbd.mjs:127-132 | once a game throws, the whole season export throws |
| FetchCfbd.SeasonEventsStep | scripts/fetch-cfbd.mjs:127-132 | the events of one more game: unchanged when undated, a throw when invalid, otherwise the lines of its text that the filter as written keeps, appended |
| FetchCfbd.SeasonTextFraming | scripts/fetch-cfbd.mjs:120-134 | the season text starts with `BEGIN:VCALENDAR` and a CRLF and ends with `END:VCALENDAR` and a CRLF |
| FetchCfbd.SeasonKeepsVEvent | scripts/fetch-cfbd.mjs:128-131 | for a game whose calendar lines hold no CRLF (an `id` or `week` with a CRLF inside is not covered), splitting a game's text on CRLF and filtering leaves the lines of its VEVENT block, BEGIN:VEVENT to END:VEVENT, that contain no frame property; the whole block, and what the anchored filter keeps, exactly when none contains one |
| FetchCfbd.DropFrameOfIcsLines | scripts/fetch-cfbd.mjs:130 | corrected filter: exactly the VEVENT block survives, location line included |
| FetchCfbd.FrameFilterDropsLocation | scripts/fetch-cfbd.mjs:130 | as written, a LOCATION line holding `VERSION:` matches the filter, although it is no frame line |
| FetchCfbd.HallVenueIsDropped | scripts/fetch-cfbd.mjs:130 | the venue `Hall VERSION: 2` is such a case |
| FetchCfbd.RetryWait | scripts/fetch-cfbd.mjs:42-43 | `retry-after × 1000` when the header is set; NaN for a non-numeric header; `min(30000, 2000 × attempt)` otherwise |
| FetchCfbd.BackoffBounds | scripts/fetch-cfbd.mjs:43 | without the header the wait lies between 2 s and 30 s, never shrinks and is `2000 × attempt` up to attempt 15 |
| FetchCfbd.GetWithRetry | scripts/fetch-cfbd.mjs:37-50 | retries only on 429 or 5xx and only while `attempt < tries`, with the computed waits; then gives up, fails on any other non-OK status or bad JSON, or returns the body |
| FetchCfbd.ArtifactStore.WriteText | scripts/fetch-cfbd.mjs:30-36 | the file holds the text afterwards; reports a write exactly when the old content differed; equal content leaves the store untouched |
| FetchCfbd.ArtifactStore.WriteJson | scripts/fetch-cfbd.mjs:23-29 | the same rule for the serialised JSON followed by a newline |
| FetchCfbd.ArtifactStore.WriteAll | scripts/fetch-cfbd.mjs:154-189 | the writes applied in order; `wrote` stays false exactly when every write found its content already in place |
| FetchCfbd.RerunWritesNothing | scripts/fetch-cfbd.mjs:23-36 | running the same distinct writes a second time reports no write and changes nothing more |
| FetchCfbd.ApplyWritesUnchanged | scripts/fetch-cfbd.mjs:23-36 | writes that each find their content in place leave the store as it was |
| App.PickIso | assets/js/app.mjs:116 | the first non-nullish field among `start_time`, `start_date`, `date` and `kickoff`, otherwise null |
| App.FormatTimeLikeCases | assets/js/app.mjs:119-129 | "TBA" for a falsy value, for TBA/TBD/N/A in any case, or for an unparseable value; a date-only value is read at `T12:00:00Z` and shown without a time |
| App.TbdAnyCase | assets/js/app.mjs:120 | `TBD`, `tBa` and `n/A` all give "TBA" |
| App.TeamName | assets/js/app.mjs:131 | of an object the first present of `school`, `team` and `name`, else the object itself; a plain value itself; `""` for nullish; never nullish |
| App.OppForUTIsOpponent | assets/js/app.mjs:135-139 | `""` when both teams are empty; the away team when the home team matches /tennessee/i; otherwise the home team, which then is not Tennessee |
| App.HomeAwayCases | assets/js/app.mjs:140-143 | one of Home, Away, Neutral and —; Home exactly on a home match; — exactly when the home team is empty and the game not neutral |
| App.PickTV | assets/js/app.mjs:144 | the first non-nullish of `tv`, `television`, `broadcast`, each stated, and "—" when none is present; never nullish |
| App.ResultForRowBlank | assets/js/app.mjs:145-148 | the row's result is `""` exactly when both scores are absent |
| App.ScoreSides | assets/js/app.mjs:146-151 | with `hp`/`ap` the snake-case points coalesced with the camel-case ones: no score iff both are nullish; otherwise Tennessee's score is `ap` when the away team matches /tennessee/i and `hp` when it does not, the other being the opponent's |
| App.RowTextShape | assets/js/app.mjs:152-153 | a result reads `W`, `L` or `T`, a blank, then Tennessee's score and an en dash |
| App.TagFollowsScore | assets/js/app.mjs:152 | W when Tennessee scored more, L when less, T on equal scores |
| App.RecordAddsUp | assets/js/app.mjs:158-169 | every scored game counts as exactly one of win, loss and tie |
| App.ComputeTeamStats | assets/js/app.mjs:158-169 | the loop's counts are the wins, losses, ties and scored games, and `w + l + t` equals the scored games |
| App.DotForTimingOrder | assets/js/app.mjs:187-198 | a live status is green; otherwise "final" is red; otherwise green inside the five-hour window, yellow within 72 hours before it or any time after it, red otherwise; never yellow without a valid date |
| App.Tick | assets/js/app.mjs:61-74 | nothing without a target (or with target 0); otherwise the clock of the whole seconds left, clamped at zero, and its four two-digit fields |
| App.CountdownClampsAtZero | assets/js/app.mjs:64 | a target that has passed leaves zero seconds |
| App.FutureGames | assets/js/app.mjs:272-274 | exactly the schedule games whose kickoff is after `now` |
| App.WithOpponent | assets/js/app.mjs:276 | exactly the games with a non-empty opponent |
| App.Earliest | assets/js/app.mjs:277 | a member of the list with the smallest start; none for an empty list |
| App.TopStripGameChoice | assets/js/app.mjs:271-280 | a game with an id is kept; otherwise the earliest future game with a named opponent, or failing that the earliest future game; the given game when nothing lies ahead |
| App.ScheduleCompareAntisymmetric | assets/js/app.mjs:214-218 | swapping the two rows negates the comparison |
| App.ScheduleCompareCycles | assets/js/app.mjs:214-218 | three rows compare in a cycle, so the comparator is not a consistent order |
| Legacy.EscapeTextIsCharMap | js/main.js:37-43 | the five replacements, `&` first, act as one character map onto the five entities |
| Legacy.EscapedHasNoMarkup | js/main.js:37-43 | escaped text holds none of `<`, `>`, `"` and `'` raw |
| Legacy.EscapeTextRoundTrip | js/main.js:37-43 | decoding the five entities gives back the original text, so only those characters change |
| Legacy.Pad2Meaning | js/main.js:64 | at least two characters; a natural number is left-padded with "0" and reads back as itself |
| Legacy.BreakdownIsClockOfSeconds | js/main.js:104-110 | the millisecond arithmetic gives the in-range clock of the whole seconds left |
| Legacy.SameCountdownAsSchedulePage | js/main.debug.js:55-57 | the older countdown shows the same clock as the schedule page's |
| Legacy.Countdown.Start | js/main.js:93-123 | nothing for an invalid date; otherwise the timer runs and the fields show the time left |
| Legacy.Countdown.Tick | js/main.js:102-118 | the fields for `now`; the timer stops exactly when nothing is left |
| Legacy.PastTargetShowsZero | js/main.debug.js:55-60 | once the target has passed every later tick shows all zeros |
| Legacy.DropOfIso | js/main.js:380 | removing `-` and `:` from a `toISOString` result leaves the basic date-time followed by the fraction |
| Legacy.CompactStampOfIso | js/main.js:377-381 | a whole-second instant gives the basic UTC form; otherwise the milliseconds stay in the stamp |
| Legacy.CalendarUrlStart | js/main.js:383-385 | a link for a valid date is never the placeholder "#" |
| Legacy.CalendarUrlDates | js/main.debug.js:126-129 | the `dates` parameter ends the link with two basic UTC stamps, the second three hours after the first |
| Legacy.NextLineTv | js/main.js:418 | the next-game line is the date, "vs" or "at" and the opponent, followed by ` • tv` exactly when there is a TV value |
| Legacy.StatusBoxCases | js/main.js:431-452 | green exactly for `in_progress`, red for `final` or an empty status, yellow for any other; "Final" for `final`; an empty status keeps the reset box; for `in_progress` the fallback message appears exactly when a score is missing |
| Legacy.LiveScoreMessage | js/main.js:439-442 | a live score with both points is never the "Game in progress." fallback |
| Legacy.PointsResultCases | js/main.js:299-313 | an explicit result wins; otherwise "—" when either points field does not coerce to a number; 28 home and 10 away points read `W 28-10` when Tennessee is at home and `L 10-28` otherwise |
| Legacy.PointsResultScored | js/main.js:299-313 | for any row without a result whose points coerce to numbers: the text is the W, L or T tag, exactly as Tennessee's points are above, below or equal to the opponent's, a blank, then `us-them` with Tennessee's side chosen by the home flag |
| Legacy.NullPointsReadAsTie | js/main.js:304-306 | as written, null points read as a 0-0 tie |
| Legacy.PointsResultCorrectedCases | js/main.js:304-306 | corrected: "—" exactly when a point is missing, null or not a number; otherwise the same text as written |
| Legacy.ScorePanel.Reset | js/main.js:392-395 | red dot, "No game in progress.", "No upcoming game found.", an empty venue and "#" links; the countdown is not touched |
| Legacy.ScorePanel.ShowBox | js/main.js:443-451 | the dot and message change, nothing else |
| MainDebug.ResultTextSides | js/main.debug.js:131-137 | for any scored row: the W/L/T tag from the comparison and `us-them`, where `us` is the home points exactly when `is_home` or `home` is true |
| MainDebug.OpponentOfRow | js/main.debug.js:139-146 | an explicit opponent wins; `""` when either team is missing; the away team exactly on an exact "Tennessee" home team, else the home team |
| MainDebug.OpponentMatchIsExact | js/main.debug.js:143 | a lower-case "tennessee" home team is taken as the opponent |
| MainDebug.CalTitleTrim | js/main.debug.js:128 | the title is "Tennessee vs|at" and the opponent, with trailing blanks trimmed |
| MainDebug.CalHref | js/main.debug.js:125-130 | "#" without a date; a throw for a date that does not parse; a link otherwise |
| MainDebug.UpcomingRows | js/main.debug.js:182 | exactly the rows with a date no earlier than six hours ago that are not completed |
| MainDebug.DeriveNextIsEarliestUpcoming | js/main.debug.js:179-185 | a throw when a row is null; null when no row qualifies; otherwise a qualifying row with the earliest date |
| MainDebug.NextJsonWins | js/main.debug.js:178-179 | a truthy next.json is used as it is |
| MainDebug.WhenOf | js/main.debug.js:190-194 | an instant exactly when the item's date is truthy and parses |
| MainDebug.ShowNext | js/main.debug.js:188-198 | with a valid date: the line, the venue (`venue_name`, then `venue`), the countdown target and the calendar link; otherwise the panel is left as it was |
| MainDebug.ShowCalendar | js/main.debug.js:198 | the link is the item's calendar link, never "#" |
| MainDebug.PaintNext | js/main.debug.js:171-214 | the reset state when there is no item; otherwise the score box of the item's status, with the next-game line and link set exactly when the date is valid |
| MainJs.NullPointsTieInBothBuilds | js/main.js:304-306 | in both builds a row with null points and no result reads `T 0-0` |
| MainJs.IsHomeIgnored | js/main.js:308 | for any scored row marked only by `is_home`: this build reads `away-home` and wins exactly when the away points are higher, the debug build reads `home-away`; the two texts differ whenever the points do |
| MainJs.CalendarLink | js/main.js:373-386 | "#" without a date; a throw for a date that does not parse; a link otherwise |
| MainJs.TitlesOfBothBuilds | js/main.js:382 | both builds use the same title for an opponent without trailing blanks; for no opponent this build keeps the trailing blank |
| MainJs.VenueCases | js/main.js:409-413 | `venue_name`, then " — " and the city and state that are set, joined by ", "; nothing after the name when neither is set |
| MainJs.WhenOf | js/main.js:406-407 | an instant exactly when `next.date` is truthy and parses |
| MainJs.ShowNext | js/main.js:416-424 | with a valid date: the line, the venue and the countdown target; otherwise "No upcoming game found.", no venue and no target |
| MainJs.PaintNext | js/main.js:388-453 | the reset state when next.json is falsy, and also when a truthy date does not parse, because the link throws; the status box with no next-game line when there is no date; otherwise the status box, the next-game line, the venue, the countdown target and the calendar link |
| ValidateData.Validate | scripts/validate-data.mjs:7-33 | the loop's outcome is the error list the specification function `Expected` describes |
| ValidateData.CheckGames | scripts/validate-data.mjs:13-17 | throws exactly when a game is null; otherwise appends every game's messages in index order |
| ValidateData.CheckGame | scripts/validate-data.mjs:14-16 | one game adds its start, home and away messages, in that order, for the checks it fails |
| ValidateData.Tail | scripts/validate-data.mjs:20-25 | the rankings message and then the lines message, each when its file is not an array |
| ValidateData.AllGameMsgsSnoc | scripts/validate-data.mjs:13-17 | the messages of one more game are appended after those of the earlier games |
| ValidateData.TextInjective | scripts/validate-data.mjs:12-25 | distinct messages have distinct texts |
| ValidateData.GameMsgCount | scripts/validate-data.mjs:13-17 | each failed check of each game yields exactly one message carrying its index |
| ValidateData.GameMsgsInOrder | scripts/validate-data.mjs:13-17 | messages of a lower game index come first |
| ValidateData.NoGameMsgs | scripts/validate-data.mjs:13-17 | no per-game message exactly when every game has a start and both teams |
| ValidateData.ScheduleMessage | scripts/validate-data.mjs:11-12 | "schedule missing/empty" exactly for an empty schedule, and then it comes first |
| ValidateData.GameMessages | scripts/validate-data.mjs:14-16 | the error list holds each game's message for a failed check exactly once |
| ValidateData.RankingsMessage | scripts/validate-data.mjs:20-21 | "rankings not array" exactly when the file exists and is not an array; a missing file passes |
| ValidateData.LinesMessage | scripts/validate-data.mjs:24-25 | "lines not array" exactly when the file exists and is not an array, and then it comes last |
| ValidateData.Passes | scripts/validate-data.mjs:27-33 | exit code 0 exactly when the schedule is a non-empty array of complete games and both other files are arrays |
| ValidateData.CrashesExactly | scripts/validate-data.mjs:11-13 | a throw exactly when the schedule is not an array or holds a null game; a missing schedule reads as empty |
| Vendor.HeaderTick | js/vendor.js:23-31 | "NaN" fields for an invalid kickoff; "00" fields once the kickoff has passed; otherwise the clock of the whole seconds left |
| Vendor.SplitIsClock | js/vendor.js:26-29 | the `%=` steps give the in-range clock of the seconds |
| Vendor.ZeroFields | js/vendor.js:25 | a zero countdown shows four "00" fields |
| Vendor.HeaderAgreesWithSchedulePage | js/vendor.js:25 | the header's all-zero fields are what the schedule page's countdown shows for a passed kickoff |
| Vendor.KeyTarget | js/vendor.js:56-61 | every key maps to a tab index below the tab count, or to no move |
| Vendor.KeyTargetCases | js/vendor.js:57-60 | ArrowRight and ArrowDown go to `(i+1) mod n`, ArrowLeft and ArrowUp to `(i-1+n) mod n`, Home to 0, End to n−1; other keys do nothing |
| Vendor.LeftUndoesRight | js/vendor.js:57-58 | ArrowLeft after ArrowRight returns to the same tab |
| Vendor.Rights | js/vendor.js:57 | k presses of ArrowRight stay below n |
| Vendor.RightsWrap | js/vendor.js:57 | k presses of ArrowRight land on `(i+k) mod n` |
| Vendor.RightsFullCircle | js/vendor.js:57 | n presses come back to the start |
| Vendor.InitialIndex | js/vendor.js:64 | `Number(data-active) || 0`: the number when there is one, 0 for NaN |
| Vendor.TabList.Activate | js/vendor.js:42-52 | only tab i is selected, has tabIndex 0 and an unhidden panel; all others have −1 and hidden panels; focus moves only when asked |
| Vendor.TabList.OnKey | js/vendor.js:56-61 | a navigation key activates and focuses its target; any other key changes nothing |
| Vendor.OneSelected | js/vendor.js:43-48 | after `activate` at most one tab is selected, and one is exactly when i is in range |
| Vendor.EmailShapedParts | js/vendor.js:85 | a local part, "@", a host, "." and a last label, none empty and without blanks or "@", match the address pattern |
| Vendor.EmailShapedHasOneAt | js/vendor.js:85 | a matching address has no blank and exactly one "@" |
| Vendor.LocationEither | js/vendor.js:95 | the location item passes exactly when the area field or the address field has text |
| Vendor.TestFrame | js/vendor.js:89-101 | each test depends only on its own inputs |
| Vendor.DatesNeverPass | js/vendor.js:100 | the dates test is always false |
| Vendor.EveryKey | js/vendor.js:102 | every checklist item is one of the nine required, or time, or dates |
| Vendor.PassedAll | js/vendor.js:120-127 | `done` is at most the item count; it equals the count exactly when all pass and 0 exactly when none pass |
| Vendor.PassedSame | js/vendor.js:120-127 | forms whose tests agree give the same `done` |
| Vendor.PctFacts | js/vendor.js:137 | `(200·done + 9) / 18` is `round(done/9 × 100)`; it lies in 0..100, is 0 exactly for none and 100 exactly for all, and grows strictly with `done` |
| Vendor.PassedIgnoresOptional | js/vendor.js:129-135 | the time field does not change `done` |
| Vendor.Checklist.Render | js/vendor.js:117-141 | every item shows its test; the percentage is `Pct` of the required passes; submit is enabled exactly when all nine required tests pass |
| Vendor.Checklist.MarkAll | js/vendor.js:120-127 | the loop marks each listed item with its test, counts the passes and leaves other items alone |
| Vendor.Checklist.Mark | js/vendor.js:121-126 | one item is marked with its test result |
| Vendor.ClickFlips | js/vendor.js:147-151 | clicking `auth`, `consent` or `privacy` flips that item's test |
| Vendor.ClickKeepsOthers | js/vendor.js:147-151 | such a click leaves every other item's test as it was |
| Vendor.ClickTwice | js/vendor.js:149 | two clicks restore the form |
| Vendor.ClickOtherKeeps | js/vendor.js:148 | clicking another item, or one whose checkbox is absent, changes no input |
| Widgets.ClockOf | assets/js/app.mjs:64-68 | the decomposition adds back up to the seconds, with hours < 24 and minutes and seconds < 60 |
| Widgets.ClockUnique | assets/js/app.mjs:65-68 | an in-range clock is the decomposition of its own total |
| Widgets.Fields | assets/js/app.mjs:70-73 | four fields of at least two digits that read back as days, hours, minutes and seconds |
| Sorting.SortBy | scripts/fetch-cfbd.mjs:149-153 | the sort returns a permutation of its input |
| Sorting.SortByIsSorted | scripts/fetch-cfbd.mjs:149-153 | the model's stable insertion sort puts elements with defined keys in key order; the program's order when every key is defined |
| Sorting.FindFirst | scripts/fetch-cfbd.mjs:81 | `find`: the first index that satisfies the predicate, or none |
| Sorting.FindLast | scripts/fetch-cfbd.mjs:88 | `reverse().find`: the last index that satisfies the predicate, or none |
| Sorting.EarliestBy | assets/js/app.mjs:277 | `sort(...)[0]`: a member with the least defined key |
| Stamps.BasicFormShape | scripts/fetch-cfbd.mjs:93 | the basic form of a `toISOString` result is a basic UTC DATE-TIME |
| Strs.ToLowerAscii | assets/js/app.mjs:188 | same length; no A to Z letter is left; characters outside A to Z are unchanged; each A to Z letter becomes its lower-case letter |
| Strs.ToLowerAsciiIdempotent | assets/js/app.mjs:188 | folding a folded string changes nothing |
| Strs.TrimEnd | js/main.debug.js:128 | removes exactly the trailing whitespace |
| Strs.TrimStart | js/vendor.js:84 | removes exactly the leading whitespace |
| Strs.SplitJoinRoundTrip | scripts/fetch-cfbd.mjs:130 | splitting CRLF-joined lines that hold no CRLF gives back the lines |
| Strs.PadStart2OfNat | js/main.js:64 | `padStart(2, "0")` of a natural number: at least two digits with the same value |
| Js.LessOnNumbers | assets/js/app.mjs:152 | `<` on two numbers is integer order |

## Left out

- DOM reads and writes, event listeners, `innerHTML` templates, `show`, the accordions, the schedule collapse and the nav toggles (js/vendor.js:6-15 among them): these are page glue. `Legacy.ScorePanel` keeps only the values `paintNext` writes.
- `fetch`, `fs`, `path`, `process.exit` and console output: these are I/O. The feed and the files are inputs. A file that is missing or does not parse is `None` in `ValidateData`. The store is a path→content map.
- `setInterval`, `setTimeout`, `sleep` and `Promise.all`: these are timers and concurrency. A tick is one call with its `now`. The `sleep` between retries becomes the list of waits `GetWithRetry` returns.
- `Date.now()`, `new Date()` and `toISOString`: these are parameters. One `stampIso` supplies the DTSTAMP of every event in a season export, whereas the script reads `new Date()` again for each game (scripts/fetch-cfbd.mjs:108), so its stamps may differ by milliseconds between events. Timestamps produced by `toISOString` are described by `Stamps.IsoShaped`. Dates outside years 0 to 9999, and the throw `toISOString` raises for them, are not modelled.
- `toLocaleString`, `toLocaleDateString` and `encodeURIComponent`: these are host formatting and appear as abstract functions. `App.FormatTimeLike` returns a tag holding the instant and whether a time is shown.
- `JSON.stringify` and `JSON.parse`: these are opaque. `WriteJson` takes the serialised text.
- The artifact list of `main` (schedule, rankings, lines, meta, current game and the two calendars) is not modelled. Its `wrote |=` accumulation and skip-if-equal rule are modelled as `ArtifactStore.WriteAll` over a list of writes.
- Floating point: no fractional numbers. `Js.Value` numbers are integers, and `Js.ToNumber` reads only optionally signed decimal digits. The ppg/papg averages and `toFixed` in `computeTeamStats` are not modelled.
- Strings are sequences of characters. There is no UTF-16 and no Unicode case mapping. `Strs.ToLowerAscii` lowers only A to Z, and `Strs.IsWs` lists a fixed set of whitespace characters.
- The regular expressions are hand-written predicates: `/T\d{2}:\d{2}/`, `/tennessee/i`, the TBA words, the email pattern and the separator patterns.
- `paintSchedule`, `paintSpecials`, `paintPlaces`, `buildPlaces` and the row HTML of `buildSchedule`: these are rendering. Only the row helpers, the result text and `App.ScheduleCompare` are modelled.
- `setCountdownTarget`'s fallback to the `data-kickoff` attribute: the page's HTML is not part of this model. An invalid date leaves the countdown target empty.
- The deal form: `buildPreChecklistAsConsent`, the focus-and-scroll path of a checklist click, and the submit and clear handlers are not modelled. Aria attributes other than selected, tabIndex and hidden are not modelled. Neither is tab focus beyond the focused index.
- The rankings and odds lines of `buildTopStrip`: these are display text and are not modelled.
- Sorting with NaN keys: once a key is NaN the comparator `a - b` is inconsistent and ECMAScript leaves the order of the sort implementation-defined. `Sorting.SortBy` is one stable insertion sort, which is just one of the permitted orders.
- Sorting.SortByIsSorted: the key order it proves is that of the model's sort; the program guarantees it only when every key is a number.
- Sorting.SortBy: stability is not stated as a property.
- FetchCfbd.SortedStamps: the order is stated only when every kickoff string parses; a truthy kickoff that does not parse is kept with a NaN time, and Node's order is then unspecified.
- FetchCfbd.PickNextGameIsEarliestFuture: with a NaN kickoff in the schedule, the next game is only stated to be a game after `now`, not the earliest, because Node's sort order is unspecified.
- FetchCfbd.PickLastGameIsLatestPast: with a NaN kickoff in the schedule, the last game is only stated to be a game at or before `now`, not the latest, for the same reason.
- FetchCfbd.SortSchedule: the order is stated only when every key parses; a truthy kickoff that does not parse gets a NaN key, and Node's order is then unspecified.
- Vendor.KeyTarget: `e.key` strings are the datatype `NavKey`, built by `NavKeyOf`.
- Vendor.TabList.Activate: requires an index in range when focus is asked for. The source asks for focus only from the key handlers, whose indexes are in range. A missing panel element, which makes the source throw, is not modelled.
- Vendor.InitialIndex: reads the attribute with `Js.ToNumber`, so fractional and exponent forms are not modelled.
- MainDebug.PaintNext: for a dated item, the venue and the exact calendar link are stated by `MainDebug.ShowNext` and `MainDebug.ShowCalendar`, and not repeated in its own contract.
- ValidateData: messages are a datatype. `ValidateData.Text` renders them, and `TextInjective` shows that distinct messages render differently.
- There is no de-duplication by id, no team-mismatch rejection and no season state machine, because the code has none.

## Findings

| source | as written | input that shows it | evidently intended | confidence | as-written member | corrected member |
|---|---|---|---|---|---|---|
| scripts/fetch-cfbd.mjs:130 | `^` binds only to `BEGIN:VCALENDAR`, so any VEVENT line that merely contains `END:VCALENDAR`, `VERSION:`, `PRODID:`, `CALSCALE:` or `METHOD:` is dropped from the season calendar | a game whose venue is `Hall VERSION: 2` loses its LOCATION line | drop only lines that start with a VCALENDAR frame property | not executed; high | FetchCfbd.FrameFilterDropsLocation | FetchCfbd.DropFrameOfIcsLines |
| js/main.js:304-306 | `Number(null)` is 0, so a row whose points are JSON null (an unplayed game) passes the `Number.isFinite` check | `{"home_points": null, "away_points": null}` shows `T 0-0` | "—" for missing or null points | not executed; medium | Legacy.NullPointsReadAsTie | Legacy.PointsResultCorrectedCases |

The model keeps the code as written. The season export, `FetchCfbd.IcsForSeason`, filters with `IsFrameLineAsWritten`. The result text of both front ends, `MainJs.ResultText` and `MainDebug.ResultText`, uses `Legacy.PointsResult`. The corrected halves, the anchored `IsFrameLine` with `DropFrame` and `Legacy.PointsResultCorrected`, are the corrected members named in the table above. The debug build has the same null-points behaviour, at js/main.debug.js:133-134.

/** js/vendor.js: the header countdown, the how-to tabs and their keyboard
    navigation, and the deal form's checklist (the required-field tests,
    the completion percentage and the submit button). The form is a map
    from its inputs to their value and checked state; an input missing
    from the page is missing from the map. */
module Vendor {
  import opened Strs
  import opened Js
  import opened Widgets

  // ---------- the header countdown ----------

  /** One `tick()` of `startHeaderCountdown`, for a `data-kickoff` that is set;
      `kickoff` is `new Date(iso)`, `None` when it is not a valid date, where
      every field reads `NaN`. */
  method HeaderTick(kickoff: Option<int>, now: int) returns (shown: seq<string>)
    ensures kickoff.None? ==> shown == ["NaN", "NaN", "NaN", "NaN"]
    ensures kickoff.Some? && kickoff.value - now <= 0 ==> shown == ["00", "00", "00", "00"]
    ensures kickoff.Some? && kickoff.value - now > 0 ==> shown == Fields(ClockOf(SecondsLeft(kickoff.value, now)))
  {
    if kickoff.None? {
      return ["NaN", "NaN", "NaN", "NaN"];
    }
    var diff := kickoff.value - now;
    if diff <= 0 {
      return ["00", "00", "00", "00"];
    }
    var secs: nat := diff / 1000;
    ghost var total := secs;
    var days := secs / 86400; secs := secs % 86400;
    var hrs := secs / 3600; secs := secs % 3600;
    var mins := secs / 60; secs := secs % 60;
    SplitIsClock(total);
    assert total == SecondsLeft(kickoff.value, now);
    ghost var c := Clock(days, hrs, mins, secs);
    assert c == ClockOf(total);
    shown := [PadStart2(NatToStr(days)), PadStart2(NatToStr(hrs)), PadStart2(NatToStr(mins)), PadStart2(NatToStr(secs))];
    assert shown == Fields(c);
  }

  /** Taking days, hours and minutes off in turn, as the header does, gives the
      clock of the total. */
  lemma SplitIsClock(s: nat)
    ensures var s1 := s % 86400; var s2 := s1 % 3600;
      ClockOf(s) == Clock(s / 86400, s1 / 3600, s2 / 60, s2 % 60)
  {
    var d := s / 86400;
    var s1 := s % 86400;
    var h := s1 / 3600;
    var s2 := s1 % 3600;
    var m := s2 / 60;
    var x := s2 % 60;
    assert s == 86400 * d + s1;
    assert s1 == 3600 * h + s2;
    assert s2 == 60 * m + x;
    var c := Clock(d, h, m, x);
    assert InRange(c);
    assert TotalSeconds(c) == s;
    ClockUnique(c);
  }

  /** Zero prints as "00". */
  lemma ZeroField()
    ensures PadStart2(NatToStr(0)) == "00"
  {
    assert NatToStr(0) == [DigitChar(0)];
    assert DigitChar(0) == '0';
    PadStart2OfNat(0);
  }

  /** The zero clock prints as four "00". */
  lemma ZeroFields()
    ensures Fields(ClockOf(0)) == ["00", "00", "00", "00"]
  {
    ZeroClockFields();
    ZeroField();
  }

  lemma ZeroClockFields()
    ensures var z := PadStart2(NatToStr(0)); Fields(ClockOf(0)) == [z, z, z, z]
  {
    ZeroClock();
  }

  lemma ZeroClock()
    ensures ClockOf(0) == Clock(0, 0, 0, 0)
  {
    ClockUnique(Clock(0, 0, 0, 0));
    assert TotalSeconds(Clock(0, 0, 0, 0)) == 0;
  }

  /** For a valid kickoff the header shows what the schedule page's countdown
      shows: the clock of the whole seconds left, all zeros once kickoff is past. */
  lemma HeaderAgreesWithSchedulePage(t: int, now: int)
    ensures t - now <= 0 ==> ["00", "00", "00", "00"] == Fields(ClockOf(SecondsLeft(t, now)))
  {
    if t - now <= 0 {
      assert SecondsLeft(t, now) == 0;
      ZeroFields();
    }
  }

  // ---------- tabs ----------

  /** The keys the tab list answers to; `Other` is any other `e.key`. */
  datatype NavKey = ArrowRight | ArrowDown | ArrowLeft | ArrowUp | HomeKey | EndKey | Other

  /** `e.key` */
  function NavKeyOf(key: string): NavKey {
    if key == "ArrowRight" then ArrowRight
    else if key == "ArrowDown" then ArrowDown
    else if key == "ArrowLeft" then ArrowLeft
    else if key == "ArrowUp" then ArrowUp
    else if key == "Home" then HomeKey
    else if key == "End" then EndKey
    else Other
  }

  /** The tab a key moves to from tab `idx` of `n`; `None` for any other key. */
  function KeyTarget(key: NavKey, idx: nat, n: nat): (r: Option<nat>)
    requires idx < n
    ensures r.Some? ==> r.value < n
  {
    match key
    case ArrowRight | ArrowDown => Some((idx + 1) % n)
    case ArrowLeft | ArrowUp => Some((idx - 1 + n) % n)
    case HomeKey => Some(0)
    case EndKey => Some(n - 1)
    case Other => None
  }

  /** Right moves one tab on and wraps from the last to the first; left moves
      one back and wraps from the first to the last; Home and End go to the ends. */
  lemma KeyTargetCases(idx: nat, n: nat)
    requires idx < n
    ensures KeyTarget(ArrowRight, idx, n) == Some(if idx == n - 1 then 0 else idx + 1)
    ensures KeyTarget(ArrowDown, idx, n) == KeyTarget(ArrowRight, idx, n)
    ensures KeyTarget(ArrowLeft, idx, n) == Some(if idx == 0 then n - 1 else idx - 1)
    ensures KeyTarget(ArrowUp, idx, n) == KeyTarget(ArrowLeft, idx, n)
    ensures KeyTarget(HomeKey, idx, n) == Some(0) && KeyTarget(EndKey, idx, n) == Some(n - 1)
    ensures KeyTarget(Other, idx, n).None?
  {
    if idx == n - 1 {
      DivUnique(idx + 1, n, 1, 0);
    } else {
      DivUnique(idx + 1, n, 0, idx + 1);
    }
    if idx == 0 {
      DivUnique(idx - 1 + n, n, 0, n - 1);
    } else {
      DivUnique(idx - 1 + n, n, 1, idx - 1);
    }
  }

  /** Left undoes right. */
  lemma LeftUndoesRight(idx: nat, n: nat)
    requires idx < n
    ensures KeyTarget(ArrowLeft, KeyTarget(ArrowRight, idx, n).value, n) == Some(idx)
  {
    KeyTargetCases(idx, n);
    KeyTargetCases(KeyTarget(ArrowRight, idx, n).value, n);
  }

  /** The tab after `k` presses of the right arrow. */
  function Rights(idx: nat, k: nat, n: nat): (r: nat)
    requires idx < n
    ensures r < n
    decreases k
  {
    if k == 0 then idx else KeyTarget(ArrowRight, Rights(idx, k - 1, n), n).value
  }

  /** `k` presses of the right arrow move `k` tabs on, around the ring. */
  lemma {:induction false} RightsWrap(idx: nat, k: nat, n: nat)
    requires idx < n
    ensures Rights(idx, k, n) == (idx + k) % n
    decreases k
  {
    if k == 0 {
      DivUnique(idx, n, 0, idx);
    } else {
      RightsWrap(idx, k - 1, n);
      var p := Rights(idx, k - 1, n);
      assert Rights(idx, k, n) == (p + 1) % n;
      AddOneMod(idx + k - 1, n);
    }
  }

  /** `n` presses of the right arrow come back to the same tab. */
  lemma RightsFullCircle(idx: nat, n: nat)
    requires idx < n
    ensures Rights(idx, n, n) == idx
  {
    RightsWrap(idx, n, n);
    DivUnique(idx + n, n, 1, idx);
  }

  lemma AddOneMod(a: nat, n: nat)
    requires 0 < n
    ensures (a % n + 1) % n == (a + 1) % n
  {
    var q := a / n;
    var r := a % n;
    assert a == n * q + r;
    if r + 1 < n {
      DivUnique(r + 1, n, 0, r + 1);
      assert a + 1 == n * q + (r + 1);
      DivUnique(a + 1, n, q, r + 1);
    } else {
      DivUnique(r + 1, n, 1, 0);
      assert n * (q + 1) == n * q + n;
      assert a + 1 == n * (q + 1) + 0;
      DivUnique(a + 1, n, q + 1, 0);
    }
  }

  /** `Number(root.dataset.active) || 0`: the first tab unless the attribute
      reads as a non-zero number. */
  function InitialIndex(active: Value): (i: int)
    ensures ToNumber(active).None? ==> i == 0
    ensures ToNumber(active).Some? ==> i == ToNumber(active).value
  {
    match ToNumber(active)
    case None => 0
    case Some(k) => if k != 0 then k else 0
  }

  /** The tab list of `initTabs`: per tab its `aria-selected`, its `tabIndex`
      and whether its panel is hidden, and `data-active` of the root. */
  class TabList {
    const n: nat
    const selected: array<bool>
    const tabIndex: array<int>
    const hidden: array<bool>
    var active: int
    var focused: Option<nat>

    predicate Valid()
      reads this
    {
      selected.Length == n && tabIndex.Length == n && hidden.Length == n && selected != hidden
    }

    constructor(count: nat)
      ensures Valid() && n == count && fresh(selected) && fresh(tabIndex) && fresh(hidden)
      ensures active == 0 && focused.None?
    {
      n := count;
      selected := new bool[count];
      tabIndex := new int[count];
      hidden := new bool[count];
      active := 0;
      focused := None;
    }

    /** `activate(i, focus)`: only tab `i` is selected, reachable by Tab and
      shows its panel; every other tab has `tabIndex` -1 and a hidden panel. */
    method Activate(i: int, focus: bool)
      requires Valid() && (focus ==> 0 <= i < n)
      modifies this, selected, tabIndex, hidden
      ensures Valid()
      ensures forall t :: 0 <= t < n ==> selected[t] == (t == i)
      ensures forall t :: 0 <= t < n ==> tabIndex[t] == (if t == i then 0 else -1)
      ensures forall t :: 0 <= t < n ==> hidden[t] == (t != i)
      ensures active == i
      ensures focus ==> focused == Some(i as nat)
      ensures !focus ==> focused == old(focused)
    {
      var t := 0;
      while t < n
        invariant 0 <= t <= n
        invariant forall u :: 0 <= u < t ==> selected[u] == (u == i)
        invariant forall u :: 0 <= u < t ==> tabIndex[u] == (if u == i then 0 else -1)
        invariant forall u :: 0 <= u < t ==> hidden[u] == (u != i)
        invariant focused == old(focused)
      {
        var on := t == i;
        selected[t] := on;
        tabIndex[t] := if on then 0 else -1;
        hidden[t] := !on;
        t := t + 1;
      }
      active := i;
      if focus {
        focused := Some(i as nat);
      }
    }

    /** The `keydown` handler of tab `idx`. */
    method OnKey(idx: nat, key: NavKey)
      requires Valid() && idx < n
      modifies this, selected, tabIndex, hidden
      ensures Valid()
      ensures KeyTarget(key, idx, n).Some? ==>
                active == KeyTarget(key, idx, n).value && focused == KeyTarget(key, idx, n)
                && forall t :: 0 <= t < n ==> selected[t] == (t == active)
      ensures KeyTarget(key, idx, n).None? ==>
                active == old(active) && focused == old(focused) && unchanged(selected, tabIndex, hidden)
    {
      var target := KeyTarget(key, idx, n);
      if target.Some? {
        Activate(target.value, true);
      }
    }
  }

  /** After any activation at most one tab is selected, and exactly one when
      the index names a tab. */
  lemma OneSelected(sel: seq<bool>, i: int)
    requires forall t :: 0 <= t < |sel| ==> sel[t] == (t == i)
    ensures forall t, u :: 0 <= t < |sel| && 0 <= u < |sel| && sel[t] && sel[u] ==> t == u
    ensures 0 <= i < |sel| <==> exists t :: 0 <= t < |sel| && sel[t]
  {
    if 0 <= i < |sel| {
      assert sel[i];
    }
  }

  // ---------- the deal form ----------

  datatype Field = Field(value: string, checked: bool)

  datatype Input =
    | Biz | TitleInput | DescInput | DaysInput | EmailInput
    | Area | Addr | AuthBox | ConsentBox | PrivacyBox | TimeInput

  type Form = map<Input, Field>

  /** `one(sel)`: the input when the page has it. */
  function One(form: Form, i: Input): Option<Field> {
    if i in form then Some(form[i]) else None
  }

  /** `many(sels)`: the inputs the page has, in order. */
  function Many(form: Form, ins: seq<Input>): seq<Field> {
    if ins == [] then []
    else (if ins[0] in form then [form[ins[0]]] else []) + Many(form, ins[1..])
  }

  /** `hasText`: at least two characters once trimmed. */
  predicate HasText(f: Option<Field>) {
    f.Some? && |Trim(f.value.value)| > 1
  }

  /** No whitespace and no '@': the class `[^\s@]`. */
  predicate Plain(s: string) {
    forall k :: 0 <= k < |s| ==> !IsWs(s[k]) && s[k] != '@'
  }

  /** The pattern `^[^\s@]+@[^\s@]+\.[^\s@]+$`. */
  predicate EmailShaped(t: string) {
    exists i, j :: 0 < i && i + 1 < j && j + 1 < |t| && t[i] == '@' && t[j] == '.'
      && Plain(t[..i]) && Plain(t[i + 1..j]) && Plain(t[j + 1..])
  }

  /** An address matches exactly when it is a local part, '@', a host and a
      dot-separated last label, none empty and none holding a blank or an '@'. */
  lemma EmailShapedParts(a: string, b: string, c: string)
    requires a != [] && b != [] && c != [] && Plain(a) && Plain(b) && Plain(c)
    ensures EmailShaped(a + "@" + b + "." + c)
  {
    var t := a + "@" + b + "." + c;
    var i := |a|;
    var j := |a| + 1 + |b|;
    assert t[i] == '@' && t[j] == '.';
    assert t[..i] == a && t[i + 1..j] == b && t[j + 1..] == c;
  }

  /** A matching address has no blank and exactly one '@'. */
  lemma EmailShapedHasOneAt(t: string)
    requires EmailShaped(t)
    ensures forall k :: 0 <= k < |t| ==> !IsWs(t[k])
    ensures exists i :: 0 <= i < |t| && t[i] == '@' && forall k :: 0 <= k < |t| && t[k] == '@' ==> k == i
  {
    var i, j :| 0 < i && i + 1 < j && j + 1 < |t| && t[i] == '@' && t[j] == '.'
      && Plain(t[..i]) && Plain(t[i + 1..j]) && Plain(t[j + 1..]);
    forall k | 0 <= k < |t|
      ensures !IsWs(t[k]) && (t[k] == '@' ==> k == i)
    {
      if k < i {
        assert t[k] == t[..i][k];
      } else if i < k < j {
        assert t[k] == t[i + 1..j][k - i - 1];
      } else if k > j {
        assert t[k] == t[j + 1..][k - j - 1];
      }
    }
  }

  /** `hasEmail`: the trimmed value matches the address pattern. */
  predicate HasEmail(f: Option<Field>) {
    f.Some? && EmailShaped(Trim(f.value.value))
  }

  /** `isChecked` */
  predicate IsChecked(f: Option<Field>) {
    f.Some? && f.value.checked
  }

  /** `anyFilled`: some of the inputs has text. */
  predicate AnyFilled(els: seq<Field>) {
    els != [] && (HasText(Some(els[0])) || AnyFilled(els[1..]))
  }

  /** The checklist items, by their `data-key`. */
  datatype Key = Business | Title | Desc | Days | Contact | Location | Auth | Consent | Privacy | Time | Dates

  /** `tests[k]()` */
  predicate Test(k: Key, form: Form) {
    match k
    case Business => HasText(One(form, Biz))
    case Title => HasText(One(form, TitleInput))
    case Desc => HasText(One(form, DescInput))
    case Days => HasText(One(form, DaysInput))
    case Contact => HasEmail(One(form, EmailInput))
    case Location => AnyFilled(Many(form, [Area, Addr]))
    case Auth => IsChecked(One(form, AuthBox))
    case Consent => IsChecked(One(form, ConsentBox))
    case Privacy => IsChecked(One(form, PrivacyBox))
    case Time => HasText(One(form, TimeInput))
    case Dates => false
  }

  /** `many` of two selectors. */
  lemma ManyTwo(form: Form, x: Input, y: Input)
    ensures Many(form, [x, y]) == (if x in form then [form[x]] else []) + (if y in form then [form[y]] else [])
  {
    assert [x, y][1..] == [y];
    assert [y][1..] == [];
    assert Many(form, [y]) == (if y in form then [form[y]] else []) + Many(form, []);
  }

  /** The location passes when either the area or the address has text. */
  lemma LocationEither(form: Form)
    ensures Test(Location, form) <==> HasText(One(form, Area)) || HasText(One(form, Addr))
  {
    ManyTwo(form, Area, Addr);
    if Area in form && Addr in form {
      AnyFilledCons(form[Area], [form[Addr]]);
      AnyFilledCons(form[Addr], []);
    } else if Area in form {
      assert Many(form, [Area, Addr]) == [form[Area]] + [];
      AnyFilledCons(form[Area], []);
    } else if Addr in form {
      assert Many(form, [Area, Addr]) == [form[Addr]] + [];
      AnyFilledCons(form[Addr], []);
    } else {
      assert Many(form, [Area, Addr]) == [];
    }
  }

  lemma AnyFilledCons(x: Field, rest: seq<Field>)
    ensures AnyFilled([x] + rest) == (HasText(Some(x)) || AnyFilled(rest))
    ensures AnyFilled([]) == false
  {
    assert ([x] + rest)[1..] == rest;
  }

  /** The inputs each item's test reads. */
  function Inputs(k: Key): set<Input> {
    match k
    case Business => {Biz}
    case Title => {TitleInput}
    case Desc => {DescInput}
    case Days => {DaysInput}
    case Contact => {EmailInput}
    case Location => {Area, Addr}
    case Auth => {AuthBox}
    case Consent => {ConsentBox}
    case Privacy => {PrivacyBox}
    case Time => {TimeInput}
    case Dates => {}
  }

  /** A test depends on its own inputs and nothing else on the page. */
  lemma TestFrame(k: Key, f: Form, g: Form)
    requires forall i :: i in Inputs(k) ==> One(f, i) == One(g, i)
    ensures Test(k, f) <==> Test(k, g)
  {
    match k
    case Business => assert One(f, Biz) == One(g, Biz);
    case Title => assert One(f, TitleInput) == One(g, TitleInput);
    case Desc => assert One(f, DescInput) == One(g, DescInput);
    case Days => assert One(f, DaysInput) == One(g, DaysInput);
    case Contact => assert One(f, EmailInput) == One(g, EmailInput);
    case Location =>
      assert One(f, Area) == One(g, Area) && One(f, Addr) == One(g, Addr);
      LocationEither(f);
      LocationEither(g);
    case Auth => assert One(f, AuthBox) == One(g, AuthBox);
    case Consent => assert One(f, ConsentBox) == One(g, ConsentBox);
    case Privacy => assert One(f, PrivacyBox) == One(g, PrivacyBox);
    case Time => assert One(f, TimeInput) == One(g, TimeInput);
    case Dates =>
  }

  /** The dates item never passes, whatever the form holds. */
  lemma DatesNeverPass(form: Form)
    ensures !Test(Dates, form)
  {
  }

  /** Every item is required, or is the time or the dates. */
  lemma EveryKey(k: Key)
    ensures k in Required || k == Time || k == Dates
  {
  }

  /** `required`: every item but the time and the dates. */
  const Required: seq<Key> := [Business, Title, Desc, Days, Contact, Location, Auth, Consent, Privacy]

  /** How many of `ks` pass. */
  function Passed(ks: seq<Key>, form: Form): nat
    decreases |ks|
  {
    if ks == [] then 0 else Passed(ks[..|ks| - 1], form) + (if Test(ks[|ks| - 1], form) then 1 else 0)
  }

  /** The prefix one longer adds exactly the next key. */
  lemma PrefixStep(ks: seq<Key>, j: nat)
    requires j < |ks|
    ensures ks[..j + 1][..j] == ks[..j] && ks[..j + 1][j] == ks[j]
    ensures forall k :: k in ks[..j + 1] <==> k in ks[..j] || k == ks[j]
  {
    assert ks[..j + 1] == ks[..j] + [ks[j]];
  }

  /** All of `ks` pass exactly when the count reaches their number. */
  lemma {:induction false} PassedAll(ks: seq<Key>, form: Form)
    ensures Passed(ks, form) <= |ks|
    ensures Passed(ks, form) == |ks| <==> forall k :: k in ks ==> Test(k, form)
    ensures Passed(ks, form) == 0 <==> forall k :: k in ks ==> !Test(k, form)
    decreases |ks|
  {
    if ks != [] {
      var pre := ks[..|ks| - 1];
      PassedAll(pre, form);
      assert ks == pre + [ks[|ks| - 1]];
      assert forall k :: k in ks <==> k in pre || k == ks[|ks| - 1];
    }
  }

  /** `Math.round(done / required.length * 100)` for the nine required items,
      in integers: 100·done/9 rounded half up. */
  function Pct(done: nat): int {
    (200 * done + 9) / 18
  }

  /** The bar starts at 0, grows with every item ticked and reads 100 only
      when all nine are. */
  lemma PctFacts(d: nat, e: nat)
    requires d <= 9 && e <= 9
    ensures 0 <= Pct(d) <= 100
    ensures -9 <= 18 * Pct(d) - 200 * d < 9
    ensures Pct(d) == 0 <==> d == 0
    ensures Pct(d) == 100 <==> d == 9
    ensures d < e ==> Pct(d) < Pct(e)
  {
  }

  /** The time and dates items never move the bar. */
  lemma PassedIgnoresOptional(form: Form, v: Field)
    ensures Passed(Required, form[TimeInput := v]) == Passed(Required, form)
  {
    var f := form[TimeInput := v];
    forall k | k in Required
      ensures Test(k, form) <==> Test(k, f)
    {
      TestFrame(k, form, f);
    }
    PassedSame(Required, form, f);
  }

  lemma {:induction false} PassedSame(ks: seq<Key>, f: Form, g: Form)
    requires forall k :: k in ks ==> (Test(k, f) <==> Test(k, g))
    ensures Passed(ks, f) == Passed(ks, g)
    decreases |ks|
  {
    if ks != [] {
      PassedSame(ks[..|ks| - 1], f, g);
    }
  }

  /** The checklist as `renderChecklist` leaves it: each item's done mark
      (also its static checkbox), the percentage and the submit button. */
  class Checklist {
    var itemDone: map<Key, bool>
    var pct: int
    var submitDisabled: bool

    constructor()
      ensures itemDone == map[] && pct == 0 && submitDisabled
    {
      itemDone := map[];
      pct := 0;
      submitDisabled := true;
    }

    /** `renderChecklist()` */
    method Render(form: Form)
      modifies this
      ensures forall k: Key :: k in itemDone && itemDone[k] == Test(k, form)
      ensures pct == Pct(Passed(Required, form))
      ensures !submitDisabled <==> forall k :: k in Required ==> Test(k, form)
    {
      var done := MarkAll(Required, form);
      var _ := MarkAll([Time, Dates], form);
      forall k: Key
        ensures k in itemDone && itemDone[k] == Test(k, form)
      {
        EveryKey(k);
      }
      pct := Pct(done);
      PassedAll(Required, form);
      submitDisabled := done != |Required|;
    }

    /** The loop over a list of items: each gets its done mark, and the
        count of those that pass is returned. */
    method MarkAll(ks: seq<Key>, form: Form) returns (done: nat)
      modifies this
      ensures done == Passed(ks, form)
      ensures forall k :: k in ks ==> k in itemDone && itemDone[k] == Test(k, form)
      ensures forall k :: k !in ks && k in old(itemDone) ==> k in itemDone && itemDone[k] == old(itemDone)[k]
      ensures pct == old(pct) && submitDisabled == old(submitDisabled)
    {
      done := 0;
      var j := 0;
      while j < |ks|
        invariant 0 <= j <= |ks|
        invariant done == Passed(ks[..j], form)
        invariant forall k :: k in ks[..j] ==> k in itemDone && itemDone[k] == Test(k, form)
        invariant forall k :: k !in ks[..j] && k in old(itemDone) ==> k in itemDone && itemDone[k] == old(itemDone)[k]
        invariant pct == old(pct) && submitDisabled == old(submitDisabled)
      {
        var k := ks[j];
        var ok := Mark(k, form);
        if ok {
          done := done + 1;
        }
        PrefixStep(ks, j);
        j := j + 1;
      }
      assert ks[..|ks|] == ks;
    }

    /** One item's `li.classList.toggle("done", ok)`. */
    method Mark(k: Key, form: Form) returns (ok: bool)
      modifies this
      ensures ok == Test(k, form)
      ensures itemDone == old(itemDone)[k := ok]
      ensures pct == old(pct) && submitDisabled == old(submitDisabled)
    {
      ok := Test(k, form);
      itemDone := itemDone[k := ok];
    }
  }

  /** The checkbox a click on a consent item toggles. */
  function BoxOf(k: Key): Option<Input> {
    match k
    case Auth => Some(AuthBox)
    case Consent => Some(ConsentBox)
    case Privacy => Some(PrivacyBox)
    case _ => None
  }

  /** A click on a checklist item: an `auth`, `consent` or `privacy` item
      toggles its checkbox when the page has it; other items only move the focus. */
  function Click(form: Form, k: Key): Form {
    match BoxOf(k)
    case None => form
    case Some(b) => if b in form then form[b := Field(form[b].value, !form[b].checked)] else form
  }

  /** Clicking a consent item flips its own test. */
  lemma ClickFlips(form: Form, k: Key)
    requires BoxOf(k).Some? && BoxOf(k).value in form
    ensures Test(k, Click(form, k)) == !Test(k, form)
  {
    var b := BoxOf(k).value;
    assert One(Click(form, k), b) == Some(Field(form[b].value, !form[b].checked));
  }

  /** Clicking a consent item leaves every other item's test as it was. */
  lemma ClickKeepsOthers(form: Form, k: Key, k': Key)
    requires BoxOf(k).Some? && k' != k
    ensures Test(k', Click(form, k)) <==> Test(k', form)
  {
    var b := BoxOf(k).value;
    assert b !in Inputs(k');
    TestFrame(k', Click(form, k), form);
  }

  /** Clicking a consent item twice restores the form. */
  lemma ClickTwice(form: Form, k: Key)
    ensures Click(Click(form, k), k) == form
  {
  }

  /** A click on any other item leaves the form as it is. */
  lemma ClickOtherKeeps(form: Form, k: Key)
    requires BoxOf(k).None? || BoxOf(k).value !in form
    ensures Click(form, k) == form
  {
  }
}

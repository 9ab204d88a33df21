/** String utilities shared by the models: prefixes and substrings, ASCII case
    folding, JavaScript whitespace trimming, joining and splitting on CRLF, and
    per-character replacement (what a global single-character `replace` does). */
module Strs {

  predicate StartsWith(s: string, p: string) {
    |p| <= |s| && s[..|p|] == p
  }

  predicate EndsWith(s: string, p: string) {
    |p| <= |s| && s[|s| - |p|..] == p
  }

  predicate OccursAt(s: string, p: string, i: int) {
    0 <= i && i + |p| <= |s| && s[i..i + |p|] == p
  }

  /** `s.includes(p)` */
  predicate Contains(s: string, p: string) {
    exists i | 0 <= i <= |s| :: OccursAt(s, p, i)
  }

  lemma ContainsWitness(s: string, p: string, i: int)
    requires OccursAt(s, p, i)
    ensures Contains(s, p)
  {
  }

  function LowerAscii(c: char): char {
    if 'A' <= c <= 'Z' then (c as int + 32) as char else c
  }

  /** ASCII case folding; for the lower-case ASCII patterns of the scripts this
      is what the `i` flag of a JavaScript regular expression compares by. */
  function ToLowerAscii(s: string): (r: string)
    ensures |r| == |s|
    ensures forall i :: 0 <= i < |r| ==> !('A' <= r[i] <= 'Z')
    ensures forall i :: 0 <= i < |s| && !('A' <= s[i] <= 'Z') ==> r[i] == s[i]
    ensures forall i :: 0 <= i < |s| && 'A' <= s[i] <= 'Z' ==> r[i] as int == s[i] as int - 'A' as int + 'a' as int
  {
    seq(|s|, i requires 0 <= i < |s| => LowerAscii(s[i]))
  }

  /** Folding is idempotent: a folded string folds to itself. */
  lemma ToLowerAsciiIdempotent(s: string)
    ensures ToLowerAscii(ToLowerAscii(s)) == ToLowerAscii(s)
  {
  }

  /** `/pat/i.test(s)` for a lower-case ASCII pattern */
  predicate ContainsCi(s: string, pat: string) {
    Contains(ToLowerAscii(s), pat)
  }

  /** The characters JavaScript's `trim` removes and `\s` matches:
      WhiteSpace and LineTerminator of ECMAScript. */
  predicate IsWs(c: char) {
    c == '\t' || c == '\n' || c == '\U{000B}' || c == '\U{000C}' || c == '\r' || c == ' '
    || c == '\U{00A0}' || c == '\U{1680}' || ('\U{2000}' <= c <= '\U{200A}')
    || c == '\U{2028}' || c == '\U{2029}' || c == '\U{202F}' || c == '\U{205F}'
    || c == '\U{3000}' || c == '\U{FEFF}'
  }

  function TrimStart(s: string): (r: string)
    ensures |r| <= |s| && r == s[|s| - |r|..]
    ensures forall i :: 0 <= i < |s| - |r| ==> IsWs(s[i])
    ensures r == [] || !IsWs(r[0])
  {
    if s != [] && IsWs(s[0]) then TrimStart(s[1..]) else s
  }

  function TrimEnd(s: string): (r: string)
    ensures |r| <= |s| && r == s[..|r|]
    ensures forall i :: |r| <= i < |s| ==> IsWs(s[i])
    ensures r == [] || !IsWs(r[|r| - 1])
  {
    if s != [] && IsWs(s[|s| - 1]) then TrimEnd(s[..|s| - 1]) else s
  }

  /** `s.trim()` */
  function Trim(s: string): string {
    TrimEnd(TrimStart(s))
  }

  /** Trimming a string that starts with a non-blank character only trims its end. */
  lemma TrimOfNonBlankStart(a: string, b: string)
    requires a != [] && !IsWs(a[0])
    ensures Trim(a + b) == a + TrimEnd(b) || (TrimEnd(b) == [] && Trim(a + b) == TrimEnd(a))
    ensures TrimEnd(b) != [] ==> Trim(a + b) == a + TrimEnd(b)
  {
    assert TrimStart(a + b) == a + b;
    TrimEndConcat(a, b);
  }

  /** Trimming `w + " " + o` for a word `w` with non-blank ends: `o` loses
      its trailing blanks, and the space goes too when nothing else is left. */
  lemma TrimAfterWord(w: string, o: string)
    requires w != [] && !IsWs(w[0]) && !IsWs(w[|w| - 1])
    ensures TrimEnd(o) != [] ==> Trim(w + " " + o) == w + " " + TrimEnd(o)
    ensures TrimEnd(o) == [] ==> Trim(w + " " + o) == w
  {
    var a := w + " ";
    assert a[0] == w[0];
    TrimOfNonBlankStart(a, o);
    assert w + " " + o == a + o;
    if TrimEnd(o) == [] {
      TrimEndConcat(w, " ");
      assert TrimEnd(" ") == TrimEnd(" "[..0]);
      assert TrimEnd(w) == w;
    }
  }

  lemma {:induction false} TrimEndConcat(a: string, b: string)
    ensures TrimEnd(b) != [] ==> TrimEnd(a + b) == a + TrimEnd(b)
    ensures TrimEnd(b) == [] ==> TrimEnd(a + b) == TrimEnd(a)
    decreases |b|
  {
    if b == [] {
      assert a + b == a;
    } else if IsWs(b[|b| - 1]) {
      assert (a + b)[..|a + b| - 1] == a + b[..|b| - 1];
      TrimEndConcat(a, b[..|b| - 1]);
    } else {
      assert TrimEnd(b) == b;
    }
  }

  /** `lines.join(sep)` */
  function Join(ls: seq<string>, sep: string): string {
    if |ls| == 0 then "" else if |ls| == 1 then ls[0] else ls[0] + sep + Join(ls[1..], sep)
  }

  /** Joining one more line appends the separator and the line. */
  lemma {:induction false} JoinSnoc(ls: seq<string>, x: string, sep: string)
    requires |ls| >= 1
    ensures Join(ls + [x], sep) == Join(ls, sep) + sep + x
    decreases |ls|
  {
    if |ls| > 1 {
      assert (ls + [x])[1..] == ls[1..] + [x];
      JoinSnoc(ls[1..], x, sep);
    }
  }

  const CRLF: string := "\r\n"

  predicate NoCrlf(l: string) {
    forall i :: 0 <= i < |l| - 1 ==> !(l[i] == '\r' && l[i + 1] == '\n')
  }

  /** `s.split("\r\n")`: cut at every leftmost occurrence of CRLF. */
  function SplitCrlf(s: string): (r: seq<string>)
    ensures |r| >= 1
    decreases |s|
  {
    if |s| < 2 then [s]
    else if s[0] == '\r' && s[1] == '\n' then [""] + SplitCrlf(s[2..])
    else var rest := SplitCrlf(s[1..]); [[s[0]] + rest[0]] + rest[1..]
  }

  lemma {:induction false} SplitLineThenRest(l: string, rest: string)
    requires NoCrlf(l)
    ensures SplitCrlf(l + CRLF + rest) == [l] + SplitCrlf(rest)
    decreases |l|
  {
    if l == [] {
      assert l + CRLF + rest == "\r\n" + rest;
      assert ("\r\n" + rest)[2..] == rest;
    } else {
      var s := l + CRLF + rest;
      assert s[0] == l[0];
      assert !(s[0] == '\r' && s[1] == '\n') by {
        if |l| >= 2 { assert s[1] == l[1]; } else { assert s[1] == '\r'; }
      }
      assert s[1..] == l[1..] + CRLF + rest;
      SplitLineThenRest(l[1..], rest);
      assert [l[0]] + l[1..] == l;
    }
  }

  lemma {:induction false} SplitSingleLine(l: string)
    requires NoCrlf(l)
    ensures SplitCrlf(l) == [l]
    decreases |l|
  {
    if |l| >= 2 {
      SplitSingleLine(l[1..]);
      assert [l[0]] + l[1..] == l;
    }
  }

  /** Splitting a CRLF-joined list of CRLF-free lines gives back the lines. */
  lemma {:induction false} SplitJoinRoundTrip(ls: seq<string>)
    requires |ls| >= 1
    requires forall k :: 0 <= k < |ls| ==> NoCrlf(ls[k])
    ensures SplitCrlf(Join(ls, CRLF)) == ls
  {
    if |ls| == 1 {
      SplitSingleLine(ls[0]);
    } else {
      SplitJoinRoundTrip(ls[1..]);
      SplitLineThenRest(ls[0], Join(ls[1..], CRLF));
      assert ls == [ls[0]] + ls[1..];
    }
  }

  /** Replace every character by a string: a global `replace` whose pattern
      matches single characters. */
  function FlatMap(s: string, f: char -> string): (r: string)
    decreases |s|
  {
    if s == [] then "" else f(s[0]) + FlatMap(s[1..], f)
  }

  lemma {:induction false} FlatMapConcat(a: string, b: string, f: char -> string)
    ensures FlatMap(a + b, f) == FlatMap(a, f) + FlatMap(b, f)
    decreases |a|
  {
    if a == [] {
      assert a + b == b;
    } else {
      assert (a + b)[1..] == a[1..] + b;
      FlatMapConcat(a[1..], b, f);
    }
  }

  /** Applying a character map after a character map is one character map. */
  lemma {:induction false} FlatMapCompose(s: string, f: char -> string, g: char -> string)
    ensures FlatMap(FlatMap(s, f), g) == FlatMap(s, c => FlatMap(f(c), g))
    decreases |s|
  {
    if s != [] {
      FlatMapConcat(f(s[0]), FlatMap(s[1..], f), g);
      FlatMapCompose(s[1..], f, g);
    }
  }

  /** `s.replace(/c/g, rep)` */
  function ReplaceChar(s: string, c: char, rep: string): string {
    FlatMap(s, x => if x == c then rep else [x])
  }

  /** `s.replace(pat, rep)` with a string pattern: only the first occurrence. */
  function ReplaceFirst(s: string, pat: string, rep: string): string
    requires pat != []
    decreases |s|
  {
    if StartsWith(s, pat) then rep + s[|pat|..]
    else if s == [] then []
    else [s[0]] + ReplaceFirst(s[1..], pat, rep)
  }

  predicate IsDigit(c: char) { '0' <= c <= '9' }

  predicate AllDigits(s: string) { forall i :: 0 <= i < |s| ==> IsDigit(s[i]) }

  function DigitChar(d: nat): (c: char)
    requires d < 10
    ensures IsDigit(c) && c as int - '0' as int == d
  {
    ('0' as int + d) as char
  }

  /** The value of a string of decimal digits. */
  function DigitsValue(s: string): nat
    requires AllDigits(s)
  {
    if s == [] then 0 else 10 * DigitsValue(s[..|s| - 1]) + (s[|s| - 1] as int - '0' as int)
  }

  /** Decimal rendering of a natural number (`String(n)`). */
  function NatToStr(n: nat): (r: string)
    ensures |r| >= 1 && AllDigits(r)
    ensures DigitsValue(r) == n
    ensures n < 10 <==> |r| == 1
    ensures |r| == 1 || r[0] != '0'
  {
    if n < 10 then [DigitChar(n)]
    else
      var hi := NatToStr(n / 10);
      var r := hi + [DigitChar(n % 10)];
      assert r[..|r| - 1] == hi;
      r
  }

  function IntToStr(n: int): string {
    if n < 0 then "-" + NatToStr(-n) else NatToStr(n)
  }

  /** A rendered integer starts with a minus sign or a digit. */
  lemma IntToStrStart(n: int)
    ensures |IntToStr(n)| >= 1 && (IntToStr(n)[0] == '-' || IsDigit(IntToStr(n)[0]))
  {
    if n >= 0 {
      var r := NatToStr(n);
      assert IsDigit(r[0]);
    }
  }

  /** `s.padStart(2, "0")` */
  function PadStart2(s: string): string {
    if |s| >= 2 then s else seq(2 - |s|, _ => '0') + s
  }

  lemma {:induction false} DigitsValueLeadingZero(s: string)
    requires AllDigits(s)
    ensures AllDigits("0" + s) && DigitsValue("0" + s) == DigitsValue(s)
    decreases |s|
  {
    if s != [] {
      var t := "0" + s;
      assert t[..|t| - 1] == "0" + s[..|s| - 1];
      DigitsValueLeadingZero(s[..|s| - 1]);
    }
  }

  /** `String(n).padStart(2, "0")` has at least two digits and reads back as `n`. */
  lemma PadStart2OfNat(n: nat)
    ensures var r := PadStart2(NatToStr(n));
      |r| >= 2 && AllDigits(r) && DigitsValue(r) == n
      && (n < 10 ==> r == "0" + NatToStr(n)) && (n >= 10 ==> r == NatToStr(n))
  {
    var d := NatToStr(n);
    if |d| < 2 {
      assert seq(1, _ => '0') == "0";
      DigitsValueLeadingZero(d);
    }
  }

  /** Two character maps that agree on every character agree on every string. */
  lemma {:induction false} CharMapsAgree(s: string, f: char -> string, g: char -> string)
    requires forall c :: f(c) == g(c)
    ensures FlatMap(s, f) == FlatMap(s, g)
    decreases |s|
  {
    if s != [] { CharMapsAgree(s[1..], f, g); }
  }

  lemma {:induction false} ReplaceCharConcat(a: string, b: string, c: char, rep: string)
    ensures ReplaceChar(a + b, c, rep) == ReplaceChar(a, c, rep) + ReplaceChar(b, c, rep)
    decreases |a|
  {
    if a == [] {
      assert a + b == b;
    } else {
      assert (a + b)[0] == a[0];
      assert (a + b)[1..] == a[1..] + b;
      ReplaceCharConcat(a[1..], b, c, rep);
    }
  }

  /** Replacing a character that does not occur changes nothing. */
  lemma {:induction false} ReplaceCharAbsent(s: string, c: char, rep: string)
    requires c !in s
    ensures ReplaceChar(s, c, rep) == s
    decreases |s|
  {
    if s != [] {
      assert s == [s[0]] + s[1..];
      ReplaceCharAbsent(s[1..], c, rep);
    }
  }

  lemma ReplaceCharHit(c: char, rep: string)
    ensures ReplaceChar([c], c, rep) == rep
  {
    assert [c][1..] == [];
    assert ReplaceChar([c], c, rep) == rep + ReplaceChar([], c, rep);
  }

  /** `ReplaceFirst` passes over a prefix that cannot start the pattern. */
  lemma {:induction false} ReplaceFirstSkips(p: string, rest: string, pat: string, rep: string)
    requires pat != [] && pat[0] !in p
    ensures ReplaceFirst(p + rest, pat, rep) == p + ReplaceFirst(rest, pat, rep)
    decreases |p|
  {
    if p == [] {
      assert p + rest == rest;
    } else {
      var s := p + rest;
      assert s[0] == p[0] && p[0] != pat[0];
      assert !StartsWith(s, pat) by {
        if |pat| <= |s| { assert s[..|pat|][0] == s[0]; }
      }
      assert ReplaceFirst(s, pat, rep) == [s[0]] + ReplaceFirst(s[1..], pat, rep);
      assert s[1..] == p[1..] + rest;
      ReplaceFirstSkips(p[1..], rest, pat, rep);
      assert p == [p[0]] + p[1..];
    }
  }
}

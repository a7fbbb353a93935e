/**
  The string operations of Rust's standard library that the modelled code uses,
  on strings as sequences of characters.
 */
module Text {
  import opened Wrappers

  /** Unicode `White_Space`, as `char::is_whitespace`. */
  predicate IsWhitespace(c: char) {
    || '\t' <= c <= '\r' || c == ' '
    || c == '\U{85}' || c == '\U{A0}' || c == '\U{1680}'
    || '\U{2000}' <= c <= '\U{200A}'
    || c == '\U{2028}' || c == '\U{2029}' || c == '\U{202F}' || c == '\U{205F}' || c == '\U{3000}'
  }

  /** Only whitespace, or nothing at all. */
  predicate Blank(s: string) { forall k :: 0 <= k < |s| ==> IsWhitespace(s[k]) }

  /** How much of the first `n` characters is left without the whitespace at their end. */
  function EndOfText(s: string, n: nat): (r: nat)
    requires n <= |s|
    ensures r <= n && (r == 0 || !IsWhitespace(s[r - 1]))
  {
    if n == 0 || !IsWhitespace(s[n - 1]) then n else EndOfText(s, n - 1)
  }

  function TrimEnd(s: string): (r: string)
    ensures r <= s && (r == [] || !IsWhitespace(r[|r| - 1]))
  {
    s[..EndOfText(s, |s|)]
  }

  /** Where the first character from the `k`th on is that is not whitespace. */
  function StartOfText(s: string, k: nat): (r: nat)
    requires k <= |s|
    ensures k <= r <= |s| && (r == |s| || !IsWhitespace(s[r]))
    decreases |s| - k
  {
    if k == |s| || !IsWhitespace(s[k]) then k else StartOfText(s, k + 1)
  }

  function TrimStart(s: string): (r: string)
    ensures |r| <= |s| && (r == [] || !IsWhitespace(r[0]))
  {
    s[StartOfText(s, 0)..]
  }

  lemma {:induction false} OnlyBlankAfter(s: string, n: nat)
    requires n <= |s|
    ensures forall k :: EndOfText(s, n) <= k < n ==> IsWhitespace(s[k])
  {
    hide IsWhitespace;
    if n > 0 && IsWhitespace(s[n - 1]) { OnlyBlankAfter(s, n - 1); }
  }

  lemma {:induction false} OnlyBlankBefore(s: string, k: nat)
    requires k <= |s|
    ensures forall i :: k <= i < StartOfText(s, k) ==> IsWhitespace(s[i])
    decreases |s| - k
  {
    hide IsWhitespace;
    if k < |s| && IsWhitespace(s[k]) { OnlyBlankBefore(s, k + 1); }
  }

  lemma TrimEndOfBlank(s: string)
    ensures TrimEnd(s) == [] <==> Blank(s)
  {
    hide IsWhitespace;
    OnlyBlankAfter(s, |s|);
  }

  lemma TrimStartOfBlank(s: string)
    ensures TrimStart(s) == [] <==> Blank(s)
  {
    hide IsWhitespace;
    OnlyBlankBefore(s, 0);
  }

  function Trim(s: string): string { TrimEnd(TrimStart(s)) }

  /** No whitespace at either end. */
  predicate Trimmed(s: string) {
    s == [] || (!IsWhitespace(s[0]) && !IsWhitespace(s[|s| - 1]))
  }

  lemma TrimFacts(s: string)
    ensures Trimmed(Trim(s)) && (Trimmed(s) <==> Trim(s) == s) && Trim(Trim(s)) == Trim(s)
    ensures Trim(s) == [] <==> Blank(s)
  {
    var t := TrimStart(s);
    TrimEndOfBlank(t);
    TrimStartOfBlank(s);
    assert t != [] ==> !Blank(t);
  }

  lemma {:induction false} EndOfSame(s: string, t: string, n: nat)
    requires n <= |s| && s <= t
    ensures EndOfText(t, n) == EndOfText(s, n)
  {
    hide IsWhitespace;
    if n > 0 { EndOfSame(s, t, n - 1); }
  }

  lemma {:induction false} EndOfAppended(s: string, tail: string, n: nat)
    requires Blank(tail) && |s| <= n <= |s + tail|
    ensures EndOfText(s + tail, n) == EndOfText(s + tail, |s|)
  {
    hide IsWhitespace;
    if n > |s| {
      assert (s + tail)[n - 1] == tail[n - 1 - |s|];
      EndOfAppended(s, tail, n - 1);
    }
  }

  lemma TrimEndKeeps(s: string)
    requires Trimmed(s)
    ensures TrimEnd(s) == s
  {
    hide IsWhitespace;
    assert s[..|s|] == s;
  }

  lemma {:induction false} StartOfLater(c: char, s: string, k: nat)
    requires k <= |s|
    ensures StartOfText([c] + s, k + 1) == StartOfText(s, k) + 1
    decreases |s| - k
  {
    hide IsWhitespace;
    if k < |s| { StartOfLater(c, s, k + 1); }
  }

  /** Whitespace in front of a text does not change what `trim` leaves of it. */
  lemma TrimSkips(c: char, s: string)
    requires IsWhitespace(c)
    ensures Trim([c] + s) == Trim(s)
  {
    hide IsWhitespace, TrimEnd;
    StartOfLater(c, s, 0);
    assert ([c] + s)[StartOfText(s, 0) + 1..] == s[StartOfText(s, 0)..];
  }

  /** Whitespace after a text does not change what `trim_end` leaves of it. */
  lemma TrimEndAppend(s: string, tail: string)
    requires Blank(tail)
    ensures TrimEnd(s + tail) == TrimEnd(s)
  {
    hide IsWhitespace, EndOfText;
    EndOfAppended(s, tail, |s + tail|);
    EndOfSame(s, s + tail, |s|);
  }

  /** `pattern` occurs in `s` at index `k`. */
  predicate At(s: string, pattern: string, k: int) {
    0 <= k && k + |pattern| <= |s| && s[k..k + |pattern|] == pattern
  }

  /** The first occurrence of `pattern` at `from` or later. */
  function FindFrom(s: string, pattern: string, from: nat): (r: Option<nat>)
    ensures r.Some? ==> from <= r.value && At(s, pattern, r.value)
    ensures r.Some? ==> forall k :: from <= k < r.value ==> !At(s, pattern, k)
    ensures r.None? ==> forall k :: from <= k ==> !At(s, pattern, k)
    decreases |s| - from
  {
    if from + |pattern| > |s| then None
    else if At(s, pattern, from) then Some(from)
    else FindFrom(s, pattern, from + 1)
  }

  /** The last occurrence of `pattern` at `upTo` or earlier. */
  function RFindFrom(s: string, pattern: string, upTo: int): (r: Option<nat>)
    ensures r.Some? ==> r.value <= upTo && At(s, pattern, r.value)
    ensures r.Some? ==> forall k :: r.value < k <= upTo ==> !At(s, pattern, k)
    ensures r.None? ==> forall k :: k <= upTo ==> !At(s, pattern, k)
    decreases upTo + 1
  {
    if upTo < 0 then None
    else if At(s, pattern, upTo) then Some(upTo)
    else RFindFrom(s, pattern, upTo - 1)
  }

  function Find(s: string, pattern: string): Option<nat> { FindFrom(s, pattern, 0) }

  function RFind(s: string, pattern: string): Option<nat> { RFindFrom(s, pattern, |s|) }

  /** `str::split_once`: around the first occurrence. */
  function SplitOnce(s: string, pattern: string): Option<(string, string)> {
    match Find(s, pattern)
    case None => None
    case Some(k) => Some((s[..k], s[k + |pattern|..]))
  }

  /** `str::rsplit_once`: around the last occurrence. */
  function RSplitOnce(s: string, pattern: string): Option<(string, string)> {
    match RFind(s, pattern)
    case None => None
    case Some(k) => Some((s[..k], s[k + |pattern|..]))
  }

  /** Splitting once at the first occurrence of a character gives back the two parts. */
  lemma SplitAtFirst(left: string, c: char, right: string)
    requires c !in left
    ensures SplitOnce(left + [c] + right, [c]) == Some((left, right))
  {
    var s := left + [c] + right;
    assert At(s, [c], |left|);
    forall k | 0 <= k < |left| ensures !At(s, [c], k) {
      assert s[k..k + 1] == [left[k]];
    }
    assert s[..|left|] == left && s[|left| + 1..] == right;
  }

  lemma SplitAtLast(left: string, c: char, right: string)
    requires c !in right
    ensures RSplitOnce(left + [c] + right, [c]) == Some((left, right))
  {
    var s := left + [c] + right;
    assert At(s, [c], |left|);
    forall k | |left| < k <= |s| ensures !At(s, [c], k) {
      if k < |s| {
        assert s[k..k + 1] == [right[k - |left| - 1]];
      }
    }
    assert s[..|left|] == left && s[|left| + 1..] == right;
  }

  function StripPrefix(s: string, prefix: string): Option<string> {
    if prefix <= s then Some(s[|prefix|..]) else None
  }

  function StripSuffix(s: string, suffix: string): Option<string> {
    if |suffix| <= |s| && s[|s| - |suffix|..] == suffix then Some(s[..|s| - |suffix|]) else None
  }

  /** A line without the carriage return before its line feed. */
  function StripReturn(line: string): (r: string)
    ensures r <= line
  {
    if line != [] && line[|line| - 1] == '\r' then line[..|line| - 1] else line
  }

  /** `str::lines`: a line feed ends a line, and takes a carriage return before it along. */
  function Lines(s: string): seq<string>
    decreases |s|
  {
    if s == [] then [] else
      match Find(s, "\n")
      case None => [s]
      case Some(k) => [StripReturn(s[..k])] + Lines(s[k + 1..])
  }

  /** Every line followed by a line feed. */
  function Unlines(lines: seq<string>): string {
    if lines == [] then "" else lines[0] + "\n" + Unlines(lines[1..])
  }

  /** A line that `Lines` leaves as it is. */
  predicate Plain(line: string) {
    '\n' !in line && (line == [] || line[|line| - 1] != '\r')
  }

  lemma LinesStep(line: string, rest: string)
    requires '\n' !in line
    ensures Lines(line + "\n" + rest) == [StripReturn(line)] + Lines(rest)
  {
    var s := line + "\n" + rest;
    SplitAtFirst(line, '\n', rest);
    assert s[|line| + 1..] == rest && s[..|line|] == line;
  }

  lemma LinesOfOne(line: string)
    requires '\n' !in line && line != []
    ensures Lines(line) == [line]
  {
    forall k | 0 <= k < |line| ensures !At(line, "\n", k) {
      assert line[k..k + 1] == [line[k]];
    }
  }

  /** The lines, each without a carriage return at its end. */
  function Stripped(lines: seq<string>): (r: seq<string>)
    ensures |r| == |lines| && forall k :: 0 <= k < |r| ==> r[k] == StripReturn(lines[k])
  {
    seq(|lines|, k requires 0 <= k < |lines| => StripReturn(lines[k]))
  }

  lemma StrippedAppend(a: seq<string>, b: seq<string>)
    ensures Stripped(a + b) == Stripped(a) + Stripped(b)
  {
    hide StripReturn;
  }

  lemma {:induction false} LinesOfUnlines(lines: seq<string>)
    requires forall k :: 0 <= k < |lines| ==> '\n' !in lines[k]
    ensures Lines(Unlines(lines)) == Stripped(lines)
  {
    hide StripReturn;
    if lines != [] {
      LinesStep(lines[0], Unlines(lines[1..]));
      LinesOfUnlines(lines[1..]);
      StrippedAppend([lines[0]], lines[1..]);
      assert [lines[0]] + lines[1..] == lines;
    }
  }

  lemma PlainLinesStay(lines: seq<string>)
    requires forall k :: 0 <= k < |lines| ==> Plain(lines[k])
    ensures Lines(Unlines(lines)) == lines
  {
    LinesOfUnlines(lines);
  }

  /** `line` is in `s` in full at index `at`, where a line of `s` starts. */
  predicate StartsLine(s: string, line: string, at: nat) {
    At(s, line, at) && (at == 0 || s[at - 1] == '\n')
  }

  lemma StartsLineLater(s: string, n: nat, line: string, at: nat)
    requires n < |s| && s[n] == '\n' && StartsLine(s[n + 1..], line, at)
    ensures StartsLine(s, line, n + 1 + at)
  {
    var t := s[n + 1..];
    assert t[at..at + |line|] == s[n + 1 + at..n + 1 + at + |line|];
    assert at > 0 ==> t[at - 1] == s[n + at];
  }

  /** Every line starts at the start of the text or after a line feed, and is there in full. */
  lemma {:induction false} LineIsThere(s: string, k: nat) returns (at: nat)
    requires k < |Lines(s)|
    ensures StartsLine(s, Lines(s)[k], at)
    decreases |s|
  {
    hide FindFrom, StripReturn;
    at := 0;
    match Find(s, "\n") {
      case None =>
      case Some(n) =>
        if k == 0 {
          assert Lines(s)[0] == StripReturn(s[..n]) <= s[..n];
        } else {
          assert s[n..n + 1] == "\n";
          assert Lines(s)[k] == Lines(s[n + 1..])[k - 1];
          var rest := LineIsThere(s[n + 1..], k - 1);
          StartsLineLater(s, n, Lines(s)[k], rest);
          at := n + 1 + rest;
        }
    }
  }

  function DigitChar(d: nat): char
    requires d < 10
  {
    '0' + d as char
  }

  predicate IsDigit(c: char) { '0' <= c <= '9' }

  predicate AllDigits(s: string) { forall k :: 0 <= k < |s| ==> IsDigit(s[k]) }

  /** A number in decimal, without leading zeros. */
  function Decimal(n: nat): (s: string)
    ensures s != [] && AllDigits(s) && DigitsValue(s) == n
  {
    if n < 10 then [DigitChar(n)] else Decimal(n / 10) + [DigitChar(n % 10)]
  }

  function DigitsValue(s: string): nat
    requires AllDigits(s)
  {
    if s == [] then 0 else 10 * DigitsValue(s[..|s| - 1]) + (s[|s| - 1] as int - '0' as int)
  }

  const USIZE_MAX: nat := 0xFFFF_FFFF_FFFF_FFFF

  /** `str::parse::<usize>`: an optional plus sign, then decimal digits that do not overflow. */
  function ParseUsize(s: string): Option<nat> {
    var digits := if s != [] && s[0] == '+' then s[1..] else s;
    if digits == [] || !AllDigits(digits) || DigitsValue(digits) > USIZE_MAX then None
    else Some(DigitsValue(digits))
  }

  lemma ParseOfDecimal(n: nat)
    requires n <= USIZE_MAX
    ensures ParseUsize(Decimal(n)) == Some(n)
  {
    assert Decimal(n)[0] != '+';
  }
}

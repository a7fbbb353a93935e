/**
  What the removal of escape sequences does to all the forms that the standards give
  them, of which it knows only some.

  By ECMA-48, the control sequences of section 5.4 and the control strings of section
  5.6 begin with ESC and a character, or with one control character alone, and the end
  of a string has two forms, too. By section 13 of ECMA-35, other escapes have any
  number of characters between ESC and their final one.
 */
module EscapeForms {
  import opened TerminalText

  /** How a control string ends; BEL is what terminals accept beside the two forms of ST. */
  datatype End = ByBel | ByPair | BySingle

  /** `single` is the form with one control character in place of ESC and another one. */
  datatype Piece =
    | Plain(text: string)
    | Control(single: bool, body: string, final: char)
    | Command(opener: char, single: bool, text: string, end: End)
    | Other(between: string, final: char)

  /** Device control strings, character strings, and operating system, privacy and program commands. */
  predicate IsOpener(c: char) { c == 'P' || c == 'X' || c == ']' || c == '^' || c == '_' }

  /** The control character that stands for ESC and `c`. */
  function SingleOf(c: char): (r: char)
    requires '@' <= c <= '_'
    ensures '\U{80}' <= r <= '\U{9F}'
  {
    (c as int + 0x40) as char
  }

  const ST: char := SingleOf('\\')

  /** A character that starts an escape, in either form. */
  predicate StartsPiece(c: char) {
    || c == ESC || c == SingleOf('[') || c == SingleOf('P') || c == SingleOf('X')
    || c == SingleOf(']') || c == SingleOf('^') || c == SingleOf('_')
  }

  /** The characters of a command string. */
  predicate IsCommandText(c: char) { '\U{8}' <= c <= '\r' || ' ' <= c <= '~' }

  predicate Proper(p: Piece) {
    match p
    case Plain(text) => forall k :: 0 <= k < |text| ==> !StartsPiece(text[k])
    case Control(_, body, final) => (forall k :: 0 <= k < |body| ==> ' ' <= body[k] <= '?') && IsFinal(final)
    case Command(opener, _, text, _) => IsOpener(opener) && forall k :: 0 <= k < |text| ==> IsCommandText(text[k])
    case Other(between, final) =>
      && (forall k :: 0 <= k < |between| ==> ' ' <= between[k] <= '/') && '0' <= final <= '~'
      && (between == "" ==> final != '[' && !IsOpener(final))
  }

  function Started(c: char, single: bool): string
    requires '@' <= c <= '_'
  {
    if single then [SingleOf(c)] else [ESC, c]
  }

  function Ended(end: End): string {
    match end case ByBel => [BEL] case ByPair => [ESC, '\\'] case BySingle => [ST]
  }

  function Spelled(p: Piece): string
    requires Proper(p)
  {
    match p
    case Plain(text) => text
    case Control(single, body, final) => Started('[', single) + body + [final]
    case Command(opener, single, text, end) => Started(opener, single) + text + Ended(end)
    case Other(between, final) => [ESC] + between + [final]
  }

  function SpelledAll(ps: seq<Piece>): string
    requires forall k :: 0 <= k < |ps| ==> Proper(ps[k])
  {
    if ps == [] then "" else Spelled(ps[0]) + SpelledAll(ps[1..])
  }

  // Which characters are shown.

  predicate Shows(c: char) { Shown(c) != "" }

  function Hidden(n: nat): (r: seq<bool>)
    ensures |r| == n && forall k :: 0 <= k < n ==> !r[k]
  {
    seq(n, _ => false)
  }

  function Showing(text: string): (r: seq<bool>)
    ensures |r| == |text| && forall k :: 0 <= k < |r| ==> r[k] == Shows(text[k])
  {
    seq(|text|, k requires 0 <= k < |text| => Shows(text[k]))
  }

  /** Of each character of `s`, whether the removal shows it. */
  function Kept(s: string): (r: seq<bool>)
    ensures |r| == |s|
    decreases |s|
  {
    if s == [] then []
    else if s[0] == ESC then
      var rest := AfterEscape(s[1..]);
      Hidden(|s| - |rest|) + Kept(rest)
    else [Shows(s[0])] + Kept(s[1..])
  }

  /** The same of the rest of a text within an operating system command. */
  function KeptWithin(s: string): (r: seq<bool>)
    ensures |r| == |s|
  {
    var rest := AfterOsc(s);
    Hidden(|s| - |rest|) + Kept(rest)
  }

  function KeptFrom(s: string, within: bool): (r: seq<bool>)
    ensures |r| == |s|
  {
    if within then KeptWithin(s) else Kept(s)
  }

  /** What the marked characters become. */
  function ShownWhere(s: string, marks: seq<bool>): string
    requires |marks| == |s|
  {
    if s == [] then [] else (if marks[0] then Shown(s[0]) else []) + ShownWhere(s[1..], marks[1..])
  }

  /** Of each character, whether it belongs to plain text and is one to show. */
  function Wanted(p: Piece): (r: seq<bool>)
    requires Proper(p)
    ensures |r| == |Spelled(p)|
  {
    if p.Plain? then Showing(p.text) else Hidden(|Spelled(p)|)
  }

  function WantedAll(ps: seq<Piece>): (r: seq<bool>)
    requires forall k :: 0 <= k < |ps| ==> Proper(ps[k])
    ensures |r| == |SpelledAll(ps)|
  {
    if ps == [] then [] else Wanted(ps[0]) + WantedAll(ps[1..])
  }

  // What the removal makes of each piece.

  /** Where the first BEL is, or the length. */
  function FirstBel(text: string): (r: nat)
    ensures r <= |text| && (forall k :: 0 <= k < r ==> text[k] != BEL) && (r < |text| ==> text[r] == BEL)
  {
    if text == [] || text[0] == BEL then 0 else 1 + FirstBel(text[1..])
  }

  predicate NothingShows(text: string) { forall k :: 0 <= k < |text| ==> !Shows(text[k]) }

  /**
    Whether the removal goes on in a command after this piece. It is in one from ESC `]`
    until BEL or ESC `\`, whatever comes in between.
   */
  predicate WithinAfter(p: Piece, within: bool) {
    match p
    case Plain(text) => within && BEL !in text
    case Control(_, _, _) => within
    case Command(opener, single, _, end) => (within || (opener == ']' && !single)) && end.BySingle?
    case Other(between, final) => within && !(between == "" && final == '\\')
  }

  /**
    Whether the removal does right by a piece. Within what it takes for a command, that
    is so unless it drops plain text. Otherwise, it shows the rest of a control sequence
    that one character starts, the text of every control string but ESC `]`, and all
    that an escape has after its second character.
   */
  predicate Right(p: Piece, within: bool) {
    match p
    case Plain(text) => within ==> NothingShows(text[..FirstBel(text)])
    case Control(single, _, _) => within || !single
    case Command(opener, single, text, _) => within || (opener == ']' && !single) || NothingShows(text)
    case Other(between, _) => within || between == ""
  }

  predicate AllRight(ps: seq<Piece>, within: bool) {
    ps == [] || (Right(ps[0], within) && AllRight(ps[1..], WithinAfter(ps[0], within)))
  }

  /** What the removal shows of a piece. */
  function Marks(p: Piece, within: bool): (r: seq<bool>)
    requires Proper(p)
    ensures |r| == |Spelled(p)|
  {
    match p
    case Plain(text) =>
      if within then Hidden(FirstBel(text)) + Showing(text[FirstBel(text)..]) else Showing(text)
    case Control(single, body, final) =>
      if within || !single then Hidden(|Spelled(p)|) else [false] + Showing(body + [final])
    case Command(opener, single, text, end) =>
      if within || (opener == ']' && !single) then Hidden(|Spelled(p)|)
      else Hidden(|Started(opener, single)|) + Showing(text) + Hidden(|Ended(end)|)
    case Other(between, final) =>
      if within || between == "" then Hidden(|Spelled(p)|) else Hidden(2) + Showing(between[1..] + [final])
  }

  // The removal, piece by piece.

  lemma ShowingAppend(a: string, b: string)
    ensures Showing(a + b) == Showing(a) + Showing(b)
  {
    hide Shows;
  }

  lemma KeptCharacter(c: char, rest: string)
    requires c != ESC
    ensures Kept([c] + rest) == Showing([c]) + Kept(rest)
  {
    hide Shows, AfterEscape;
    assert ([c] + rest)[1..] == rest;
    assert Showing([c]) == [Shows(c)];
  }

  lemma {:induction false} KeptText(text: string, rest: string)
    requires ESC !in text
    ensures Kept(text + rest) == Showing(text) + Kept(rest)
  {
    hide Shows, Kept, Showing;
    if text == [] {
      assert text + rest == rest;
      assert Showing(text) + Kept(rest) == Kept(rest);
    } else {
      var first, more := [text[0]], text[1..];
      assert text == first + more && text + rest == first + (more + rest);
      KeptCharacter(text[0], more + rest);
      KeptText(more, rest);
      ShowingAppend(first, more);
    }
  }

  /** An escape that ends after `piece` shows nothing. */
  lemma KeptEscape(piece: string, rest: string)
    requires piece != [] && piece[0] == ESC && AfterEscape(piece[1..] + rest) == rest
    ensures Kept(piece + rest) == Hidden(|piece|) + Kept(rest)
  {
    hide AfterEscape;
    assert (piece + rest)[1..] == piece[1..] + rest;
  }

  /** A command could end at index `k`: there is BEL, or ESC with `\` or nothing after it. */
  predicate EndsAt(s: string, k: nat)
    requires k < |s|
  {
    s[k] == BEL || (s[k] == ESC && (k + 1 == |s| || s[k + 1] == '\\'))
  }

  predicate NoEnd(s: string) { forall k :: 0 <= k < |s| ==> !EndsAt(s, k) }

  lemma {:induction false} PassedBy(s: string, rest: string)
    requires NoEnd(s)
    ensures AfterOsc(s + rest) == AfterOsc(rest)
  {
    if s == [] {
      assert s + rest == rest;
    } else {
      assert !EndsAt(s, 0) && (|s| > 1 ==> (s + rest)[1] == s[1]);
      assert (s + rest)[1..] == s[1..] + rest;
      NoEndLater(s);
      PassedBy(s[1..], rest);
    }
  }

  lemma NoEndLater(s: string)
    requires NoEnd(s) && s != []
    ensures NoEnd(s[1..])
  {
    forall k | 0 <= k < |s[1..]| ensures !EndsAt(s[1..], k) {
      assert !EndsAt(s, k + 1);
    }
  }

  lemma WithinText(s: string, rest: string)
    requires NoEnd(s)
    ensures KeptWithin(s + rest) == Hidden(|s|) + KeptWithin(rest)
  {
    hide AfterOsc, NoEnd;
    PassedBy(s, rest);
  }

  lemma WithinEnds(end: End, rest: string)
    requires !end.BySingle?
    ensures KeptWithin(Ended(end) + rest) == Hidden(|Ended(end)|) + Kept(rest)
  {
    var s := Ended(end) + rest;
    assert s[|Ended(end)|..] == rest;
  }

  lemma SingleForms(c: char)
    requires '@' <= c <= '_'
    ensures var r := SingleOf(c); r != ESC && r != BEL && !Shows(r)
  {
  }

  // Plain text.

  lemma PlainStep(text: string, within: bool, rest: string)
    requires Proper(Plain(text))
    ensures KeptFrom(text + rest, within) == Marks(Plain(text), within) + KeptFrom(rest, WithinAfter(Plain(text), within))
  {
    hide StartsPiece, Shows, Kept, KeptWithin, FirstBel;
    NoEscape(text);
    if !within {
      KeptText(text, rest);
    } else {
      var n := FirstBel(text);
      WithinText(text[..n], text[n..] + rest);
      assert text + rest == text[..n] + (text[n..] + rest);
      if n < |text| {
        BelEnds(text[n..], rest);
      } else {
        assert text[n..] + rest == rest && Showing(text[n..]) == [];
      }
    }
  }

  lemma BelEnds(text: string, rest: string)
    requires text != [] && text[0] == BEL && ESC !in text
    ensures KeptWithin(text + rest) == Showing(text) + Kept(rest)
  {
    hide Shows, Kept, KeptWithin;
    WithinEnds(ByBel, text[1..] + rest);
    assert text + rest == [BEL] + (text[1..] + rest);
    KeptText(text[1..], rest);
    BelIsHidden(text);
  }

  lemma NoEscape(text: string)
    requires Proper(Plain(text))
    ensures ESC !in text && forall k :: 0 <= k <= |text| ==> ESC !in text[..k] && ESC !in text[k..]
  {
  }

  lemma BelIsHidden(text: string)
    requires text != [] && text[0] == BEL
    ensures Showing(text) == Hidden(1) + Showing(text[1..])
  {
  }

  // Control sequences.

  lemma ControlStep(p: Piece, within: bool, rest: string)
    requires p.Control? && Proper(p)
    ensures KeptFrom(Spelled(p) + rest, within) == Marks(p, within) + KeptFrom(rest, WithinAfter(p, within))
  {
    hide Shows, Kept, KeptWithin, IsFinal, AfterCsi, AfterOsc;
    SingleForms('[');
    FinalFacts(p.final);
    var inside := p.body + [p.final];
    if within {
      WithinText(Spelled(p), rest);
    } else if p.single {
      assert Spelled(p) == [SingleOf('[')] + inside;
      assert Showing(Spelled(p)) == [false] + Showing(inside);
      KeptText(Spelled(p), rest);
    } else {
      CsiEnds(p.body, p.final, rest);
      assert Spelled(p)[1..] + rest == ['['] + (inside + rest);
      assert (['['] + (inside + rest))[1..] == inside + rest;
      KeptEscape(Spelled(p), rest);
    }
  }

  lemma FinalFacts(c: char)
    requires IsFinal(c)
    ensures c != ESC && c != BEL && Shows(c)
    ensures forall d :: ' ' <= d <= '?' ==> !IsFinal(d) && d != ESC && d != BEL && Shows(d)
  {
  }

  // Control strings.

  lemma CommandStep(p: Piece, within: bool, rest: string)
    requires p.Command? && Proper(p)
    ensures KeptFrom(Spelled(p) + rest, within) == Marks(p, within) + KeptFrom(rest, WithinAfter(p, within))
  {
    hide Shows, Kept, KeptWithin, Ended, AfterOsc;
    var start, text, end := Started(p.opener, p.single), p.text, Ended(p.end);
    assert Spelled(p) + rest == start + (text + (end + rest)) == (start + text) + (end + rest);
    if within {
      CommandWithin(p, rest);
    } else if p.opener == ']' && !p.single {
      KnownCommand(p, rest);
    } else {
      OtherCommand(p, rest);
    }
  }

  lemma CommandWithin(p: Piece, rest: string)
    requires p.Command? && Proper(p)
    ensures var front := Started(p.opener, p.single) + p.text;
            KeptWithin(front + (Ended(p.end) + rest)) == Hidden(|front| + |Ended(p.end)|) + KeptFrom(rest, p.end.BySingle?)
  {
    hide KeptWithin, KeptFrom, Ended;
    var front := Started(p.opener, p.single) + p.text;
    CommandText(p);
    WithinText(front, Ended(p.end) + rest);
    EndWithin(p.end, rest);
  }

  lemma KnownCommand(p: Piece, rest: string)
    requires p.Command? && Proper(p) && p.opener == ']' && !p.single
    ensures Kept([ESC, ']'] + (p.text + (Ended(p.end) + rest)))
         == Hidden(2 + |p.text| + |Ended(p.end)|) + KeptFrom(rest, p.end.BySingle?)
  {
    hide KeptWithin, KeptFrom, Kept, Ended;
    CommandText(p);
    OscOpens(p.text + (Ended(p.end) + rest));
    WithinText(p.text, Ended(p.end) + rest);
    EndWithin(p.end, rest);
  }

  lemma OtherCommand(p: Piece, rest: string)
    requires p.Command? && Proper(p) && (p.opener == ']' ==> p.single)
    ensures var start, end := Started(p.opener, p.single), Ended(p.end);
            Kept(start + (p.text + (end + rest))) == Hidden(|start|) + Showing(p.text) + Hidden(|end|) + Kept(rest)
  {
    hide Kept, Ended, Started, Showing;
    CommandText(p);
    StringOpens(p.opener, p.single, p.text + (Ended(p.end) + rest));
    KeptText(p.text, Ended(p.end) + rest);
    EndOutside(p.end, rest);
  }

  lemma CommandText(p: Piece)
    requires p.Command? && Proper(p)
    ensures ESC !in p.text && NoEnd(p.text) && NoEnd(Started(p.opener, p.single) + p.text)
  {
    SingleForms(p.opener);
  }

  lemma EndWithin(end: End, rest: string)
    ensures KeptWithin(Ended(end) + rest) == Hidden(|Ended(end)|) + KeptFrom(rest, end.BySingle?)
  {
    hide KeptWithin, Kept;
    SingleForms('\\');
    if end.BySingle? { WithinText([ST], rest); } else { WithinEnds(end, rest); }
  }

  lemma EndOutside(end: End, rest: string)
    ensures Kept(Ended(end) + rest) == Hidden(|Ended(end)|) + Kept(rest)
  {
    hide Kept, Shows;
    SingleForms('\\');
    if end.ByPair? {
      assert Ended(end)[1..] + rest == ['\\'] + rest && (['\\'] + rest)[1..] == rest;
      KeptEscape(Ended(end), rest);
    } else {
      BelShowsNothing();
      KeptText(Ended(end), rest);
    }
  }

  lemma BelShowsNothing()
    ensures !Shows(BEL) && BEL != ESC
  {
  }

  lemma OscOpens(rest: string)
    ensures Kept([ESC, ']'] + rest) == Hidden(2) + KeptWithin(rest)
  {
    hide AfterOsc;
    var s := [ESC, ']'] + rest;
    assert s[1..] == [']'] + rest && s[1..][1..] == rest;
    assert AfterEscape(s[1..]) == AfterOsc(rest);
  }

  lemma StringOpens(opener: char, single: bool, rest: string)
    requires IsOpener(opener) && (opener == ']' ==> single)
    ensures Kept(Started(opener, single) + rest) == Hidden(|Started(opener, single)|) + Kept(rest)
  {
    hide Kept, Shows;
    var start := Started(opener, single);
    SingleForms(opener);
    if single {
      KeptText(start, rest);
    } else {
      assert start[1..] + rest == [opener] + rest && ([opener] + rest)[1..] == rest;
      KeptEscape(start, rest);
    }
  }

  // Other escapes.

  lemma OtherStep(p: Piece, within: bool, rest: string)
    requires p.Other? && Proper(p)
    ensures KeptFrom(Spelled(p) + rest, within) == Marks(p, within) + KeptFrom(rest, WithinAfter(p, within))
  {
    hide Shows, Kept, KeptWithin;
    if within {
      if p.between == "" && p.final == '\\' {
        assert Spelled(p) == Ended(ByPair);
        WithinEnds(ByPair, rest);
      } else {
        WithinText(Spelled(p), rest);
      }
    } else {
      var inside := p.between + [p.final];
      assert Spelled(p) == [ESC] + inside;
      assert p.between != "" ==> inside[1..] == p.between[1..] + [p.final];
      OtherOutside(inside, rest);
    }
  }

  lemma OtherOutside(inside: string, rest: string)
    requires inside != "" && inside[0] != '[' && inside[0] != ']' && ESC !in inside[1..]
    ensures Kept([ESC] + inside + rest) == Hidden(2) + Showing(inside[1..]) + Kept(rest)
  {
    hide Shows, Kept, AfterOsc, AfterCsi;
    var first, more := [ESC, inside[0]], inside[1..];
    assert [ESC] + inside + rest == first + (more + rest);
    assert first[1..] + (more + rest) == [inside[0]] + (more + rest);
    assert ([inside[0]] + (more + rest))[1..] == more + rest;
    KeptEscape(first, more + rest);
    KeptText(more, rest);
  }

  lemma PieceStep(p: Piece, within: bool, rest: string)
    requires Proper(p)
    ensures KeptFrom(Spelled(p) + rest, within) == Marks(p, within) + KeptFrom(rest, WithinAfter(p, within))
  {
    hide Proper, Spelled, Marks, KeptFrom, WithinAfter;
    match p
    case Plain(text) =>
      PlainStep(text, within, rest);
      assert Spelled(p) == text by { PlainIsItself(text); }
    case Control(_, _, _) => ControlStep(p, within, rest);
    case Command(_, _, _, _) => CommandStep(p, within, rest);
    case Other(_, _) => OtherStep(p, within, rest);
  }

  lemma PlainIsItself(text: string)
    requires Proper(Plain(text))
    ensures Spelled(Plain(text)) == text
  {
  }

  // What is right.

  lemma MarksAreRight(p: Piece, within: bool)
    requires Proper(p)
    ensures Marks(p, within) == Wanted(p) <==> Right(p, within)
  {
    hide Shows, IsFinal;
    match p
    case Plain(text) => PlainMarks(text, within);
    case Control(single, body, final) =>
      FinalFacts(final);
      if !within && single {
        var marks := [false] + Showing(body + [final]);
        assert marks[|marks| - 1] && |marks| == |Spelled(p)|;
      }
    case Command(opener, single, text, end) => CommandMarks(p, within);
    case Other(between, final) =>
      if !within && between != "" {
        var marks := Hidden(2) + Showing(between[1..] + [final]);
        FinalShows(final);
        assert marks[|marks| - 1] && |marks| == |Spelled(p)|;
      }
  }

  lemma FinalShows(c: char)
    requires '0' <= c <= '~'
    ensures Shows(c)
  {
  }

  lemma PlainMarks(text: string, within: bool)
    requires Proper(Plain(text))
    ensures Marks(Plain(text), within) == Wanted(Plain(text)) <==> Right(Plain(text), within)
  {
    hide Shows, StartsPiece, Showing, Hidden, FirstBel;
    if within {
      var n := FirstBel(text);
      assert text == text[..n] + text[n..];
      ShowingAppend(text[..n], text[n..]);
      HiddenText(text[..n]);
      SplitEqual(Hidden(n), Showing(text[..n]), Showing(text[n..]), Showing(text[n..]));
    }
  }

  lemma HiddenText(text: string)
    ensures Hidden(|text|) == Showing(text) <==> NothingShows(text)
  {
    hide Shows;
    if NothingShows(text) { assert Hidden(|text|) == Showing(text); }
  }

  lemma CommandMarks(p: Piece, within: bool)
    requires p.Command? && Proper(p)
    ensures Marks(p, within) == Wanted(p) <==> Right(p, within)
  {
    hide Shows, Showing, Hidden, IsCommandText;
    if !within && (p.opener != ']' || p.single) {
      TextBetween(|Started(p.opener, p.single)|, p.text, |Ended(p.end)|);
    }
  }

  lemma TextBetween(start: nat, text: string, end: nat)
    ensures Hidden(start) + Showing(text) + Hidden(end) == Hidden(start + |text| + end) <==> NothingShows(text)
  {
    HiddenText(text);
    assert Hidden(start + |text| + end) == Hidden(start) + Hidden(|text|) + Hidden(end);
    SplitEqual(Hidden(start), Hidden(start), Showing(text) + Hidden(end), Hidden(|text|) + Hidden(end));
    SplitEqual(Showing(text), Hidden(|text|), Hidden(end), Hidden(end));
    assert Hidden(start) + Showing(text) + Hidden(end) == Hidden(start) + (Showing(text) + Hidden(end));
    assert Hidden(start) + Hidden(|text|) + Hidden(end) == Hidden(start) + (Hidden(|text|) + Hidden(end));
  }

  lemma {:induction false} KeptAsWanted(ps: seq<Piece>, within: bool)
    requires forall k :: 0 <= k < |ps| ==> Proper(ps[k])
    ensures KeptFrom(SpelledAll(ps), within) == WantedAll(ps) <==> AllRight(ps, within)
  {
    hide Proper, Spelled, Marks, Wanted, Right, WithinAfter;
    if ps == [] {
      NothingKept(within);
    } else {
      var p, rest := ps[0], SpelledAll(ps[1..]);
      PieceStep(p, within, rest);
      MarksAreRight(p, within);
      KeptAsWanted(ps[1..], WithinAfter(p, within));
      SplitEqual(Marks(p, within), Wanted(p), KeptFrom(rest, WithinAfter(p, within)), WantedAll(ps[1..]));
    }
  }

  lemma SplitEqual(a: seq<bool>, a': seq<bool>, b: seq<bool>, b': seq<bool>)
    requires |a| == |a'|
    ensures a + b == a' + b' <==> a == a' && b == b'
  {
    if a + b == a' + b' {
      assert a == (a + b)[..|a|] && b == (a + b)[|a|..];
      assert a' == (a' + b')[..|a|] && b' == (a' + b')[|a|..];
    }
  }

  lemma NothingKept(within: bool)
    ensures KeptFrom("", within) == []
  {
  }

  // The text that comes out.

  lemma {:induction false} HiddenIsNotShown(s: string, marks: seq<bool>, n: nat)
    requires |marks| == |s| && n <= |s| && forall k :: 0 <= k < n ==> !marks[k]
    ensures ShownWhere(s, marks) == ShownWhere(s[n..], marks[n..])
  {
    hide Shown;
    if n > 0 {
      HiddenIsNotShown(s[1..], marks[1..], n - 1);
      assert s[1..][n - 1..] == s[n..] && marks[1..][n - 1..] == marks[n..];
    }
  }

  /** The removal shows the characters that are marked. */
  lemma {:induction false} CleanShowsKept(s: string)
    ensures Clean(s) == ShownWhere(s, Kept(s))
    decreases |s|
  {
    hide Shown, AfterEscape;
    if s != [] {
      if s[0] == ESC {
        var rest := AfterEscape(s[1..]);
        var n := |s| - |rest|;
        CleanShowsKept(rest);
        EscapeIsSuffix(s[1..]);
        HiddenIsNotShown(s, Kept(s), n);
        assert Kept(s)[n..] == Kept(rest);
      } else {
        CleanShowsKept(s[1..]);
      }
    }
  }

  lemma EscapeIsSuffix(s: string)
    ensures AfterEscape(s) == s[|s| - |AfterEscape(s)|..]
  {
    if s != [] {
      CsiIsSuffix(s[1..]);
      OscIsSuffix(s[1..]);
    }
  }

  lemma {:induction false} CsiIsSuffix(s: string)
    ensures AfterCsi(s) == s[|s| - |AfterCsi(s)|..]
  {
    if s != [] { CsiIsSuffix(s[1..]); }
  }

  lemma {:induction false} OscIsSuffix(s: string)
    ensures AfterOsc(s) == s[|s| - |AfterOsc(s)|..]
  {
    if s != [] { OscIsSuffix(s[1..]); }
  }

  /** The plain text of the pieces, as it is to be shown. */
  function PlainText(ps: seq<Piece>): string {
    if ps == [] then "" else (if ps[0].Plain? then ShownText(ps[0].text) else "") + PlainText(ps[1..])
  }

  lemma {:induction false} ShownWhereAppend(s: string, marks: seq<bool>, t: string, more: seq<bool>)
    requires |marks| == |s| && |more| == |t|
    ensures ShownWhere(s + t, marks + more) == ShownWhere(s, marks) + ShownWhere(t, more)
  {
    hide Shown;
    if s == [] {
      assert s + t == t && marks + more == more;
    } else {
      assert (s + t)[1..] == s[1..] + t && (marks + more)[1..] == marks[1..] + more;
      ShownWhereAppend(s[1..], marks[1..], t, more);
    }
  }

  lemma {:induction false} ShownWhereShowing(text: string)
    ensures ShownWhere(text, Showing(text)) == ShownText(text)
  {
    if text != [] {
      ShownWhereShowing(text[1..]);
      assert Showing(text)[1..] == Showing(text[1..]);
    }
  }

  lemma PieceText(p: Piece)
    requires Proper(p)
    ensures ShownWhere(Spelled(p), Wanted(p)) == if p.Plain? then ShownText(p.text) else ""
  {
    hide Shown, ShownText, Showing;
    if p.Plain? {
      ShownWhereShowing(p.text);
    } else {
      HiddenIsNotShown(Spelled(p), Wanted(p), |Spelled(p)|);
    }
  }

  lemma {:induction false} WantedText(ps: seq<Piece>)
    requires forall k :: 0 <= k < |ps| ==> Proper(ps[k])
    ensures ShownWhere(SpelledAll(ps), WantedAll(ps)) == PlainText(ps)
  {
    hide Proper, Spelled, Wanted, Shown, ShownText;
    if ps != [] {
      PieceText(ps[0]);
      WantedText(ps[1..]);
      ShownWhereAppend(Spelled(ps[0]), Wanted(ps[0]), SpelledAll(ps[1..]), WantedAll(ps[1..]));
    }
  }

  /**
    Of any interleaving of plain text with escapes of all these forms, the removal shows
    exactly the characters of the plain text if and only if it does right by each piece;
    the plain text is then what comes out.
   */
  lemma PlainTextIsLeftExactlyWhen(ps: seq<Piece>)
    requires forall k :: 0 <= k < |ps| ==> Proper(ps[k])
    ensures Kept(SpelledAll(ps)) == WantedAll(ps) <==> AllRight(ps, false)
    ensures AllRight(ps, false) ==> Clean(SpelledAll(ps)) == PlainText(ps)
  {
    hide Proper, Kept, Wanted, Clean, SpelledAll, AllRight;
    KeptAsWanted(ps, false);
    CleanShowsKept(SpelledAll(ps));
    WantedText(ps);
  }

  /** The forms that the removal knows. */
  predicate Known(p: Piece) {
    match p
    case Plain(_) => true
    case Control(single, _, _) => !single
    case Command(opener, single, _, end) => opener == ']' && !single && !end.BySingle?
    case Other(between, _) => between == ""
  }

  /** It does right by any interleaving of these. */
  lemma {:induction false} KnownFormsAreRight(ps: seq<Piece>)
    requires forall k :: 0 <= k < |ps| ==> Known(ps[k])
    ensures AllRight(ps, false)
  {
    if ps != [] {
      assert Known(ps[0]);
      KnownFormsAreRight(ps[1..]);
    }
  }

  lemma ControlIsDropped(c: char, rest: string)
    requires IsControl(c) && c != ESC && c != '\n' && c != '\t'
    ensures Clean([c] + rest) == Clean(rest)
  {
    assert ([c] + rest)[1..] == rest;
  }

  lemma ShowableStays(text: string, rest: string)
    requires Showable(text)
    ensures Clean(text + rest) == text + Clean(rest)
  {
    CleanRun(text, rest);
    CleanRun(text, "");
    ShowableIsClean(text);
    assert text + "" == text && ShownText(text) + Clean("") == ShownText(text);
  }

  /** A control sequence that one character starts: all else of it is shown. */
  lemma SingleControlIsShown()
    ensures Clean("\U{9B}31mred") == "31mred"
  {
    ControlIsDropped('\U{9B}', "31mred");
    ShowableIsClean("31mred");
    assert ['\U{9B}'] + "31mred" == "\U{9B}31mred";
  }

  lemma SingleCommand(text: string, rest: string)
    requires Showable(text) && Showable(rest)
    ensures Clean([SingleOf(']')] + (text + ([BEL] + rest))) == text + rest
  {
    hide Clean, Showable;
    ControlIsDropped(SingleOf(']'), text + ([BEL] + rest));
    ShowableStays(text, [BEL] + rest);
    ControlIsDropped(BEL, rest);
    ShowableIsClean(rest);
  }

  /** A command that one character starts: its text is shown. */
  lemma SingleCommandIsShown()
    ensures Clean("\U{9D}0;title\U{07}shown") == "0;titleshown"
  {
    hide Clean;
    SingleCommand("0;title", "shown");
    assert [SingleOf(']')] + ("0;title" + ([BEL] + "shown")) == "\U{9D}0;title\U{07}shown";
  }

  /** A command that one character ends: the text after it is dropped. */
  lemma SingleEndIsPassedBy()
    ensures Clean("\U{1B}]0;title\U{9C}shown") == ""
  {
    var s := "\U{1B}]0;title\U{9C}shown";
    assert [ESC, ']'] <= s && Unterminated(s[2..]);
    CleanTail(s);
  }

  lemma DeviceControl(text: string, rest: string)
    requires Showable(text) && Showable(rest)
    ensures Clean([ESC, 'P'] + (text + ([ESC, '\\'] + rest))) == text + rest
  {
    hide Showable;
    EscapeIsDropped('P', text + ([ESC, '\\'] + rest));
    ShowableStays(text, [ESC, '\\'] + rest);
    EscapeIsDropped('\\', rest);
    ShowableIsClean(rest);
  }

  lemma EscapeIsDropped(c: char, rest: string)
    requires c != '[' && c != ']'
    ensures Clean([ESC, c] + rest) == Clean(rest)
  {
    assert ([ESC, c] + rest)[1..] == [c] + rest && ([c] + rest)[1..] == rest;
  }

  /** Another control string: its text is shown. */
  lemma DeviceControlIsShown()
    ensures Clean("\U{1B}Pq\U{1B}\\shown") == "qshown"
  {
    hide Clean;
    DeviceControl("q", "shown");
    assert [ESC, 'P'] + ("q" + ([ESC, '\\'] + "shown")) == "\U{1B}Pq\U{1B}\\shown";
  }

  /** An escape of three characters: the last one is shown. */
  lemma LongEscapeLeavesItsTail()
    ensures Clean("\U{1B}(Bred") == "Bred"
  {
    assert "\U{1B}(Bred"[1..][1..] == "Bred";
    ShowableIsClean("Bred");
  }

  /**
    Why it is the characters that count: what is shown too much and what is dropped can
    be the same text.
   */
  lemma TextsCanAgreeByChance()
    ensures var ps := [Control(true, "", 'm'), Command(']', false, "t", BySingle), Plain("m")];
            && (forall k :: 0 <= k < |ps| ==> Proper(ps[k])) && !AllRight(ps, false)
            && Clean(SpelledAll(ps)) == PlainText(ps) == "m"
  {
    var ps := [Control(true, "", 'm'), Command(']', false, "t", BySingle), Plain("m")];
    assert !Right(ps[0], false);
    AsText();
    ChanceText();
  }

  lemma AsText()
    ensures var ps := [Control(true, "", 'm'), Command(']', false, "t", BySingle), Plain("m")];
            && (forall k :: 0 <= k < |ps| ==> Proper(ps[k]))
            && SpelledAll(ps) == "\U{9B}m\U{1B}]t\U{9C}m" && PlainText(ps) == "m"
  {
    hide Spelled, SpelledAll, PlainText, ShownText;
    var p, q, r := Control(true, "", 'm'), Command(']', false, "t", BySingle), Plain("m");
    ChancePieces();
    PieceCons(r, []);
    PieceCons(q, [r]);
    PieceCons(p, [q, r]);
    assert [r] + [] == [r] && [q] + [r] == [q, r] && [p] + [q, r] == [p, q, r];
    NoPieces();
  }

  lemma ChancePieces()
    ensures Proper(Control(true, "", 'm')) && Spelled(Control(true, "", 'm')) == "\U{9B}m"
    ensures Proper(Command(']', false, "t", BySingle)) && Spelled(Command(']', false, "t", BySingle)) == "\U{1B}]t\U{9C}"
    ensures Proper(Plain("m")) && Spelled(Plain("m")) == "m" && ShownText("m") == "m"
  {
    assert ShownText("m") == "m" + ShownText("m"[1..]);
  }

  lemma PieceCons(p: Piece, ps: seq<Piece>)
    requires Proper(p) && forall k :: 0 <= k < |ps| ==> Proper(ps[k])
    ensures SpelledAll([p] + ps) == Spelled(p) + SpelledAll(ps)
    ensures PlainText([p] + ps) == (if p.Plain? then ShownText(p.text) else "") + PlainText(ps)
  {
    assert ([p] + ps)[1..] == ps;
  }

  lemma NoPieces()
    ensures SpelledAll([]) == "" && PlainText([]) == ""
  {
  }

  lemma ChanceText()
    ensures Clean("\U{9B}m\U{1B}]t\U{9C}m") == "m"
  {
    var tail := "\U{1B}]t\U{9C}m";
    assert [ESC, ']'] <= tail && Unterminated(tail[2..]);
    CleanTail(tail);
    ControlIsDropped('\U{9B}', "m" + tail);
    ShowableStays("m", tail);
    assert ['\U{9B}'] + ("m" + tail) == "\U{9B}m\U{1B}]t\U{9C}m";
  }
}

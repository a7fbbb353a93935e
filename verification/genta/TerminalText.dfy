/** Removing terminal escape sequences and control characters from text that is only to be shown. */
module TerminalText {
  const ESC: char := '\U{1B}'
  const BEL: char := '\U{07}'

  /** Unicode `Cc`, as `char::is_control`. */
  predicate IsControl(c: char) { c < ' ' || '\U{7F}' <= c <= '\U{9F}' }

  /** The final byte of a control sequence, by section 5.4 of ECMA-48. */
  predicate IsFinal(c: char) { '\U{40}' <= c <= '\U{7E}' }

  /** What one character outside any escape becomes. */
  function Shown(c: char): string {
    if c == '\n' then [c] else if c == '\t' then "    " else if IsControl(c) then [] else [c]
  }

  /** What follows the first final byte; nothing, if there is none. */
  function AfterCsi(s: string): (r: string)
    ensures |r| <= |s|
  {
    if s == [] then [] else if IsFinal(s[0]) then s[1..] else AfterCsi(s[1..])
  }

  /** What follows the first BEL or ESC `\`; nothing, if there is none. */
  function AfterOsc(s: string): (r: string)
    ensures |r| <= |s|
  {
    if s == [] then [] else
    if s[0] == BEL then s[1..] else
    if s[0] == ESC && |s| > 1 && s[1] == '\\' then s[2..] else AfterOsc(s[1..])
  }

  function AfterEscape(s: string): (r: string)
    ensures |r| <= |s|
  {
    if s == [] then [] else
    if s[0] == '[' then AfterCsi(s[1..]) else
    if s[0] == ']' then AfterOsc(s[1..]) else s[1..]
  }

  function Clean(s: string): string
    decreases |s|
  {
    if s == [] then []
    else if s[0] == ESC then Clean(AfterEscape(s[1..]))
    else Shown(s[0]) + Clean(s[1..])
  }

  method CleanTerminalText(text: string) returns (out: string)
    ensures out == Clean(text)
  {
    hide Shown, AfterCsi, AfterOsc, AfterEscape;
    out := "";
    var i := 0;
    while i < |text|
      invariant i <= |text|
      invariant out + Clean(text[i..]) == Clean(text)
    {
      var c := text[i];
      i := i + 1;
      assert text[i - 1..][1..] == text[i..];
      if c == ESC {
        i := SkipEscape(text, i);
      } else {
        var shown := ShownCharacter(c);
        out := out + shown;
      }
    }
    assert text[|text|..] == [] && out + [] == out;
  }

  method ShownCharacter(c: char) returns (r: string)
    ensures r == Shown(c)
  {
    match c {
      case '\n' => r := [c];
      case '\t' => r := "    ";
      case '\r' => r := [];
      case _ => r := if IsControl(c) then [] else [c];
    }
  }

  /** Skip what follows an ESC. */
  method SkipEscape(text: string, start: nat) returns (i: nat)
    requires start <= |text|
    ensures start <= i <= |text| && text[i..] == AfterEscape(text[start..])
  {
    i := start;
    if i == |text| { return; }
    var kind := text[i];
    i := i + 1;
    assert text[start..][1..] == text[i..];
    if kind == '[' {
      i := SkipCsi(text, i);
    } else if kind == ']' {
      i := SkipOsc(text, i);
    }
  }

  method SkipCsi(text: string, start: nat) returns (i: nat)
    requires start <= |text|
    ensures start <= i <= |text| && text[i..] == AfterCsi(text[start..])
  {
    i := start;
    while i < |text|
      invariant start <= i <= |text|
      invariant AfterCsi(text[i..]) == AfterCsi(text[start..])
    {
      var c := text[i];
      i := i + 1;
      assert text[i - 1..][1..] == text[i..];
      if IsFinal(c) { return; }
    }
  }

  method SkipOsc(text: string, start: nat) returns (i: nat)
    requires start <= |text|
    ensures start <= i <= |text| && text[i..] == AfterOsc(text[start..])
  {
    i := start;
    while i < |text|
      invariant start <= i <= |text|
      invariant AfterOsc(text[i..]) == AfterOsc(text[start..])
    {
      var c := text[i];
      i := i + 1;
      assert text[i - 1..][1..] == text[i..];
      if c == BEL { return; }
      if c == ESC && i < |text| && text[i] == '\\' {
        assert text[i - 1..][2..] == text[i + 1..];
        i := i + 1;
        return;
      }
    }
  }

  // What comes out.

  /** Newlines and characters that are not control characters. */
  predicate Showable(s: string) { forall k :: 0 <= k < |s| ==> s[k] == '\n' || !IsControl(s[k]) }

  lemma {:induction false} CleanIsShowable(s: string)
    ensures Showable(Clean(s))
    decreases |s|
  {
    if s == [] {
    } else if s[0] == ESC {
      CleanIsShowable(AfterEscape(s[1..]));
    } else {
      CleanIsShowable(s[1..]);
    }
  }

  lemma {:induction false} ShowableIsClean(s: string)
    requires Showable(s)
    ensures Clean(s) == s
  {
    if s != [] {
      ShowableIsClean(s[1..]);
      assert s == [s[0]] + s[1..];
    }
  }

  /** A text is left as it is if and only if it can be shown; so cleaning twice is cleaning once. */
  lemma CleaningIsIdempotent(s: string)
    ensures Clean(Clean(s)) == Clean(s)
    ensures Clean(s) == s <==> Showable(s)
  {
    CleanIsShowable(s);
    ShowableIsClean(Clean(s));
    if Showable(s) { ShowableIsClean(s); }
  }

  /**
    What each character outside of escapes becomes, wherever it is: a line feed stays, a
    tab is four spaces, other control characters go, and all others stay.
   */
  lemma CharactersAreShown(c: char, rest: string)
    requires c != ESC
    ensures c == '\n' ==> Clean([c] + rest) == "\n" + Clean(rest)
    ensures c == '\t' ==> Clean([c] + rest) == "    " + Clean(rest)
    ensures c != '\n' && c != '\t' && (c < ' ' || '\U{7F}' <= c < '\U{A0}') ==> Clean([c] + rest) == Clean(rest)
    ensures ' ' <= c < '\U{7F}' || '\U{A0}' <= c ==> Clean([c] + rest) == [c] + Clean(rest)
  {
    assert ([c] + rest)[1..] == rest;
  }

  // What is removed.

  /**
    A run of text without ESC, a control sequence that ESC `[` starts, an operating system
    command (section 5.6 of ECMA-48) that ESC `]` starts and BEL or ESC `\` ends, or
    another escape of two characters.
   */
  datatype Segment =
    | Run(text: string)
    | Csi(body: string, final: char)
    | Osc(text: string, bel: bool)
    | Escape(c: char)

  /** No BEL, and no ESC `\`. */
  predicate Unterminated(s: string) {
    forall k :: 0 <= k < |s| ==> s[k] != BEL && !(s[k] == ESC && k + 1 < |s| && s[k + 1] == '\\')
  }

  predicate WellFormed(g: Segment) {
    match g
    case Run(text) => ESC !in text
    case Csi(body, final) => IsFinal(final) && forall k :: 0 <= k < |body| ==> !IsFinal(body[k])
    case Osc(text, _) => Unterminated(text)
    case Escape(c) => c != '[' && c != ']'
  }

  function Written(g: Segment): string {
    match g
    case Run(text) => text
    case Csi(body, final) => [ESC, '['] + body + [final]
    case Osc(text, bel) => [ESC, ']'] + text + (if bel then [BEL] else [ESC, '\\'])
    case Escape(c) => [ESC, c]
  }

  function WrittenAll(gs: seq<Segment>): string {
    if gs == [] then "" else Written(gs[0]) + WrittenAll(gs[1..])
  }

  function ShownText(text: string): string {
    if text == [] then [] else Shown(text[0]) + ShownText(text[1..])
  }

  function ShownAll(gs: seq<Segment>): string {
    if gs == [] then "" else (if gs[0].Run? then ShownText(gs[0].text) else "") + ShownAll(gs[1..])
  }

  /** An escape that the end of the text cuts short, or nothing. */
  predicate CutShort(tail: string) {
    || tail == [] || tail == [ESC]
    || ([ESC, '['] <= tail && forall k :: 2 <= k < |tail| ==> !IsFinal(tail[k]))
    || ([ESC, ']'] <= tail && Unterminated(tail[2..]))
  }

  lemma {:induction false} CleanRun(text: string, rest: string)
    requires ESC !in text
    ensures Clean(text + rest) == ShownText(text) + Clean(rest)
  {
    hide Shown;
    if text == [] {
      assert text + rest == rest;
    } else {
      assert (text + rest)[1..] == text[1..] + rest;
      CleanRun(text[1..], rest);
      assert Shown(text[0]) + (ShownText(text[1..]) + Clean(rest)) == ShownText(text) + Clean(rest);
    }
  }

  lemma {:induction false} CsiEnds(body: string, final: char, rest: string)
    requires IsFinal(final) && forall k :: 0 <= k < |body| ==> !IsFinal(body[k])
    ensures AfterCsi(body + [final] + rest) == rest
  {
    var s := body + [final] + rest;
    if body == [] {
      assert s[1..] == rest;
    } else {
      assert s[1..] == body[1..] + [final] + rest;
      CsiEnds(body[1..], final, rest);
    }
  }

  lemma {:induction false} CsiNeverEnds(s: string)
    requires forall k :: 0 <= k < |s| ==> !IsFinal(s[k])
    ensures AfterCsi(s) == []
  {
    if s != [] { CsiNeverEnds(s[1..]); }
  }

  lemma {:induction false} OscEnds(text: string, bel: bool, rest: string)
    requires Unterminated(text)
    ensures AfterOsc(text + (if bel then [BEL] else [ESC, '\\']) + rest) == rest
  {
    var end := if bel then [BEL] else [ESC, '\\'];
    var s := text + end + rest;
    if text == [] {
      assert s[|end|..] == rest;
    } else {
      assert s[1..] == text[1..] + end + rest;
      OscEnds(text[1..], bel, rest);
    }
  }

  lemma {:induction false} OscNeverEnds(s: string)
    requires Unterminated(s)
    ensures AfterOsc(s) == []
  {
    if s != [] { OscNeverEnds(s[1..]); }
  }

  lemma CleanCsi(body: string, final: char, rest: string)
    requires WellFormed(Csi(body, final))
    ensures Clean(Written(Csi(body, final)) + rest) == Clean(rest)
  {
    hide IsFinal, AfterCsi;
    var s := Written(Csi(body, final)) + rest;
    CsiEnds(body, final, rest);
    assert s[1..][1..] == body + [final] + rest;
  }

  lemma CleanOsc(text: string, bel: bool, rest: string)
    requires WellFormed(Osc(text, bel))
    ensures Clean(Written(Osc(text, bel)) + rest) == Clean(rest)
  {
    hide Unterminated, AfterOsc;
    var s := Written(Osc(text, bel)) + rest;
    OscEnds(text, bel, rest);
    assert s[1..][1..] == text + (if bel then [BEL] else [ESC, '\\']) + rest;
  }

  lemma CleanSegment(g: Segment, rest: string)
    requires WellFormed(g)
    ensures Clean(Written(g) + rest) == (if g.Run? then ShownText(g.text) else "") + Clean(rest)
  {
    hide IsFinal, Unterminated, AfterCsi, AfterOsc, ShownText;
    match g
    case Run(text) => CleanRun(text, rest);
    case Csi(body, final) => CleanCsi(body, final, rest);
    case Osc(text, bel) => CleanOsc(text, bel, rest);
    case Escape(c) => assert (Written(g) + rest)[1..][1..] == rest;
  }

  lemma CleanTail(tail: string)
    requires CutShort(tail)
    ensures Clean(tail) == []
  {
    if |tail| >= 2 {
      assert tail[1..][1..] == tail[2..];
      if tail[1] == '[' { CsiNeverEnds(tail[2..]); } else { OscNeverEnds(tail[2..]); }
    }
  }

  /**
    Exactly the escapes are erased: of any interleaving of runs and complete escapes,
    with one cut short at the end, the runs are left, without control characters and
    with tabs as four spaces.
   */
  lemma {:induction false} OnlyEscapesAreErased(gs: seq<Segment>, tail: string)
    requires CutShort(tail) && forall k :: 0 <= k < |gs| ==> WellFormed(gs[k])
    ensures Clean(WrittenAll(gs) + tail) == ShownAll(gs)
  {
    hide WellFormed, Written, ShownText, CutShort;
    if gs == [] {
      assert "" + tail == tail;
      CleanTail(tail);
    } else {
      assert WrittenAll(gs) + tail == Written(gs[0]) + (WrittenAll(gs[1..]) + tail);
      CleanSegment(gs[0], WrittenAll(gs[1..]) + tail);
      OnlyEscapesAreErased(gs[1..], tail);
    }
  }

  // Every text is such an interleaving.

  lemma {:induction false} SplitCsi(s: string) returns (complete: bool, body: string, rest: string)
    ensures forall k :: 0 <= k < |body| ==> !IsFinal(body[k])
    ensures if complete then rest != [] && IsFinal(rest[0]) && s == body + rest else s == body && rest == []
  {
    if s == [] {
      complete, body, rest := false, [], [];
    } else if IsFinal(s[0]) {
      complete, body, rest := true, [], s;
    } else {
      complete, body, rest := SplitCsi(s[1..]);
      body := [s[0]] + body;
    }
  }

  lemma {:induction false} SplitOsc(s: string) returns (complete: bool, text: string, bel: bool, rest: string)
    ensures Unterminated(text)
    ensures s == if complete then text + (if bel then [BEL] else [ESC, '\\']) + rest else text
  {
    if s == [] {
      complete, text, bel, rest := false, [], false, [];
    } else if s[0] == BEL {
      complete, text, bel, rest := true, [], true, s[1..];
    } else if s[0] == ESC && |s| > 1 && s[1] == '\\' {
      complete, text, bel, rest := true, [], false, s[2..];
    } else {
      complete, text, bel, rest := SplitOsc(s[1..]);
      text := [s[0]] + text;
      assert s == [s[0]] + s[1..];
    }
  }

  lemma WrittenCons(g: Segment, gs: seq<Segment>)
    ensures WrittenAll([g] + gs) == Written(g) + WrittenAll(gs)
  {
    assert ([g] + gs)[1..] == gs;
  }

  lemma FirstCsi(s: string) returns (g: Segment, rest: string)
    requires !CutShort(s) && [ESC, '['] <= s
    ensures WellFormed(g) && s == Written(g) + rest && |rest| < |s|
  {
    hide IsFinal, Unterminated;
    var complete, body, from := SplitCsi(s[2..]);
    assert s == [ESC, '['] + s[2..];
    assert !complete ==> CutShort(s);
    g, rest := Csi(body, from[0]), from[1..];
    assert from == [from[0]] + from[1..];
  }

  lemma FirstOsc(s: string) returns (g: Segment, rest: string)
    requires !CutShort(s) && [ESC, ']'] <= s
    ensures WellFormed(g) && s == Written(g) + rest && |rest| < |s|
  {
    hide IsFinal, Unterminated;
    var complete, text, bel, after := SplitOsc(s[2..]);
    assert s == [ESC, ']'] + s[2..];
    assert !complete ==> CutShort(s);
    g, rest := Osc(text, bel), after;
  }

  /** The first segment of a text, unless an escape is cut short there. */
  lemma FirstSegment(s: string) returns (g: Segment, rest: string)
    requires !CutShort(s)
    ensures WellFormed(g) && s == Written(g) + rest && |rest| < |s|
  {
    hide IsFinal, Unterminated;
    if s[0] != ESC {
      g, rest := Run([s[0]]), s[1..];
    } else {
      assert s != [ESC];
      if s[1] == '[' {
        g, rest := FirstCsi(s);
      } else if s[1] == ']' {
        g, rest := FirstOsc(s);
      } else {
        g, rest := Escape(s[1]), s[2..];
      }
    }
  }

  lemma {:induction false} EveryTextIsSegments(s: string) returns (gs: seq<Segment>, tail: string)
    ensures CutShort(tail) && (forall k :: 0 <= k < |gs| ==> WellFormed(gs[k]))
    ensures s == WrittenAll(gs) + tail && Clean(s) == ShownAll(gs)
    decreases |s|
  {
    hide WellFormed, Written, CutShort, Clean, ShownAll;
    if CutShort(s) {
      gs, tail := [], s;
    } else {
      var g, rest := FirstSegment(s);
      gs, tail := EveryTextIsSegments(rest);
      WrittenCons(g, gs);
      gs := [g] + gs;
    }
    OnlyEscapesAreErased(gs, tail);
  }
}

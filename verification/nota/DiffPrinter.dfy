/** What `git diff --unified=0` prints for a list of changed files, and that it reads back. */
module DiffPrinter {
  import opened Wrappers
  import opened Text
  import opened EditScripts
  import opened DiffText

  // Paths.

  predicate IsByte(c: char) { c as int < 256 }

  predicate IsBytes(s: string) { forall k :: 0 <= k < |s| ==> IsByte(s[k]) }

  /** The letter of a byte's one-letter escape. */
  function EscapeLetter(c: char): Option<char> {
    if c == '\n' then Some('n')
    else if c == '\t' then Some('t')
    else if c == '\U{7}' then Some('a')
    else if c == '\U{8}' then Some('b')
    else if c == '\U{C}' then Some('f')
    else if c == '\U{B}' then Some('v')
    else if c == '\r' then Some('r')
    else if c == '"' || c == '\\' then Some(c)
    else None
  }

  /** Whether Git escapes the byte; `high` is `core.quotePath`, which adds those from 128 on. */
  predicate NeedsEscape(c: char, high: bool) {
    c < ' ' || c == '\U{7F}' || c == '"' || c == '\\' || (high && c >= '\U{80}')
  }

  function Octal(c: char): string
    requires IsByte(c)
  {
    var n := c as int;
    [DigitChar(n / 64), DigitChar(n / 8 % 8), DigitChar(n % 8)]
  }

  function QuoteByte(c: char, high: bool): string
    requires IsByte(c)
  {
    if !NeedsEscape(c, high) then [c] else
      match EscapeLetter(c)
      case Some(letter) => ['\\', letter]
      case None => "\\" + Octal(c)
  }

  function Quote(s: string, high: bool): string
    requires IsBytes(s)
  {
    if s == [] then [] else QuoteByte(s[0], high) + Quote(s[1..], high)
  }

  predicate NeedsQuotes(s: string, high: bool) {
    exists k :: 0 <= k < |s| && NeedsEscape(s[k], high)
  }

  /** A path as a `---` or `+++` line has it; `tab` says whether a tab ends it. */
  function PrintPath(name: string, high: bool, tab: bool): string
    requires IsBytes(name)
  {
    (if NeedsQuotes(name, high) then "\"" + Quote(name, high) + "\"" else name) + (if tab then "\t" else "")
  }

  lemma OctalReads(c: char, rest: string)
    requires IsByte(c)
    ensures ReadByte("\\" + Octal(c) + rest) == c && ReadLength("\\" + Octal(c) + rest) == 4
  {
    var s := "\\" + Octal(c) + rest;
    var n := c as int;
    assert s[1..4] == Octal(c) && s[1..][0] == s[1] && s[1..][1] == s[2] && s[1..][2] == s[3];
    assert 64 * (n / 64) + 8 * (n / 8 % 8) + n % 8 == n;
  }

  lemma QuotedByteReads(c: char, high: bool, rest: string)
    requires IsByte(c)
    ensures ReadByte(QuoteByte(c, high) + rest) == c
    ensures ReadLength(QuoteByte(c, high) + rest) == |QuoteByte(c, high)|
  {
    if NeedsEscape(c, high) && EscapeLetter(c).None? {
      OctalReads(c, rest);
    }
  }

  /** Unquoting undoes quoting, for every sequence of bytes. */
  lemma {:induction false} QuoteRoundTrip(s: string, high: bool)
    requires IsBytes(s)
    ensures Unquote(Quote(s, high)) == s
  {
    if s != [] {
      var first, rest := QuoteByte(s[0], high), Quote(s[1..], high);
      QuotedByteReads(s[0], high, rest);
      QuoteRoundTrip(s[1..], high);
      assert first != [];
      assert (first + rest)[|first|..] == rest;
      assert s == [s[0]] + s[1..];
    }
  }

  /** The parser reads the path back, quoted or not, with a tab or without. */
  lemma PathRoundTrip(prefix: string, path: string, high: bool, tab: bool)
    requires IsBytes(prefix + path) && prefix + path != []
    ensures DiffPath(PrintPath(prefix + path, high, tab), prefix) == Some(path)
  {
    hide Unquote, Quote, NeedsEscape;
    var name := prefix + path;
    var shown := if NeedsQuotes(name, high) then "\"" + Quote(name, high) + "\"" else name;
    ShownEnds(name, high);
    StripTab(shown, tab);
    assert shown + "" == shown;
    if NeedsQuotes(name, high) {
      QuoteRoundTrip(name, high);
      StripQuotes(Quote(name, high));
    }
    assert name[|prefix|..] == path;
  }

  lemma StripQuotes(s: string)
    ensures StripPrefix("\"" + s + "\"", "\"") == Some(s + "\"")
    ensures StripSuffix(s + "\"", "\"") == Some(s)
  {
    var quoted := "\"" + s + "\"";
    assert quoted[1..] == s + "\"";
    assert (s + "\"")[|s|..] == "\"" && (s + "\"")[..|s|] == s;
  }

  lemma ShownEnds(name: string, high: bool)
    requires IsBytes(name) && name != []
    ensures !NeedsQuotes(name, high) ==> name[0] != '"' && name[|name| - 1] != '\t'
  {
    assert NeedsEscape('"', high) && NeedsEscape('\t', high);
  }

  lemma StripTab(s: string, tab: bool)
    requires s != [] && s[|s| - 1] != '\t'
    ensures StripSuffix(s + (if tab then "\t" else ""), "\t") == (if tab then Some(s) else None)
  {
    var t := s + (if tab then "\t" else "");
    if tab {
      assert t[|t| - 1..] == "\t" && t[..|t| - 1] == s;
    } else {
      assert t == s && t[|t| - 1..] == [s[|s| - 1]];
    }
  }

  lemma DevNullIsNoPath(prefix: string)
    requires prefix == "a/" || prefix == "b/"
    ensures DiffPath("/dev/null", prefix) == None
  {
    var v := "/dev/null";
    assert v[|v| - 1..] == "l";
    assert v[0] == '/';
  }

  // Hunk headers.

  /** A range as a header has it; a count of 1 may be left out. */
  function PrintRange(r: Range, omit: bool): string {
    Decimal(r.start) + (if r.count == 1 && omit then "" else "," + Decimal(r.count))
  }

  lemma RangeRoundTrip(r: Range, omit: bool)
    requires r.start <= USIZE_MAX && r.count <= USIZE_MAX
    ensures HunkRange(PrintRange(r, omit)) == Some(r)
  {
    hide Decimal, ParseUsize;
    var start := Decimal(r.start);
    ParseOfDecimal(r.start);
    ParseOfDecimal(r.count);
    if r.count == 1 && omit {
      assert PrintRange(r, omit) == start;
      NoSplit(start);
      assert Decimal(1) == "1" by { OneInDecimal(); }
    } else {
      assert PrintRange(r, omit) == start + "," + Decimal(r.count);
      SplitAtFirst(start, ',', Decimal(r.count));
    }
  }

  lemma OneInDecimal()
    ensures Decimal(1) == "1"
  {
  }

  lemma NoSplit(s: string)
    requires AllDigits(s)
    ensures SplitOnce(s, ",") == None
  {
    forall k | 0 <= k < |s| ensures !At(s, ",", k) {
      assert s[k..k + 1] == [s[k]];
    }
  }

  /** A range's text: digits, and a comma. */
  lemma RangeText(r: Range, omit: bool)
    ensures var s := PrintRange(r, omit);
            s != [] && forall k :: 0 <= k < |s| ==> IsDigit(s[k]) || s[k] == ','
  {
    hide Decimal;
  }

  lemma AtStart(s: string, pattern: string, k: int)
    requires |pattern| >= 2
    ensures At(s, pattern, k) ==> s[k] == pattern[0] && s[k + 1] == pattern[1]
  {
    if At(s, pattern, k) {
      assert s[k..k + |pattern|][0] == pattern[0] && s[k..k + |pattern|][1] == pattern[1];
    }
  }

  /** Splitting at a pattern whose first two characters never follow each other in the text before it. */
  lemma SplitAtPattern(left: string, pattern: string, right: string)
    requires |pattern| >= 2
    requires forall k :: 0 <= k < |left| && left[k] == pattern[0] ==> k + 1 < |left| && left[k + 1] != pattern[1]
    ensures SplitOnce(left + pattern + right, pattern) == Some((left, right))
  {
    var s := left + pattern + right;
    assert At(s, pattern, |left|);
    forall k | 0 <= k < |left| ensures !At(s, pattern, k) {
      assert s[k] == left[k];
      AtStart(s, pattern, k);
    }
    assert s[..|left|] == left && s[|left| + |pattern|..] == right;
  }

  function PrintHeader(h: Hunk, omitOld: bool, omitNew: bool, section: string): string {
    PrintRange(OldRange(h), omitOld) + " +" + PrintRange(NewRange(h), omitNew) + " @@" + section
  }

  predicate Countable(h: Hunk) {
    h.oldStart <= USIZE_MAX && h.oldCount <= USIZE_MAX && h.newStart <= USIZE_MAX && h.newCount <= USIZE_MAX
  }

  lemma HeaderRoundTrip(h: Hunk, omitOld: bool, omitNew: bool, section: string)
    requires Countable(h)
    ensures HunkHeader(PrintHeader(h, omitOld, omitNew, section)) == Some(h.(oldLines := [], newLines := []))
  {
    hide PrintRange, HunkRange, SplitOnce;
    var o, n := PrintRange(OldRange(h), omitOld), PrintRange(NewRange(h), omitNew);
    RangeText(OldRange(h), omitOld);
    RangeText(NewRange(h), omitNew);
    var ranges := o + " +" + n;
    assert PrintHeader(h, omitOld, omitNew, section) == ranges + " @@" + section;
    SplitAtPattern(ranges, " @@", section);
    SplitAtPattern(o, " +", n);
    RangeRoundTrip(OldRange(h), omitOld);
    RangeRoundTrip(NewRange(h), omitNew);
  }

  // Hunks.

  const NO_NEWLINE := "\\ No newline at end of file"

  /**
    A hunk as Git prints it: which counts of 1 it leaves out, the section heading
    after the ranges, and whether either side lacks a final line feed.
   */
  datatype PrintedHunk = PrintedHunk(
    hunk: Hunk, omitOld: bool, omitNew: bool, section: string, oldOpen: bool, newOpen: bool)

  function Prefixed(c: char, lines: seq<Line>): (r: seq<string>)
    ensures |r| == |lines| && forall k :: 0 <= k < |lines| ==> r[k] == [c] + lines[k]
  {
    if lines == [] then [] else [[c] + lines[0]] + Prefixed(c, lines[1..])
  }

  function Note(open: bool): seq<string> { if open then [NO_NEWLINE] else [] }

  function PrintHunk(p: PrintedHunk): seq<string> {
    ["@@ -" + PrintHeader(p.hunk, p.omitOld, p.omitNew, p.section)]
    + Prefixed('-', p.hunk.oldLines) + Note(p.oldOpen)
    + Prefixed('+', p.hunk.newLines) + Note(p.newOpen)
  }

  lemma {:induction false} StepsAppend(st: DiffState, first: seq<string>, second: seq<string>)
    ensures Steps(st, first + second)
         == match Steps(st, first) case Failure(e) => Failure(e) case Success(next) => Steps(next, second)
    decreases |first|
  {
    hide Step;
    if first == [] {
      assert first + second == second;
    } else {
      assert (first + second)[1..] == first[1..] + second;
      if Step(st, first[0]).Success? {
        StepsAppend(Step(st, first[0]).value, first[1..], second);
      }
    }
  }

  /** The files so far, with `h` as the last hunk of the last one. */
  function Building(done: seq<FileDiff>, path: string, hunks: seq<Hunk>, h: Hunk): seq<FileDiff> {
    done + [FileDiff(path, hunks + [h])]
  }

  lemma BuildingFacts(done: seq<FileDiff>, path: string, hunks: seq<Hunk>, h: Hunk, h': Hunk)
    ensures var files := Building(done, path, hunks, h);
            HasHunk(files) && LastHunk(files) == h && WithLastHunk(files, h') == Building(done, path, hunks, h')
  {
    var files := Building(done, path, hunks, h);
    assert (hunks + [h])[|hunks| := h'] == hunks + [h'];
  }

  lemma {:induction false} ReadOldLines(
    done: seq<FileDiff>, path: string, hunks: seq<Hunk>, h: Hunk, lines: seq<Line>, oldPath: Option<string>, pendingNew: nat)
    ensures Steps(DiffState(Building(done, path, hunks, h), oldPath, |lines|, pendingNew), Prefixed('-', lines))
         == Success(DiffState(Building(done, path, hunks, h.(oldLines := h.oldLines + lines)), oldPath, 0, pendingNew))
    decreases |lines|
  {
    hide Building;
    if lines == [] {
      assert h.oldLines + [] == h.oldLines;
    } else {
      var h' := h.(oldLines := h.oldLines + [lines[0]]);
      var st := DiffState(Building(done, path, hunks, h), oldPath, |lines|, pendingNew);
      BuildingFacts(done, path, hunks, h, h');
      assert (['-'] + lines[0])[1..] == lines[0];
      assert Step(st, ['-'] + lines[0]) == Success(DiffState(Building(done, path, hunks, h'), oldPath, |lines| - 1, pendingNew));
      ReadOldLines(done, path, hunks, h', lines[1..], oldPath, pendingNew);
      assert h'.oldLines + lines[1..] == h.oldLines + lines;
    }
  }

  lemma {:induction false} ReadNewLines(
    done: seq<FileDiff>, path: string, hunks: seq<Hunk>, h: Hunk, lines: seq<Line>, oldPath: Option<string>)
    ensures Steps(DiffState(Building(done, path, hunks, h), oldPath, 0, |lines|), Prefixed('+', lines))
         == Success(DiffState(Building(done, path, hunks, h.(newLines := h.newLines + lines)), oldPath, 0, 0))
    decreases |lines|
  {
    hide Building;
    if lines == [] {
      assert h.newLines + [] == h.newLines;
    } else {
      var h' := h.(newLines := h.newLines + [lines[0]]);
      var st := DiffState(Building(done, path, hunks, h), oldPath, 0, |lines|);
      BuildingFacts(done, path, hunks, h, h');
      assert (['+'] + lines[0])[1..] == lines[0];
      assert Step(st, ['+'] + lines[0]) == Success(DiffState(Building(done, path, hunks, h'), oldPath, 0, |lines| - 1));
      ReadNewLines(done, path, hunks, h', lines[1..], oldPath);
      assert h'.newLines + lines[1..] == h.newLines + lines;
    }
  }

  lemma ReadNote(st: DiffState, open: bool)
    requires st.pendingOld > 0 || st.pendingNew > 0 ==> HasHunk(st.files)
    ensures Steps(st, Note(open)) == Success(st)
  {
    if open {
      assert NO_NEWLINE[0] == '\\';
      assert Note(open)[1..] == [];
    }
  }

  predicate Printable(p: PrintedHunk) { Complete(p.hunk) && Countable(p.hunk) }

  lemma ReadHeader(st: DiffState, done: seq<FileDiff>, path: string, hunks: seq<Hunk>, p: PrintedHunk)
    requires st.pendingOld == st.pendingNew == 0 && st.files == done + [FileDiff(path, hunks)] && Countable(p.hunk)
    ensures var h := p.hunk.(oldLines := [], newLines := []);
            Step(st, "@@ -" + PrintHeader(p.hunk, p.omitOld, p.omitNew, p.section))
            == Success(DiffState(Building(done, path, hunks, h), st.oldPath, h.oldCount, h.newCount))
  {
    hide PrintHeader, HunkHeader, DiffPath;
    var header := PrintHeader(p.hunk, p.omitOld, p.omitNew, p.section);
    var line := "@@ -" + header;
    HeaderRoundTrip(p.hunk, p.omitOld, p.omitNew, p.section);
    assert line[0] == '@' && line[4..] == header;
    var h := p.hunk.(oldLines := [], newLines := []);
    assert st.files[|done| := FileDiff(path, hunks + [h])] == Building(done, path, hunks, h);
  }

  lemma FinishedHunk(h: Hunk)
    ensures h.(oldLines := [], newLines := []).(oldLines := [] + h.oldLines) == h.(newLines := [])
    ensures h.(newLines := []).(newLines := [] + h.newLines) == h
  {
    assert [] + h.oldLines == h.oldLines && [] + h.newLines == h.newLines;
  }

  /** The lines of a printed hunk add that hunk to the last file, and leave nothing pending. */
  lemma ReadHunk(st: DiffState, done: seq<FileDiff>, path: string, hunks: seq<Hunk>, p: PrintedHunk)
    requires st.pendingOld == st.pendingNew == 0 && st.files == done + [FileDiff(path, hunks)] && Printable(p)
    ensures Steps(st, PrintHunk(p)) == Success(st.(files := done + [FileDiff(path, hunks + [p.hunk])]))
  {
    hide Step, PrintHeader, Building, Prefixed, Note;
    var h := p.hunk;
    var empty := h.(oldLines := [], newLines := []);
    var header := ["@@ -" + PrintHeader(h, p.omitOld, p.omitNew, p.section)];
    var olds, news := Prefixed('-', h.oldLines), Prefixed('+', h.newLines);
    var st1 := DiffState(Building(done, path, hunks, empty), st.oldPath, h.oldCount, h.newCount);
    var st2 := DiffState(Building(done, path, hunks, h.(newLines := [])), st.oldPath, 0, h.newCount);
    var st3 := DiffState(Building(done, path, hunks, h), st.oldPath, 0, 0);
    assert Steps(st, header) == Success(st1) by {
      ReadHeader(st, done, path, hunks, p);
      assert header[1..] == [];
    }
    FinishedHunk(h);
    ReadOldLines(done, path, hunks, empty, h.oldLines, st.oldPath, h.newCount);
    ReadNewLines(done, path, hunks, h.(newLines := []), h.newLines, st.oldPath);
    BuildingFacts(done, path, hunks, h.(newLines := []), h);
    BuildingFacts(done, path, hunks, h, h);
    ReadNote(st2, p.oldOpen);
    ReadNote(st3, p.newOpen);
    StepsAppend(st, header, olds);
    StepsAppend(st, header + olds, Note(p.oldOpen));
    StepsAppend(st, header + olds + Note(p.oldOpen), news);
    StepsAppend(st, header + olds + Note(p.oldOpen) + news, Note(p.newOpen));
    assert Building(done, path, hunks, h) == done + [FileDiff(path, hunks + [h])] by { BuildingIs(done, path, hunks, h); }
  }

  lemma BuildingIs(done: seq<FileDiff>, path: string, hunks: seq<Hunk>, h: Hunk)
    ensures Building(done, path, hunks, h) == done + [FileDiff(path, hunks + [h])]
  {
  }

  function PrintHunks(hunks: seq<PrintedHunk>): seq<string> {
    if hunks == [] then [] else PrintHunk(hunks[0]) + PrintHunks(hunks[1..])
  }

  function HunksOf(hunks: seq<PrintedHunk>): seq<Hunk> {
    if hunks == [] then [] else [hunks[0].hunk] + HunksOf(hunks[1..])
  }

  lemma {:induction false} ReadHunks(st: DiffState, done: seq<FileDiff>, path: string, hunks: seq<Hunk>, printed: seq<PrintedHunk>)
    requires st.pendingOld == st.pendingNew == 0 && st.files == done + [FileDiff(path, hunks)]
    requires forall k :: 0 <= k < |printed| ==> Printable(printed[k])
    ensures Steps(st, PrintHunks(printed)) == Success(st.(files := done + [FileDiff(path, hunks + HunksOf(printed))]))
    decreases |printed|
  {
    hide PrintHunk, Printable, Step;
    if printed == [] {
      assert hunks + [] == hunks;
    } else {
      var p := printed[0];
      var next := st.(files := done + [FileDiff(path, hunks + [p.hunk])]);
      ReadHunk(st, done, path, hunks, p);
      ReadHunks(next, done, path, hunks + [p.hunk], printed[1..]);
      StepsAppend(st, PrintHunk(p), PrintHunks(printed[1..]));
      assert hunks + [p.hunk] + HunksOf(printed[1..]) == hunks + HunksOf(printed);
    }
  }

  // Files.

  /**
    One file of the output: a change of lines, on a file that at least one side has,
    or one without lines, such as of a binary file or of the mode alone. `git` is
    what follows `diff --git `, and `extended` the header lines after it.
   */
  datatype PrintedFile =
    | Lined(git: string, extended: seq<string>, path: string, inOld: bool, inNew: bool, high: bool, tab: bool,
            hunks: seq<PrintedHunk>)
    | Unlined(git: string, extended: seq<string>)

  /** A header line that says nothing about paths or ranges. */
  predicate Ignored(line: string) {
    !("diff --git " <= line) && !("--- " <= line) && !("+++ " <= line) && !("@@ -" <= line)
  }

  function SideText(f: PrintedFile, prefix: string, present: bool): string
    requires f.Lined? && IsBytes(prefix + f.path)
  {
    if present then PrintPath(prefix + f.path, f.high, f.tab) else "/dev/null"
  }

  predicate ValidFile(f: PrintedFile) {
    && (forall k :: 0 <= k < |f.extended| ==> Ignored(f.extended[k]))
    && (f.Lined? ==>
          && IsBytes(f.path) && (f.inOld || f.inNew)
          && forall k :: 0 <= k < |f.hunks| ==> Printable(f.hunks[k]))
  }

  function PrintFile(f: PrintedFile): seq<string>
    requires ValidFile(f)
  {
    ["diff --git " + f.git] + f.extended
    + match f
      case Lined(_, _, path, inOld, inNew, high, tab, hunks) =>
        ["--- " + SideText(f, "a/", inOld), "+++ " + SideText(f, "b/", inNew)] + PrintHunks(hunks)
      case Unlined(_, _) => []
  }

  /** What the output says about one file. */
  function FileOf(f: PrintedFile): seq<FileDiff> {
    if f.Lined? then [FileDiff(f.path, HunksOf(f.hunks))] else []
  }

  lemma {:induction false} SkipIgnored(st: DiffState, lines: seq<string>)
    requires st.pendingOld == st.pendingNew == 0
    requires forall k :: 0 <= k < |lines| ==> Ignored(lines[k])
    ensures Steps(st, lines) == Success(st)
    decreases |lines|
  {
    if lines != [] {
      assert Ignored(lines[0]);
      SkipIgnored(st, lines[1..]);
    }
  }

  lemma ReadSide(f: PrintedFile, prefix: string, present: bool)
    requires f.Lined? && IsBytes(f.path) && (prefix == "a/" || prefix == "b/")
    ensures IsBytes(prefix + f.path)
    ensures DiffPath(SideText(f, prefix, present), prefix) == (if present then Some(f.path) else None)
  {
    if present {
      PathRoundTrip(prefix, f.path, f.high, f.tab);
    } else {
      DevNullIsNoPath(prefix);
    }
  }

  lemma StepsTwo(st: DiffState, first: string, second: string)
    ensures Steps(st, [first, second])
         == match Step(st, first) case Failure(e) => Failure(e) case Success(next) => Step(next, second)
  {
    hide Step;
    StepsAppend(st, [first], [second]);
    assert [first] + [second] == [first, second];
    StepsOne(st, first);
    if Step(st, first).Success? {
      StepsOne(Step(st, first).value, second);
    }
  }

  lemma StepsOne(st: DiffState, line: string)
    ensures Steps(st, [line]) == Step(st, line)
  {
    hide Step;
    var lines: seq<string> := [line];
    assert lines[1..] == [];
  }

  /** The two path lines start the file, whichever of them names it. */
  lemma ReadPaths(st: DiffState, f: PrintedFile)
    requires f.Lined? && ValidFile(f) && st.pendingOld == st.pendingNew == 0
    ensures var r := Steps(st, ["--- " + SideText(f, "a/", f.inOld), "+++ " + SideText(f, "b/", f.inNew)]);
            && r.Success? && r.value.files == st.files + [FileDiff(f.path, [])]
            && r.value.pendingOld == r.value.pendingNew == 0
  {
    hide DiffPath, SideText, HunkHeader;
    var old_, new_ := SideText(f, "a/", f.inOld), SideText(f, "b/", f.inNew);
    var first, second := "--- " + old_, "+++ " + new_;
    ReadSide(f, "a/", f.inOld);
    ReadSide(f, "b/", f.inNew);
    assert first[0] == '-' && first[4..] == old_ && second[0] == '+' && second[4..] == new_;
    var next := st.(oldPath := if f.inOld then Some(f.path) else None);
    assert Step(st, first) == Success(next);
    assert Step(next, second).Success? && Step(next, second).value.files == st.files + [FileDiff(f.path, [])];
    StepsTwo(st, first, second);
  }

  /** A printed file adds exactly what it says, whatever came before. */
  lemma ReadFile(st: DiffState, f: PrintedFile)
    requires ValidFile(f) && st.pendingOld == st.pendingNew == 0
    ensures var r := Steps(st, PrintFile(f));
            r.Success? && r.value.files == st.files + FileOf(f) && r.value.pendingOld == r.value.pendingNew == 0
  {
    hide Steps, PrintHunks, SideText, Ignored;
    var first := ["diff --git " + f.git];
    var st1 := st.(oldPath := None);
    GitLine(st, f.git);
    SkipIgnored(st1, f.extended);
    StepsAppend(st, first, f.extended);
    if f.Lined? {
      var paths := ["--- " + SideText(f, "a/", f.inOld), "+++ " + SideText(f, "b/", f.inNew)];
      ReadPaths(st1, f);
      var st2 := Steps(st1, paths).value;
      StepsAppend(st, first + f.extended, paths + PrintHunks(f.hunks));
      StepsAppend(st1, paths, PrintHunks(f.hunks));
      ReadHunks(st2, st.files, f.path, [], f.hunks);
      assert [] + HunksOf(f.hunks) == HunksOf(f.hunks);
    } else {
      assert first + f.extended + [] == first + f.extended;
      assert st.files + [] == st.files;
    }
  }

  lemma GitLine(st: DiffState, git: string)
    requires st.pendingOld == st.pendingNew == 0
    ensures Steps(st, ["diff --git " + git]) == Success(st.(oldPath := None))
  {
    assert ["diff --git " + git][1..] == [];
  }

  function PrintFiles(files: seq<PrintedFile>): seq<string>
    requires forall k :: 0 <= k < |files| ==> ValidFile(files[k])
  {
    if files == [] then [] else PrintFile(files[0]) + PrintFiles(files[1..])
  }

  function FilesOf(files: seq<PrintedFile>): seq<FileDiff> {
    if files == [] then [] else FileOf(files[0]) + FilesOf(files[1..])
  }

  lemma {:induction false} ReadFiles(st: DiffState, files: seq<PrintedFile>)
    requires st.pendingOld == st.pendingNew == 0
    requires forall k :: 0 <= k < |files| ==> ValidFile(files[k])
    ensures var r := Steps(st, PrintFiles(files));
            r.Success? && r.value.files == st.files + FilesOf(files) && r.value.pendingOld == r.value.pendingNew == 0
    decreases |files|
  {
    hide ValidFile, PrintFile, FileOf, Step;
    if files == [] {
      assert st.files + [] == st.files;
    } else {
      ReadFile(st, files[0]);
      var next := Steps(st, PrintFile(files[0])).value;
      ReadFiles(next, files[1..]);
      StepsAppend(st, PrintFile(files[0]), PrintFiles(files[1..]));
      assert st.files + FileOf(files[0]) + FilesOf(files[1..]) == st.files + FilesOf(files);
    }
  }

  // The text itself.

  /** Every piece of text the printer is given is free of line feeds, and headers of files do not end in a carriage return. */
  predicate HunkText(p: PrintedHunk) {
    && '\n' !in p.section
    && (forall k :: 0 <= k < |p.hunk.oldLines| ==> '\n' !in p.hunk.oldLines[k])
    && (forall k :: 0 <= k < |p.hunk.newLines| ==> '\n' !in p.hunk.newLines[k])
  }

  predicate FileText(f: PrintedFile) {
    && Plain(f.git)
    && (forall k :: 0 <= k < |f.extended| ==> Plain(f.extended[k]))
    && (f.Lined? ==> forall k :: 0 <= k < |f.hunks| ==> HunkText(f.hunks[k]))
  }

  // What is left when each line loses a carriage return at its end.

  function StripHunk(h: Hunk): Hunk { h.(oldLines := Stripped(h.oldLines), newLines := Stripped(h.newLines)) }

  function StripHunks(hunks: seq<Hunk>): (r: seq<Hunk>)
    ensures |r| == |hunks| && forall k :: 0 <= k < |r| ==> r[k] == StripHunk(hunks[k])
  {
    seq(|hunks|, k requires 0 <= k < |hunks| => StripHunk(hunks[k]))
  }

  /** The same changes, with every line without a carriage return at its end. */
  function WithoutReturns(files: seq<FileDiff>): (r: seq<FileDiff>)
    ensures |r| == |files| && forall k :: 0 <= k < |r| ==> r[k] == FileDiff(files[k].path, StripHunks(files[k].hunks))
  {
    seq(|files|, k requires 0 <= k < |files| => FileDiff(files[k].path, StripHunks(files[k].hunks)))
  }

  function StripPrinted(p: PrintedHunk): PrintedHunk { p.(hunk := StripHunk(p.hunk), section := StripReturn(p.section)) }

  function StripAll(hunks: seq<PrintedHunk>): (r: seq<PrintedHunk>)
    ensures |r| == |hunks| && forall k :: 0 <= k < |r| ==> r[k] == StripPrinted(hunks[k])
  {
    seq(|hunks|, k requires 0 <= k < |hunks| => StripPrinted(hunks[k]))
  }

  function StripFile(f: PrintedFile): PrintedFile { if f.Lined? then f.(hunks := StripAll(f.hunks)) else f }

  function StripFiles(files: seq<PrintedFile>): (r: seq<PrintedFile>)
    ensures |r| == |files| && forall k :: 0 <= k < |r| ==> r[k] == StripFile(files[k])
  {
    seq(|files|, k requires 0 <= k < |files| => StripFile(files[k]))
  }

  /** Printed lines: none has a line feed, and without carriage returns they are those given. */
  ghost predicate PrintsAs(lines: seq<string>, stripped: seq<string>) {
    (forall k :: 0 <= k < |lines| ==> '\n' !in lines[k]) && Stripped(lines) == stripped
  }

  lemma PrintsBoth(a: seq<string>, a': seq<string>, b: seq<string>, b': seq<string>)
    requires PrintsAs(a, a') && PrintsAs(b, b')
    ensures PrintsAs(a + b, a' + b')
  {
    hide StripReturn;
    StrippedAppend(a, b);
  }

  lemma PlainPrints(line: string)
    requires Plain(line)
    ensures PrintsAs([line], [line])
  {
  }

  lemma PlainLinesPrint(lines: seq<string>)
    requires forall k :: 0 <= k < |lines| ==> Plain(lines[k])
    ensures PrintsAs(lines, lines)
  {
  }

  /** After a prefix that is not empty and does not end in one, a carriage return is taken off the rest. */
  lemma StripAfter(prefix: string, line: string)
    requires prefix != [] && Plain(prefix)
    ensures StripReturn(prefix + line) == prefix + StripReturn(line)
  {
    if line == [] {
      assert prefix + line == prefix;
    } else {
      assert (prefix + line)[..|prefix + line| - 1] == prefix + line[..|line| - 1];
    }
  }

  lemma HeaderPrints(p: PrintedHunk)
    requires '\n' !in p.section
    ensures PrintsAs(["@@ -" + PrintHeader(p.hunk, p.omitOld, p.omitNew, p.section)],
                     ["@@ -" + PrintHeader(StripHunk(p.hunk), p.omitOld, p.omitNew, StripReturn(p.section))])
  {
    hide PrintRange, StripReturn;
    var o, n := PrintRange(OldRange(p.hunk), p.omitOld), PrintRange(NewRange(p.hunk), p.omitNew);
    RangeText(OldRange(p.hunk), p.omitOld);
    RangeText(NewRange(p.hunk), p.omitNew);
    var prefix := "@@ -" + o + " +" + n + " @@";
    assert prefix[|prefix| - 1] == '@';
    assert "@@ -" + PrintHeader(p.hunk, p.omitOld, p.omitNew, p.section) == prefix + p.section;
    assert "@@ -" + PrintHeader(StripHunk(p.hunk), p.omitOld, p.omitNew, StripReturn(p.section)) == prefix + StripReturn(p.section);
    StripAfter(prefix, p.section);
  }

  lemma PrefixedPrints(c: char, lines: seq<Line>)
    requires (c == '-' || c == '+') && forall k :: 0 <= k < |lines| ==> '\n' !in lines[k]
    ensures PrintsAs(Prefixed(c, lines), Prefixed(c, Stripped(lines)))
  {
    hide StripReturn;
    forall k | 0 <= k < |lines| ensures StripReturn([c] + lines[k]) == [c] + StripReturn(lines[k]) {
      StripAfter([c], lines[k]);
    }
  }

  lemma NotePrints(open: bool)
    ensures PrintsAs(Note(open), Note(open))
  {
    assert NO_NEWLINE[|NO_NEWLINE| - 1] == 'e';
  }

  lemma HunkPrints(p: PrintedHunk)
    requires HunkText(p)
    ensures PrintsAs(PrintHunk(p), PrintHunk(StripPrinted(p)))
  {
    hide PrintHeader, PrintsAs, Prefixed, Note, StripReturn;
    var q := StripPrinted(p);
    var header := ["@@ -" + PrintHeader(p.hunk, p.omitOld, p.omitNew, p.section)];
    var header' := ["@@ -" + PrintHeader(q.hunk, q.omitOld, q.omitNew, q.section)];
    var olds, olds' := Prefixed('-', p.hunk.oldLines), Prefixed('-', q.hunk.oldLines);
    var news, news' := Prefixed('+', p.hunk.newLines), Prefixed('+', q.hunk.newLines);
    HeaderPrints(p);
    PrefixedPrints('-', p.hunk.oldLines);
    PrefixedPrints('+', p.hunk.newLines);
    NotePrints(p.oldOpen);
    NotePrints(p.newOpen);
    PrintsBoth(header, header', olds, olds');
    PrintsBoth(header + olds, header' + olds', Note(p.oldOpen), Note(p.oldOpen));
    PrintsBoth(header + olds + Note(p.oldOpen), header' + olds' + Note(p.oldOpen), news, news');
    PrintsBoth(header + olds + Note(p.oldOpen) + news, header' + olds' + Note(p.oldOpen) + news', Note(p.newOpen), Note(p.newOpen));
  }

  lemma {:induction false} HunksPrint(hunks: seq<PrintedHunk>)
    requires forall k :: 0 <= k < |hunks| ==> HunkText(hunks[k])
    ensures PrintsAs(PrintHunks(hunks), PrintHunks(StripAll(hunks)))
    ensures HunksOf(StripAll(hunks)) == StripHunks(HunksOf(hunks))
  {
    hide HunkText, PrintHunk, PrintsAs, StripPrinted, StripHunk;
    if hunks == [] {
      PlainLinesPrint([]);
    } else {
      HunkPrints(hunks[0]);
      HunksPrint(hunks[1..]);
      PrintsBoth(PrintHunk(hunks[0]), PrintHunk(StripPrinted(hunks[0])), PrintHunks(hunks[1..]), PrintHunks(StripAll(hunks[1..])));
      assert StripAll(hunks)[1..] == StripAll(hunks[1..]);
      StrippedHunk(hunks[0]);
    }
  }

  lemma StrippedHunk(p: PrintedHunk)
    ensures StripPrinted(p).hunk == StripHunk(p.hunk)
  {
  }

  lemma PlainAppend(prefix: string, line: string)
    requires '\n' !in prefix && Plain(line) && (line == [] ==> Plain(prefix))
    ensures Plain(prefix + line)
  {
  }

  lemma {:induction false} QuotedIsPlain(s: string, high: bool)
    requires IsBytes(s)
    ensures '\n' !in Quote(s, high)
  {
    if s != [] {
      QuotedIsPlain(s[1..], high);
      assert NeedsEscape('\n', high);
    }
  }

  lemma SideIsPlain(f: PrintedFile, prefix: string, present: bool)
    requires f.Lined? && IsBytes(prefix + f.path) && prefix != []
    ensures Plain(SideText(f, prefix, present))
  {
    var name := prefix + f.path;
    if present {
      hide Quote;
      if NeedsQuotes(name, f.high) {
        QuotedIsPlain(name, f.high);
      } else {
        assert NeedsEscape('\n', f.high) && NeedsEscape('\r', f.high);
        assert forall k :: 0 <= k < |name| ==> !NeedsEscape(name[k], f.high);
      }
    }
  }

  lemma StrippedIsValid(f: PrintedFile)
    requires ValidFile(f)
    ensures ValidFile(StripFile(f))
  {
    hide Ignored, StripReturn;
    if f.Lined? {
      forall k | 0 <= k < |f.hunks| ensures Printable(StripAll(f.hunks)[k]) {
        assert Printable(f.hunks[k]);
      }
    }
  }

  lemma FilePrints(f: PrintedFile)
    requires ValidFile(f) && FileText(f)
    ensures ValidFile(StripFile(f)) && PrintsAs(PrintFile(f), PrintFile(StripFile(f)))
    ensures FileOf(StripFile(f)) == WithoutReturns(FileOf(f))
  {
    hide SideText, PrintHunks, Ignored, Printable, HunkText, PrintsAs, Plain, StripHunks, HunksOf, StripAll, StripReturn;
    StrippedIsValid(f);
    PlainGit(f.git);
    PlainPrints("diff --git " + f.git);
    PlainLinesPrint(f.extended);
    PrintsBoth(["diff --git " + f.git], ["diff --git " + f.git], f.extended, f.extended);
    var head := ["diff --git " + f.git] + f.extended;
    if f.Lined? {
      var paths := PathsPrint(f);
      HunksPrint(f.hunks);
      PrintsBoth(head, head, paths, paths);
      PrintsBoth(head + paths, head + paths, PrintHunks(f.hunks), PrintHunks(StripAll(f.hunks)));
      assert head + paths + PrintHunks(f.hunks) == head + (paths + PrintHunks(f.hunks));
      assert head + paths + PrintHunks(StripAll(f.hunks)) == head + (paths + PrintHunks(StripAll(f.hunks)));
    } else {
      assert head + [] == head;
    }
  }

  lemma PlainGit(git: string)
    requires Plain(git)
    ensures Plain("diff --git " + git)
  {
    PlainAppend("diff --git ", git);
  }

  lemma PathsPrint(f: PrintedFile) returns (paths: seq<string>)
    requires f.Lined? && ValidFile(f)
    ensures paths == ["--- " + SideText(f, "a/", f.inOld), "+++ " + SideText(f, "b/", f.inNew)]
    ensures SideText(StripFile(f), "a/", f.inOld) == SideText(f, "a/", f.inOld)
    ensures SideText(StripFile(f), "b/", f.inNew) == SideText(f, "b/", f.inNew)
    ensures PrintsAs(paths, paths)
  {
    hide PrintPath, Ignored, Printable, PrintsAs;
    var a, b := SideText(f, "a/", f.inOld), SideText(f, "b/", f.inNew);
    SideIsPlain(f, "a/", f.inOld);
    SideIsPlain(f, "b/", f.inNew);
    PlainAppend("--- ", a);
    PlainAppend("+++ ", b);
    paths := ["--- " + a, "+++ " + b];
    PlainLinesPrint(paths);
  }

  lemma {:induction false} FilesPrint(files: seq<PrintedFile>)
    requires forall k :: 0 <= k < |files| ==> ValidFile(files[k]) && FileText(files[k])
    ensures forall k :: 0 <= k < |files| ==> ValidFile(StripFiles(files)[k])
    ensures PrintsAs(PrintFiles(files), PrintFiles(StripFiles(files)))
    ensures FilesOf(StripFiles(files)) == WithoutReturns(FilesOf(files))
  {
    hide ValidFile, FileText, PrintFile, PrintsAs, FileOf, StripFile, StripHunks;
    if files == [] {
      PlainLinesPrint([]);
    } else {
      FilePrints(files[0]);
      FilesPrint(files[1..]);
      PrintsBoth(PrintFile(files[0]), PrintFile(StripFile(files[0])), PrintFiles(files[1..]), PrintFiles(StripFiles(files[1..])));
      assert StripFiles(files)[1..] == StripFiles(files[1..]);
    }
  }

  /** Some line of a change ends in a carriage return. */
  predicate HasReturn(h: Hunk) {
    || (exists k :: 0 <= k < |h.oldLines| && EndsInReturn(h.oldLines[k]))
    || (exists k :: 0 <= k < |h.newLines| && EndsInReturn(h.newLines[k]))
  }

  predicate EndsInReturn(line: string) { line != [] && line[|line| - 1] == '\r' }

  lemma HunkKept(h: Hunk)
    ensures StripHunk(h) == h <==> !HasReturn(h)
  {
    LinesKept(h.oldLines);
    LinesKept(h.newLines);
  }

  lemma LinesKept(lines: seq<Line>)
    ensures Stripped(lines) == lines <==> forall k :: 0 <= k < |lines| ==> !EndsInReturn(lines[k])
  {
    assert forall k :: 0 <= k < |lines| ==> (Stripped(lines)[k] == lines[k] <==> !EndsInReturn(lines[k]));
  }

  lemma HunksKept(hunks: seq<Hunk>)
    ensures StripHunks(hunks) == hunks <==> forall k :: 0 <= k < |hunks| ==> !HasReturn(hunks[k])
  {
    hide StripHunk, HasReturn;
    forall k | 0 <= k < |hunks| ensures StripHunk(hunks[k]) == hunks[k] <==> !HasReturn(hunks[k]) {
      HunkKept(hunks[k]);
    }
    assert StripHunks(hunks) == hunks <==> forall k :: 0 <= k < |hunks| ==> StripHunk(hunks[k]) == hunks[k];
  }

  /** Nothing is lost if and only if no line of a change ends in a carriage return. */
  lemma FilesKept(files: seq<FileDiff>)
    ensures WithoutReturns(files) == files
       <==> forall f, k :: 0 <= f < |files| && 0 <= k < |files[f].hunks| ==> !HasReturn(files[f].hunks[k])
  {
    hide StripHunks, HasReturn;
    forall f | 0 <= f < |files|
      ensures StripHunks(files[f].hunks) == files[f].hunks
         <==> forall k :: 0 <= k < |files[f].hunks| ==> !HasReturn(files[f].hunks[k])
    {
      HunksKept(files[f].hunks);
    }
    assert WithoutReturns(files) == files <==> forall f :: 0 <= f < |files| ==> StripHunks(files[f].hunks) == files[f].hunks;
  }

  /**
    The parser inverts the printer, but for carriage returns at the ends of lines: for
    every list of files and hunks, it reads back the paths and hunks with each line
    without one, and so exactly if and only if no line of a change ends in one. Content
    lines may look like any header, paths may be quoted in either way, a side may be
    missing, counts may be left out, and either side may lack its last line feed.
   */
  lemma DiffRoundTrip(files: seq<PrintedFile>)
    requires forall k :: 0 <= k < |files| ==> ValidFile(files[k]) && FileText(files[k])
    ensures ParseDiff(Unlines(PrintFiles(files))) == Success(WithoutReturns(FilesOf(files)))
    ensures var all := FilesOf(files);
            ParseDiff(Unlines(PrintFiles(files))) == Success(all)
            <==> forall f, k :: 0 <= f < |all| && 0 <= k < |all[f].hunks| ==> !HasReturn(all[f].hunks[k])
  {
    hide PrintFiles, FilesOf, Steps, Lines, Unlines, ValidFile, FileText, StripReturn, HasReturn, StripFiles, WithoutReturns;
    FilesPrint(files);
    LinesOfUnlines(PrintFiles(files));
    ReadFiles(START, StripFiles(files));
    FilesKept(FilesOf(files));
    assert [] + FilesOf(StripFiles(files)) == FilesOf(StripFiles(files));
  }

  /** A line that is added to a file with CRLF line ends: it comes back without the carriage return. */
  lemma ReturnIsLost(path: string)
    requires path != "" && IsBytes(path)
    ensures var added := Hunk(0, 0, 1, 1, [], ["a\r"]);
            var file := Lined("", [], path, false, true, true, false, [PrintedHunk(added, false, false, "", false, false)]);
            && ValidFile(file)
            && ParseDiff(Unlines(PrintFiles([file]))) == Success([FileDiff(path, [Hunk(0, 0, 1, 1, [], ["a"])])])
  {
    hide PrintFiles, Unlines, ParseDiff, HasReturn, Stripped;
    var added := Hunk(0, 0, 1, 1, [], ["a\r"]);
    var printed := PrintedHunk(added, false, false, "", false, false);
    var file := Lined("", [], path, false, true, true, false, [printed]);
    DiffRoundTrip([file]);
    OneFile(file, printed);
    ReturnStripped();
    assert StripHunks([added]) == [Hunk(0, 0, 1, 1, [], ["a"])];
    assert WithoutReturns([FileDiff(path, [added])]) == [FileDiff(path, [Hunk(0, 0, 1, 1, [], ["a"])])];
  }

  lemma OneFile(file: PrintedFile, printed: PrintedHunk)
    requires file.Lined? && file.hunks == [printed]
    ensures FilesOf([file]) == [FileDiff(file.path, [printed.hunk])]
  {
    assert [file][1..] == [] && [printed][1..] == [];
    assert HunksOf([]) == [] && FilesOf([]) == [];
    assert HunksOf([printed]) == [printed.hunk] + [];
    assert HunksOf(file.hunks) == [printed.hunk];
    assert FileOf(file) == [FileDiff(file.path, [printed.hunk])];
    assert FilesOf([file]) == FileOf(file) + [];
  }

  lemma ReturnStripped()
    ensures Stripped(["a\r"]) == ["a"] && Stripped([]) == []
  {
    assert StripReturn("a\r") == "a\r"[..1] == "a";
  }
}

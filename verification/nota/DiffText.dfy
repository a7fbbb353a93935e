/**
  Reading `git diff --unified=0` output. Text is a sequence of bytes here, each a
  character below 256: quoting works on bytes, and so does every other operation
  that this code applies to UTF-8 text.
 */
module DiffText {
  import opened Wrappers
  import opened Text
  import opened EditScripts

  datatype FileDiff = FileDiff(path: string, hunks: seq<Hunk>)

  datatype DiffError =
    | LinesOutsideHunk
    | UnexpectedLine
    | FileWithoutPath
    | HunkWithoutFile
    | BadHunkHeader
    | TruncatedHunk

  // Paths.

  predicate IsOctal(c: char) { '0' <= c <= '7' }

  /** How many octal digits, three at most, start `s`. */
  function OctalDigits(s: string): nat {
    if s == [] || !IsOctal(s[0]) then 0
    else if |s| == 1 || !IsOctal(s[1]) then 1
    else if |s| == 2 || !IsOctal(s[2]) then 2
    else 3
  }

  function OctalDigit(c: char): nat
    requires IsOctal(c)
  {
    c as int - '0' as int
  }

  /** The byte that `s` names in octal; only its low eight bits count. */
  function OctalByte(s: string): char
    requires 1 <= |s| <= 3 && forall k :: 0 <= k < |s| ==> IsOctal(s[k])
  {
    var value :=
      if |s| == 1 then OctalDigit(s[0])
      else if |s| == 2 then 8 * OctalDigit(s[0]) + OctalDigit(s[1])
      else 64 * OctalDigit(s[0]) + 8 * OctalDigit(s[1]) + OctalDigit(s[2]);
    (value % 256) as char
  }

  /** The byte a one-letter escape stands for; other characters stand for themselves. */
  function Escaped(c: char): char {
    match c
    case 'n' => '\n'
    case 't' => '\t'
    case 'a' => '\U{7}'
    case 'b' => '\U{8}'
    case 'f' => '\U{C}'
    case 'v' => '\U{B}'
    case 'r' => '\r'
    case other => other
  }

  /** How much of `s`, which is not empty, `unquote` reads for its next byte. */
  function ReadLength(s: string): (n: nat)
    requires s != []
    ensures 1 <= n <= |s|
  {
    if s[0] != '\\' || |s| == 1 then 1
    else if IsOctal(s[1]) then 1 + OctalDigits(s[1..])
    else 2
  }

  /** The byte that `unquote` makes of the start of `s`. */
  function ReadByte(s: string): char
    requires s != []
  {
    if s[0] != '\\' || |s| == 1 then s[0]
    else if IsOctal(s[1]) then OctalByte(s[1..1 + OctalDigits(s[1..])])
    else Escaped(s[1])
  }

  /** Undo Git's C-style quoting of a path. */
  function Unquote(s: string): string {
    if s == [] then [] else [ReadByte(s)] + Unquote(s[ReadLength(s)..])
  }

  /** The octal digits of an escape, three at most, from index `i` on. */
  method ReadOctal(quoted: string, i: nat) returns (byte: char, next: nat)
    requires i < |quoted| && IsOctal(quoted[i])
    ensures next == i + OctalDigits(quoted[i..]) <= |quoted|
    ensures byte == OctalByte(quoted[i..next])
  {
    var value := OctalDigit(quoted[i]);
    next := i + 1;
    if next < |quoted| && IsOctal(quoted[next]) {
      value := value * 8 + OctalDigit(quoted[next]);
      next := next + 1;
      if next < |quoted| && IsOctal(quoted[next]) {
        value := value * 8 + OctalDigit(quoted[next]);
        next := next + 1;
      }
    }
    byte := (value % 256) as char;
  }

  /** One byte of a quoted path, which may be an escape, from index `i` on. */
  method ReadQuoted(quoted: string, i: nat) returns (byte: char, next: nat)
    requires i < |quoted|
    ensures byte == ReadByte(quoted[i..]) && next == i + ReadLength(quoted[i..]) <= |quoted|
  {
    byte, next := quoted[i], i + 1;
    if byte == '\\' && next < |quoted| {
      if IsOctal(quoted[next]) {
        byte, next := ReadOctal(quoted, next);
        assert quoted[i..][1..] == quoted[i + 1..];
        assert quoted[i..][1..next - i] == quoted[i + 1..next];
      } else {
        byte, next := Escaped(quoted[next]), next + 1;
      }
    }
  }

  lemma UnquoteStep(quoted: string, i: nat)
    requires i < |quoted|
    ensures var n := ReadLength(quoted[i..]);
            Unquote(quoted[i..]) == [ReadByte(quoted[i..])] + Unquote(quoted[i + n..])
  {
    hide ReadByte, ReadLength;
    assert quoted[i..][ReadLength(quoted[i..])..] == quoted[i + ReadLength(quoted[i..])..];
  }

  lemma UnquoteEnd()
    ensures Unquote([]) == []
  {
  }

  method UnquoteBytes(quoted: string) returns (bytes: string)
    ensures bytes == Unquote(quoted)
  {
    hide ReadByte, ReadLength, Unquote;
    UnquoteEnd();
    bytes := [];
    var i := 0;
    assert quoted[0..] == quoted && [] + Unquote(quoted) == Unquote(quoted);
    while i < |quoted|
      invariant i <= |quoted| && bytes + Unquote(quoted[i..]) == Unquote(quoted)
    {
      UnquoteStep(quoted, i);
      var byte;
      byte, i := ReadQuoted(quoted, i);
      bytes := bytes + [byte];
    }
    assert quoted[i..] == [];
  }

  /** The path that a file's header line has after its dashes or plus signs; none, if the file is not there. */
  function DiffPath(value: string, prefix: string): Option<string> {
    var value := match StripSuffix(value, "\t") case Some(v) => v case None => value;
    var name :=
      match StripPrefix(value, "\"")
      case None => value
      case Some(v) => match StripSuffix(v, "\"") case Some(quoted) => Unquote(quoted) case None => value;
    StripPrefix(name, prefix)
  }

  // Lines.

  /** One side's numbers in a hunk header, of which the second may be left out. */
  function HunkRange(range: string): Option<Range> {
    var (start, count) := match SplitOnce(range, ",") case Some(parts) => parts case None => (range, "1");
    match (ParseUsize(start), ParseUsize(count))
    case (Some(start), Some(count)) => Some(Range(start, count))
    case _ => None
  }

  /** The empty hunk a header announces, from its text after `@@ -`. */
  function HunkHeader(header: string): Option<Hunk> {
    match SplitOnce(header, " @@")
    case None => None
    case Some((ranges, _)) =>
      match SplitOnce(ranges, " +")
      case None => None
      case Some((old_, new_)) =>
        match (HunkRange(old_), HunkRange(new_))
        case (Some(o), Some(n)) => Some(Hunk(o.start, o.count, n.start, n.count, [], []))
        case _ => None
  }

  datatype DiffState = DiffState(files: seq<FileDiff>, oldPath: Option<string>, pendingOld: nat, pendingNew: nat)

  /** The last hunk of the last file replaced by `h`. */
  function WithLastHunk(files: seq<FileDiff>, h: Hunk): seq<FileDiff>
    requires files != [] && files[|files| - 1].hunks != []
  {
    var file := files[|files| - 1];
    files[|files| - 1 := file.(hunks := file.hunks[|file.hunks| - 1 := h])]
  }

  predicate HasHunk(files: seq<FileDiff>) {
    files != [] && files[|files| - 1].hunks != []
  }

  function LastHunk(files: seq<FileDiff>): Hunk
    requires HasHunk(files)
  {
    var hunks := files[|files| - 1].hunks;
    hunks[|hunks| - 1]
  }

  /** A line while the current hunk still misses lines. */
  function StepInHunk(st: DiffState, line: string): Result<DiffState, DiffError> {
    if !HasHunk(st.files) then Failure(LinesOutsideHunk) else
      var h := LastHunk(st.files);
      if "-" <= line && st.pendingOld > 0 then
        Success(st.(files := WithLastHunk(st.files, h.(oldLines := h.oldLines + [line[1..]])),
                    pendingOld := st.pendingOld - 1))
      else if "+" <= line && st.pendingNew > 0 then
        Success(st.(files := WithLastHunk(st.files, h.(newLines := h.newLines + [line[1..]])),
                    pendingNew := st.pendingNew - 1))
      else if "\\" <= line then Success(st)
      else Failure(UnexpectedLine)
  }

  /** A line between hunks. */
  function StepOutside(st: DiffState, line: string): Result<DiffState, DiffError> {
    if "diff --git " <= line then Success(st.(oldPath := None))
    else if "--- " <= line then Success(st.(oldPath := DiffPath(line[4..], "a/")))
    else if "+++ " <= line then
      match (DiffPath(line[4..], "b/"), st.oldPath)
      case (Some(path), _) => Success(st.(files := st.files + [FileDiff(path, [])], oldPath := None))
      case (None, Some(path)) => Success(st.(files := st.files + [FileDiff(path, [])], oldPath := None))
      case (None, None) => Failure(FileWithoutPath)
    else if "@@ -" <= line then
      if st.files == [] then Failure(HunkWithoutFile) else
        match HunkHeader(line[4..])
        case None => Failure(BadHunkHeader)
        case Some(h) =>
          var last := |st.files| - 1;
          var file := st.files[last];
          Success(st.(files := st.files[last := file.(hunks := file.hunks + [h])],
                      pendingOld := h.oldCount, pendingNew := h.newCount))
    else Success(st)
  }

  function Step(st: DiffState, line: string): Result<DiffState, DiffError> {
    if st.pendingOld > 0 || st.pendingNew > 0 then StepInHunk(st, line) else StepOutside(st, line)
  }

  function Steps(st: DiffState, lines: seq<string>): Result<DiffState, DiffError>
    decreases |lines|
  {
    if lines == [] then Success(st) else
      match Step(st, lines[0])
      case Failure(e) => Failure(e)
      case Success(next) => Steps(next, lines[1..])
  }

  const START := DiffState([], None, 0, 0)

  function ParseDiff(output: string): Result<seq<FileDiff>, DiffError> {
    match Steps(START, Lines(output))
    case Failure(e) => Failure(e)
    case Success(st) => if st.pendingOld > 0 || st.pendingNew > 0 then Failure(TruncatedHunk) else Success(st.files)
  }

  method ReadDiff(output: string) returns (r: Result<seq<FileDiff>, DiffError>)
    ensures r == ParseDiff(output)
  {
    var lines := Lines(output);
    var st := START;
    for i := 0 to |lines|
      invariant Steps(st, lines[i..]) == Steps(START, lines)
    {
      match Step(st, lines[i]) {
        case Failure(e) => return Failure(e);
        case Success(next) => st := next;
      }
    }
    if st.pendingOld > 0 || st.pendingNew > 0 {
      return Failure(TruncatedHunk);
    }
    return Success(st.files);
  }

  // Whatever is accepted is complete.

  predicate Complete(h: Hunk) { |h.oldLines| == h.oldCount && |h.newLines| == h.newCount }

  /** Every hunk is complete but the last one, which misses the pending lines. */
  ghost predicate Reading(st: DiffState) {
    && (st.pendingOld > 0 || st.pendingNew > 0 ==> HasHunk(st.files))
    && (forall f, k :: 0 <= f < |st.files| && 0 <= k < |st.files[f].hunks| ==>
          var h := st.files[f].hunks[k];
          if f == |st.files| - 1 && k == |st.files[f].hunks| - 1 then
            |h.oldLines| + st.pendingOld == h.oldCount && |h.newLines| + st.pendingNew == h.newCount
          else Complete(h))
  }

  lemma StepKeepsReading(st: DiffState, line: string)
    requires Reading(st)
    ensures var r := Step(st, line);
            (r.Success? ==> Reading(r.value)) && r != Failure(LinesOutsideHunk)
  {
    hide DiffPath, HunkHeader;
    if st.pendingOld > 0 || st.pendingNew > 0 {
      HunkStepKeepsReading(st, line);
    } else if |line| >= 4 {
      HeaderStartsReading(line[4..]);
    }
  }

  lemma HunkStepKeepsReading(st: DiffState, line: string)
    requires Reading(st) && (st.pendingOld > 0 || st.pendingNew > 0)
    ensures var r := StepInHunk(st, line);
            (r.Success? ==> Reading(r.value)) && r != Failure(LinesOutsideHunk)
  {
  }

  lemma HeaderStartsReading(header: string)
    ensures HunkHeader(header).Some? ==>
              HunkHeader(header).value.oldLines == [] && HunkHeader(header).value.newLines == []
  {
  }

  lemma {:induction false} StepsKeepReading(st: DiffState, lines: seq<string>)
    requires Reading(st)
    ensures var r := Steps(st, lines);
            (r.Success? ==> Reading(r.value)) && r != Failure(LinesOutsideHunk)
    decreases |lines|
  {
    hide Reading, Step;
    if lines != [] {
      StepKeepsReading(st, lines[0]);
      if Step(st, lines[0]).Success? {
        StepsKeepReading(Step(st, lines[0]).value, lines[1..]);
      }
    }
  }

  /**
    In every diff that is accepted, each hunk has exactly the old and new lines its
    header counts, and no input is refused for content lines outside of a hunk.
   */
  lemma AcceptedHunksAreComplete(output: string)
    ensures var r := ParseDiff(output);
            && (r.Success? ==> forall f, k :: 0 <= f < |r.value| && 0 <= k < |r.value[f].hunks| ==> Complete(r.value[f].hunks[k]))
            && r != Failure(LinesOutsideHunk)
  {
    StepsKeepReading(START, Lines(output));
  }
}

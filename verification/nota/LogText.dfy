/**
  The output of `git log`, which carries commits as records with separators, and how it
  is read back into commits.
 */
module LogText {
  import opened Wrappers
  import opened Text
  import opened Locate
  import opened Trailers
  import opened Repositories
  import opened DiffText
  import opened DiffPrinter

  const RECORD: char := '\U{1E}'
  const FIELD: char := '\0'

  datatype LogError = InvalidLog

  // Reading.

  /** `str::split` at a character: one more piece than there are separators. */
  function Pieces(s: string, c: char): (r: seq<string>)
    ensures r != []
    decreases |s|
  {
    match SplitOnce(s, [c])
    case None => [s]
    case Some((piece, rest)) => [piece] + Pieces(rest, c)
  }

  function NonEmpty(lines: seq<string>): seq<string> {
    if lines == [] then [] else (if lines[0] == "" then [] else [lines[0]]) + NonEmpty(lines[1..])
  }

  function EndOfWord(s: string, k: nat): (r: nat)
    requires k <= |s|
    ensures k <= r <= |s|
    decreases |s| - k
  {
    if k == |s| || IsWhitespace(s[k]) then k else EndOfWord(s, k + 1)
  }

  /** The first of `str::split_whitespace`. */
  function FirstWord(s: string): Option<string> {
    var t := TrimStart(s);
    if t == "" then None else Some(t[..EndOfWord(t, 0)])
  }

  /** One record: three fields that a separator ends, and the rest. */
  function ReadRecord(record: string): Result<Commit, LogError> {
    match SplitOnce(record, [FIELD])
    case None => Failure(InvalidLog)
    case Some((id, afterId)) =>
      match SplitOnce(afterId, [FIELD])
      case None => Failure(InvalidLog)
      case Some((parents, afterParents)) =>
        match SplitOnce(afterParents, [FIELD])
        case None => Failure(InvalidLog)
        case Some((message, paths)) => Success(Commit(id, FirstWord(parents), Trim(message), NonEmpty(Lines(paths))))
  }

  function ReadRecords(records: seq<string>): Result<seq<Commit>, LogError> {
    if records == [] then Success([]) else
      match ReadRecord(records[0])
      case Failure(e) => Failure(e)
      case Success(c) =>
        match ReadRecords(records[1..])
        case Failure(e) => Failure(e)
        case Success(rest) => Success([c] + rest)
  }

  function ReadLog(output: string): Result<seq<Commit>, LogError> { ReadRecords(Pieces(Trim(output), RECORD)[1..]) }

  // Printing, as Git does.

  /** What Git prints of a commit; `lines` are those after its message. */
  datatype Record = Record(id: string, parents: seq<string>, body: string, lines: seq<string>)

  function Spaced(words: seq<string>): string {
    if words == [] then "" else if |words| == 1 then words[0] else words[0] + " " + Spaced(words[1..])
  }

  function RecordText(p: Record, paths: string): string {
    p.id + [FIELD] + (Spaced(p.parents) + [FIELD] + (p.body + [FIELD] + paths))
  }

  /** Each text after a separator. */
  function Marked(texts: seq<string>): string {
    if texts == [] then "" else [RECORD] + (texts[0] + Marked(texts[1..]))
  }

  function TextsOf(log: seq<Record>): (r: seq<string>)
    ensures |r| == |log| && forall k :: 0 <= k < |r| ==> r[k] == RecordText(log[k], Unlines(log[k].lines))
  {
    seq(|log|, k requires 0 <= k < |log| => RecordText(log[k], Unlines(log[k].lines)))
  }

  function PrintRecords(log: seq<Record>): string { Marked(TextsOf(log)) }

  /** A line without control characters. */
  predicate PathLine(line: string) { forall k :: 0 <= k < |line| ==> line[k] >= ' ' }

  /** Full ids, a body without the character that ends it, and lines without control characters. */
  predicate Regular(p: Record) {
    && IsCommitId(p.id) && (forall k :: 0 <= k < |p.parents| ==> IsCommitId(p.parents[k]))
    && FIELD !in p.body
    && forall k :: 0 <= k < |p.lines| ==> PathLine(p.lines[k])
  }

  /** The commit that was printed, with its paths as they were printed. */
  function AsPrinted(p: Record): Commit {
    Commit(p.id, if p.parents == [] then None else Some(p.parents[0]), Trim(p.body), NonEmpty(p.lines))
  }

  function AllAsPrinted(log: seq<Record>): (r: seq<Commit>)
    ensures |r| == |log| && forall k :: 0 <= k < |r| ==> r[k] == AsPrinted(log[k])
  {
    seq(|log|, k requires 0 <= k < |log| => AsPrinted(log[k]))
  }

  /** No message holds the character that separates records. */
  predicate NoSeparator(log: seq<Record>) { forall k :: 0 <= k < |log| ==> RECORD !in AsPrinted(log[k]).message }

  predicate EndsInSpace(s: string) { s != "" && IsWhitespace(s[|s| - 1]) }

  /** The last path does not end in whitespace. */
  predicate Whole(paths: seq<string>) { paths != [] ==> !EndsInSpace(paths[|paths| - 1]) }

  /** The path printed last does not end in whitespace. */
  predicate EndsWhole(log: seq<Record>) { log != [] ==> Whole(AsPrinted(log[|log| - 1]).paths) }

  // Pieces.

  lemma NothingSplits(s: string, c: char)
    requires c !in s
    ensures SplitOnce(s, [c]) == None
  {
    forall k | 0 <= k < |s| ensures !At(s, [c], k) {
      assert s[k..k + 1] == [s[k]];
    }
  }

  /** The part before the first separator. */
  lemma FirstSplit(s: string, c: char) returns (piece: string, rest: string)
    requires c in s
    ensures c !in piece && s == piece + [c] + rest && SplitOnce(s, [c]) == Some((piece, rest))
  {
    piece, rest := CutAt(s, c);
    SplitAtFirst(piece, c, rest);
  }

  lemma {:induction false} CutAt(s: string, c: char) returns (piece: string, rest: string)
    requires c in s
    ensures c !in piece && s == piece + [c] + rest
  {
    if s[0] == c {
      piece, rest := "", s[1..];
    } else {
      piece, rest := CutAt(s[1..], c);
      piece := [s[0]] + piece;
    }
  }

  /** What is read of a record up to a separator within it is no record. */
  predicate CutIsUnreadable(text: string) {
    match SplitOnce(text, [RECORD]) case None => true case Some((piece, _)) => ReadRecord(piece).Failure?
  }

  lemma PiecesOf(piece: string, rest: string)
    requires RECORD !in piece
    ensures Pieces(piece, RECORD) == [piece]
    ensures Pieces(piece + [RECORD] + rest, RECORD) == [piece] + Pieces(rest, RECORD)
  {
    NothingSplits(piece, RECORD);
    SplitAtFirst(piece, RECORD, rest);
  }

  /** Texts come apart again if none holds the separator; otherwise reading fails. */
  lemma {:induction false} MarkedComesApart(texts: seq<string>)
    requires forall k :: 0 <= k < |texts| ==> CutIsUnreadable(texts[k])
    ensures var r := ReadRecords(Pieces(Marked(texts), RECORD)[1..]);
            if forall k :: 0 <= k < |texts| ==> RECORD !in texts[k] then r == ReadRecords(texts) else r.Failure?
  {
    hide ReadRecord, SplitOnce, Pieces, CutIsUnreadable;
    if texts == [] {
      PiecesOf("", "");
    } else {
      var text, rest := texts[0], texts[1..];
      assert [] + [RECORD] + (text + Marked(rest)) == Marked(texts);
      PiecesOf("", text + Marked(rest));
      MarkedComesApart(rest);
      assert Pieces(Marked(texts), RECORD)[1..] == Pieces(text + Marked(rest), RECORD);
      if RECORD in text {
        CutText(text, Marked(rest));
      } else {
        WholeText(text, rest);
        var pieces := Pieces(Marked(rest), RECORD)[1..];
        assert ([text] + pieces)[0] == text && ([text] + pieces)[1..] == pieces;
        assert (forall k :: 0 <= k < |texts| ==> RECORD !in texts[k]) <==> (forall k :: 0 <= k < |rest| ==> RECORD !in rest[k]);
      }
    }
  }

  lemma CutText(text: string, rest: string)
    requires RECORD in text && CutIsUnreadable(text)
    ensures ReadRecords(Pieces(text + rest, RECORD)).Failure?
  {
    hide ReadRecord, SplitOnce, Pieces;
    var piece, more := FirstSplit(text, RECORD);
    assert text + rest == piece + [RECORD] + (more + rest);
    PiecesOf(piece, more + rest);
  }

  lemma WholeText(text: string, rest: seq<string>)
    requires RECORD !in text
    ensures Pieces(text + Marked(rest), RECORD) == [text] + Pieces(Marked(rest), RECORD)[1..]
  {
    hide Pieces;
    PiecesOf(text, "");
    if rest == [] {
      assert text + "" == text;
      PiecesOf("", "");
    } else {
      var tail := rest[0] + Marked(rest[1..]);
      assert text + Marked(rest) == text + [RECORD] + tail;
      assert Marked(rest) == "" + [RECORD] + tail;
      PiecesOf(text, tail);
      PiecesOf("", tail);
    }
  }

  // One record.

  lemma IdCharacters(id: string)
    requires IsCommitId(id)
    ensures id != "" && FIELD !in id && RECORD !in id && forall k :: 0 <= k < |id| ==> !IsWhitespace(id[k])
  {
  }

  lemma {:induction false} SpacedCharacters(ids: seq<string>)
    requires forall k :: 0 <= k < |ids| ==> IsCommitId(ids[k])
    ensures FIELD !in Spaced(ids) && RECORD !in Spaced(ids)
  {
    hide IsCommitId;
    if ids != [] {
      IdCharacters(ids[0]);
      SpacedCharacters(ids[1..]);
    }
  }

  lemma {:induction false} WordEnds(word: string, rest: string, k: nat)
    requires k <= |word| && forall i :: 0 <= i < |word| ==> !IsWhitespace(word[i])
    requires rest == "" || IsWhitespace(rest[0])
    ensures EndOfWord(word + rest, k) == |word|
    decreases |word| - k
  {
    hide IsWhitespace;
    if k < |word| { WordEnds(word, rest, k + 1); }
  }

  lemma FirstWordOfSpaced(ids: seq<string>)
    requires forall k :: 0 <= k < |ids| ==> IsCommitId(ids[k])
    ensures FirstWord(Spaced(ids)) == if ids == [] then None else Some(ids[0])
  {
    hide IsCommitId, EndOfWord;
    if ids != [] {
      IdCharacters(ids[0]);
      var rest := if |ids| == 1 then "" else " " + Spaced(ids[1..]);
      assert Spaced(ids) == ids[0] + rest;
      WordEnds(ids[0], rest, 0);
      assert TrimStart(ids[0] + rest) == ids[0] + rest;
    }
  }

  lemma RecordReads(p: Record, paths: string)
    requires Regular(p)
    ensures ReadRecord(RecordText(p, paths)) == Success(AsPrinted(p).(paths := NonEmpty(Lines(paths))))
  {
    hide SplitOnce, Spaced, Lines, NonEmpty, FirstWord, Trim, IsCommitId, PathLine;
    IdCharacters(p.id);
    SpacedCharacters(p.parents);
    FirstWordOfSpaced(p.parents);
    var afterParents := p.body + [FIELD] + paths;
    var afterId := Spaced(p.parents) + [FIELD] + afterParents;
    SplitAtFirst(p.id, FIELD, afterId);
    SplitAtFirst(Spaced(p.parents), FIELD, afterParents);
    SplitAtFirst(p.body, FIELD, paths);
  }

  /** A body with a separator leaves no record before it, for want of the end of the message. */
  lemma BodyIsCut(p: Record, paths: string)
    requires Regular(p) && RECORD !in paths
    ensures CutIsUnreadable(RecordText(p, paths)) && (RECORD in RecordText(p, paths) <==> RECORD in p.body)
  {
    hide SplitOnce, Spaced, IsCommitId, PathLine, ReadRecord;
    IdCharacters(p.id);
    SpacedCharacters(p.parents);
    if RECORD in p.body {
      var start, rest := FirstSplit(p.body, RECORD);
      var piece := p.id + [FIELD] + (Spaced(p.parents) + [FIELD] + start);
      assert RecordText(p, paths) == piece + [RECORD] + (rest + [FIELD] + paths);
      SplitAtFirst(piece, RECORD, rest + [FIELD] + paths);
      CutRecord(p.id, Spaced(p.parents), start);
    } else {
      NothingSplits(RecordText(p, paths), RECORD);
    }
  }

  lemma CutRecord(id: string, parents: string, start: string)
    requires FIELD !in id && FIELD !in parents && FIELD !in start
    ensures ReadRecord(id + [FIELD] + (parents + [FIELD] + start)).Failure?
  {
    hide SplitOnce, Lines, NonEmpty, FirstWord, Trim;
    SplitAtFirst(id, FIELD, parents + [FIELD] + start);
    SplitAtFirst(parents, FIELD, start);
    NothingSplits(start, FIELD);
  }

  // The whitespace at the end of the output.

  lemma {:induction false} EndOfLater(a: string, b: string, n: nat)
    requires n <= |b| && EndOfText(b, n) > 0
    ensures EndOfText(a + b, |a| + n) == |a| + EndOfText(b, n)
  {
    hide IsWhitespace;
    assert n > 0 ==> (a + b)[|a| + n - 1] == b[n - 1];
    if n > 0 && IsWhitespace(b[n - 1]) { EndOfLater(a, b, n - 1); }
  }

  /** Nothing before a character that is no whitespace is trimmed. */
  lemma TrimEndAfter(a: string, c: char, b: string)
    requires !IsWhitespace(c)
    ensures TrimEnd(a + [c] + b) == a + [c] + TrimEnd(b)
  {
    hide IsWhitespace, EndOfText;
    var front := a + [c];
    if Blank(b) {
      TrimEndAppend(front, b);
      TrimEndOfBlank(b);
      assert TrimEnd(front) == front by { EndIsEnd(front); }
      assert front + "" == front;
    } else {
      TrimEndOfBlank(b);
      EndOfLater(front, b, |b|);
    }
  }

  lemma EndIsEnd(s: string)
    requires s == "" || !IsWhitespace(s[|s| - 1])
    ensures TrimEnd(s) == s
  {
  }

  lemma SeparatorsAreNoSpaces()
    ensures !IsWhitespace(RECORD) && !IsWhitespace(FIELD)
  {
  }

  lemma {:induction false} MarkedSnoc(texts: seq<string>, text: string)
    ensures Marked(texts + [text]) == Marked(texts) + [RECORD] + text
  {
    if texts == [] {
      assert [text][1..] == [] && text + "" == text && "" + [RECORD] + text == [RECORD] + text;
      assert [] + [text] == [text];
    } else {
      assert (texts + [text])[1..] == texts[1..] + [text];
      MarkedSnoc(texts[1..], text);
      assert texts[0] + (Marked(texts[1..]) + [RECORD] + text) == texts[0] + Marked(texts[1..]) + [RECORD] + text;
    }
  }

  /** The texts of the records, after the output was trimmed. */
  function TrimmedTexts(log: seq<Record>): (r: seq<string>)
    ensures |r| == |log|
  {
    if log == [] then [] else
      var last := log[|log| - 1];
      TextsOf(log[..|log| - 1]) + [RecordText(last, TrimEnd(Unlines(last.lines)))]
  }

  /** Trimming the output takes something of the last record's lines, and of nothing else. */
  lemma TrimmedOutput(log: seq<Record>)
    ensures Trim(PrintRecords(log)) == Marked(TrimmedTexts(log))
  {
    hide Spaced, Unlines, IsWhitespace, Marked;
    if log == [] {
      NothingMarked();
    } else {
      var front, last := log[..|log| - 1], log[|log| - 1];
      var paths := Unlines(last.lines);
      var head := last.id + [FIELD] + (Spaced(last.parents) + [FIELD] + last.body);
      SeparatorsAreNoSpaces();
      assert TextsOf(log) == TextsOf(front) + [RecordText(last, paths)];
      MarkedSnoc(TextsOf(front), RecordText(last, paths));
      MarkedSnoc(TextsOf(front), RecordText(last, TrimEnd(paths)));
      var before := Marked(TextsOf(front)) + [RECORD] + head;
      assert Marked(TextsOf(front)) + [RECORD] + RecordText(last, paths) == before + [FIELD] + paths;
      assert Marked(TextsOf(front)) + [RECORD] + RecordText(last, TrimEnd(paths)) == before + [FIELD] + TrimEnd(paths);
      TrimEndAfter(before, FIELD, paths);
      StartIsStart(TextsOf(log));
    }
  }

  lemma NothingMarked()
    ensures Marked([]) == "" && Trim("") == ""
  {
  }

  lemma StartIsStart(texts: seq<string>)
    requires !IsWhitespace(RECORD)
    ensures TrimStart(Marked(texts)) == Marked(texts)
  {
  }

  // Paths.

  lemma PathLineIsPlain(line: string)
    requires PathLine(line)
    ensures Plain(line) && RECORD !in line
  {
  }

  lemma {:induction false} UnlinesCharacters(lines: seq<string>)
    requires forall k :: 0 <= k < |lines| ==> PathLine(lines[k])
    ensures RECORD !in Unlines(lines)
  {
    hide PathLine;
    if lines != [] {
      PathLineIsPlain(lines[0]);
      UnlinesCharacters(lines[1..]);
    }
  }

  lemma {:induction false} NonEmptyAppend(a: seq<string>, b: seq<string>)
    ensures NonEmpty(a + b) == NonEmpty(a) + NonEmpty(b)
  {
    if a == [] {
      assert a + b == b;
    } else {
      assert (a + b)[1..] == a[1..] + b;
      NonEmptyAppend(a[1..], b);
    }
  }

  lemma NonEmptySnoc(lines: seq<string>, line: string)
    ensures NonEmpty(lines + [line]) == NonEmpty(lines) + (if line == "" then [] else [line])
  {
    NonEmptyAppend(lines, [line]);
    assert [line][1..] == [] && NonEmpty([]) == [];
    assert NonEmpty([line]) == (if line == "" then [] else [line]) + [];
  }

  lemma {:induction false} UnlinesAppend(a: seq<string>, b: seq<string>)
    ensures Unlines(a + b) == Unlines(a) + Unlines(b)
  {
    if a == [] {
      assert a + b == b;
    } else {
      assert (a + b)[1..] == a[1..] + b;
      UnlinesAppend(a[1..], b);
      assert a[0] + "\n" + (Unlines(a[1..]) + Unlines(b)) == a[0] + "\n" + Unlines(a[1..]) + Unlines(b);
    }
  }

  lemma UnlinesSnoc(lines: seq<string>, line: string)
    ensures Unlines(lines + [line]) == Unlines(lines) + (line + "\n")
  {
    UnlinesAppend(lines, [line]);
    assert [line][1..] == [] && line + "\n" + "" == line + "\n";
  }

  /** Lines without a line feed at the end are the same lines. */
  lemma {:induction false} LinesWithoutLastFeed(lines: seq<string>, last: string)
    requires (forall k :: 0 <= k < |lines| ==> Plain(lines[k])) && Plain(last) && last != ""
    ensures Lines(Unlines(lines) + last) == lines + [last]
  {
    hide Lines, Plain;
    if lines == [] {
      assert Plain(last) ==> '\n' !in last by { PlainFacts(last); }
      LinesOfOne(last);
      assert "" + last == last && [] + [last] == [last];
    } else {
      PlainFacts(lines[0]);
      LinesWithoutLastFeed(lines[1..], last);
      assert Unlines(lines) + last == lines[0] + "\n" + (Unlines(lines[1..]) + last);
      LinesStep(lines[0], Unlines(lines[1..]) + last);
      assert [lines[0]] + (lines[1..] + [last]) == lines + [last];
    }
  }

  lemma PlainFacts(line: string)
    requires Plain(line)
    ensures '\n' !in line && StripReturn(line) == line
  {
  }

  /** The last line of a text that does not end in whitespace does not, either. */
  lemma {:induction false} LastLineEnds(s: string)
    requires s != "" && !EndsInSpace(s)
    ensures var lines := Lines(s); lines != [] && lines[|lines| - 1] != "" && !EndsInSpace(lines[|lines| - 1])
    decreases |s|
  {
    hide StripReturn, Lines, SplitOnce, IsWhitespace;
    if '\n' in s {
      var line, rest := FirstSplit(s, '\n');
      LinesStep(line, rest);
      RestEnds(line, rest);
      LastLineEnds(rest);
    } else {
      LinesOfOne(s);
    }
  }

  lemma RestEnds(line: string, rest: string)
    requires !EndsInSpace(line + "\n" + rest)
    ensures rest != "" && !EndsInSpace(rest)
  {
    assert (line + "\n" + rest)[|line|] == '\n';
  }

  lemma LastOfNonEmpty(lines: seq<string>)
    requires lines != [] && lines[|lines| - 1] != ""
    ensures var kept := NonEmpty(lines); kept != [] && kept[|kept| - 1] == lines[|lines| - 1]
  {
    var front := lines[..|lines| - 1];
    assert lines == front + [lines[|lines| - 1]];
    NonEmptySnoc(front, lines[|lines| - 1]);
  }

  /** After trimming, the lines still give their paths if and only if the last one does not end in whitespace. */
  lemma {:induction false} TrimmedPaths(lines: seq<string>)
    requires forall k :: 0 <= k < |lines| ==> PathLine(lines[k])
    ensures NonEmpty(Lines(TrimEnd(Unlines(lines)))) == NonEmpty(lines) <==> Whole(NonEmpty(lines))
  {
    hide IsWhitespace, Lines, EndOfText, PathLine, NonEmpty, Unlines;
    if lines == [] {
      NothingToTrim();
    } else {
      var front, last := lines[..|lines| - 1], lines[|lines| - 1];
      assert lines == front + [last];
      NonEmptySnoc(front, last);
      UnlinesSnoc(front, last);
      if last == "" {
        TrimmedPaths(front);
        FeedIsBlank();
        assert Unlines(front) + ("" + "\n") == Unlines(front) + "\n";
        TrimEndAppend(Unlines(front), "\n");
      } else {
        TrimmedLast(front, last);
      }
    }
  }

  /** The paths on the last lines of the output. */
  function Cut(lines: seq<string>): seq<string> { NonEmpty(Lines(TrimEnd(Unlines(lines)))) }

  /** Whatever is left after trimming, its last path does not end in whitespace. */
  lemma TrimmedIsWhole(s: string)
    ensures Whole(NonEmpty(Lines(TrimEnd(s))))
  {
    hide IsWhitespace, Lines, EndOfText, NonEmpty, Unlines;
    NothingToTrim();
    var t := TrimEnd(s);
    if t != "" {
      LastLineEnds(t);
      LastOfNonEmpty(Lines(t));
    }
  }

  lemma NothingToTrim()
    ensures TrimEnd(Unlines([])) == "" && Lines("") == [] && NonEmpty([]) == []
  {
  }

  lemma FeedIsBlank()
    ensures Blank("\n")
  {
  }

  lemma TrimmedLast(front: seq<string>, last: string)
    requires (forall k :: 0 <= k < |front| ==> PathLine(front[k])) && PathLine(last) && last != ""
    ensures NonEmpty(Lines(TrimEnd(Unlines(front) + (last + "\n")))) == NonEmpty(front) + [last]
       <==> !IsWhitespace(last[|last| - 1])
  {
    hide IsWhitespace, Lines, EndOfText, PathLine, NonEmpty, Unlines;
    var s := Unlines(front) + last;
    FeedIsBlank();
    assert Unlines(front) + (last + "\n") == s + "\n";
    TrimEndAppend(s, "\n");
    if IsWhitespace(last[|last| - 1]) {
      TrimmedIsWhole(s);
    } else {
      assert s[|s| - 1] == last[|last| - 1];
      EndIsEnd(s);
      LinesOfFront(front, last);
    }
  }

  lemma LinesOfFront(front: seq<string>, last: string)
    requires (forall k :: 0 <= k < |front| ==> PathLine(front[k])) && PathLine(last) && last != ""
    ensures NonEmpty(Lines(Unlines(front) + last)) == NonEmpty(front) + [last]
  {
    hide Lines, PathLine, NonEmpty, Unlines, Plain;
    forall k | 0 <= k < |front| ensures Plain(front[k]) { PathLineIsPlain(front[k]); }
    PathLineIsPlain(last);
    LinesWithoutLastFeed(front, last);
    NonEmptySnoc(front, last);
  }

  // The log.

  lemma {:induction false} ReadsInOrder(texts: seq<string>, commits: seq<Commit>)
    requires |texts| == |commits| && forall k :: 0 <= k < |texts| ==> ReadRecord(texts[k]) == Success(commits[k])
    ensures ReadRecords(texts) == Success(commits)
  {
    hide ReadRecord;
    if texts != [] {
      ReadsInOrder(texts[1..], commits[1..]);
      assert commits == [commits[0]] + commits[1..];
    }
  }

  /** A character that is no whitespace is not trimmed away. */
  lemma TrimKeeps(s: string, c: char)
    requires !IsWhitespace(c)
    ensures c in Trim(s) <==> c in s
  {
    hide IsWhitespace;
    var t := TrimStart(s);
    OnlyBlankBefore(s, 0);
    OnlyBlankAfter(t, |t|);
    if c in s {
      var k :| 0 <= k < |s| && s[k] == c;
      assert t[k - StartOfText(s, 0)] == c;
    }
  }

  /** What the log is read as when no message holds a separator. */
  function Shown(log: seq<Record>): seq<Commit> {
    if log == [] then [] else
      var last := log[|log| - 1];
      AllAsPrinted(log[..|log| - 1]) + [AsPrinted(last).(paths := NonEmpty(Lines(TrimEnd(Unlines(last.lines)))))]
  }

  lemma TextsAreRecords(log: seq<Record>)
    requires forall k :: 0 <= k < |log| ==> Regular(log[k])
    ensures var texts := TrimmedTexts(log);
            && |Shown(log)| == |texts|
            && (forall k :: 0 <= k < |texts| ==> CutIsUnreadable(texts[k]) && ReadRecord(texts[k]) == Success(Shown(log)[k]))
            && (forall k :: 0 <= k < |texts| ==> (RECORD in texts[k] <==> RECORD in AsPrinted(log[k]).message))
  {
    hide ReadRecord, RecordText, CutIsUnreadable, Lines, NonEmpty, Unlines, TrimEnd, IsCommitId, PathLine, AsPrinted;
    var texts := TrimmedTexts(log);
    forall k | 0 <= k < |texts|
      ensures CutIsUnreadable(texts[k]) && ReadRecord(texts[k]) == Success(Shown(log)[k])
      ensures RECORD in texts[k] <==> RECORD in AsPrinted(log[k]).message
    {
      var paths := Unlines(log[k].lines);
      OneRecord(log[k], paths);
      if k == |log| - 1 {
        OneRecord(log[k], TrimEnd(paths));
        LastShown(log);
      } else {
        OtherShown(log, k);
      }
    }
  }

  lemma LastShown(log: seq<Record>)
    requires log != []
    ensures var last, n := log[|log| - 1], |log| - 1;
            && |Shown(log)| == |log|
            && Shown(log)[n] == AsPrinted(last).(paths := NonEmpty(Lines(TrimEnd(Unlines(last.lines)))))
            && TrimmedTexts(log)[n] == RecordText(last, TrimEnd(Unlines(last.lines)))
  {
  }

  lemma OtherShown(log: seq<Record>, k: nat)
    requires k < |log| - 1
    requires forall i :: 0 <= i < |log| ==> Regular(log[i])
    ensures |Shown(log)| == |log| && Shown(log)[k] == AsPrinted(log[k])
    ensures NonEmpty(Lines(Unlines(log[k].lines))) == AsPrinted(log[k]).paths
    ensures TrimmedTexts(log)[k] == RecordText(log[k], Unlines(log[k].lines))
  {
    hide Lines, NonEmpty, Unlines, TrimEnd, IsCommitId, PathLine, RecordText, Plain;
    assert log[..|log| - 1][k] == log[k];
    var lines := log[k].lines;
    assert Regular(log[k]);
    forall i | 0 <= i < |lines| ensures Plain(lines[i]) { PathLineIsPlain(lines[i]); }
    PlainLinesStay(lines);
  }

  lemma OneRecord(p: Record, paths: string)
    requires Regular(p) && paths <= Unlines(p.lines)
    ensures CutIsUnreadable(RecordText(p, paths))
    ensures ReadRecord(RecordText(p, paths)) == Success(AsPrinted(p).(paths := NonEmpty(Lines(paths))))
    ensures RECORD in RecordText(p, paths) <==> RECORD in AsPrinted(p).message
  {
    hide ReadRecord, RecordText, CutIsUnreadable, Lines, NonEmpty, Unlines, IsCommitId, PathLine, IsWhitespace, Trim;
    UnlinesCharacters(p.lines);
    RecordReads(p, paths);
    BodyIsCut(p, paths);
    SeparatorsAreNoSpaces();
    TrimKeeps(p.body, RECORD);
  }

  /**
    Reading printed records succeeds if and only if no message holds the character that
    separates them. It then gives what was printed, in order, if and only if the path
    printed last does not end in whitespace; of the others nothing is lost.
   */
  lemma RecordsReadBack(log: seq<Record>)
    requires forall k :: 0 <= k < |log| ==> Regular(log[k])
    ensures var r := ReadLog(PrintRecords(log));
            && (r.Success? <==> NoSeparator(log))
            && (r == Success(AllAsPrinted(log)) <==> NoSeparator(log) && EndsWhole(log))
            && (r.Success? ==>
                  && |r.value| == |log| && (log != [] ==> r.value[|log| - 1].paths == Cut(log[|log| - 1].lines))
                  && forall k :: 0 <= k < |log| ==>
                       r.value[k] == (if k < |log| - 1 then AsPrinted(log[k]) else AsPrinted(log[k]).(paths := r.value[k].paths)))
  {
    hide Regular, Marked, Pieces, ReadRecord, CutIsUnreadable, Trim, TextsOf, AsPrinted;
    TrimmedOutput(log);
    TextsAreRecords(log);
    MarkedComesApart(TrimmedTexts(log));
    if NoSeparator(log) {
      ReadsInOrder(TrimmedTexts(log), Shown(log));
      ShownIsPrinted(log);
    } else {
      assert exists k :: 0 <= k < |log| && RECORD in TrimmedTexts(log)[k];
    }
  }

  lemma ShownIsPrinted(log: seq<Record>)
    requires forall k :: 0 <= k < |log| ==> Regular(log[k])
    ensures |Shown(log)| == |log|
    ensures forall k :: 0 <= k < |log| - 1 ==> Shown(log)[k] == AsPrinted(log[k])
    ensures log != [] ==>
              var n := |log| - 1;
              Shown(log)[n] == AsPrinted(log[n]).(paths := Shown(log)[n].paths) && Shown(log)[n].paths == Cut(log[n].lines)
    ensures Shown(log) == AllAsPrinted(log) <==> EndsWhole(log)
  {
    hide Lines, TrimEnd, Unlines, IsCommitId, PathLine, Whole, NonEmpty, Trim;
    if log != [] {
      var n := |log| - 1;
      LastShown(log);
      assert Regular(log[n]);
      TrimmedPaths(log[n].lines);
      FrontShown(log);
      if Shown(log)[n] == AsPrinted(log[n]) { assert Shown(log) == AllAsPrinted(log); }
    }
  }

  lemma FrontShown(log: seq<Record>)
    ensures |Shown(log)| == |log| && forall k :: 0 <= k < |log| - 1 ==> Shown(log)[k] == AsPrinted(log[k])
  {
    hide AsPrinted;
  }

  // Commits and their paths.

  /**
    A commit, the paths that it changes, and how many empty lines Git prints before and
    after them.
   */
  datatype Logged = Logged(id: string, parents: seq<string>, body: string, paths: seq<string>, before: nat, after: nat)

  /** The bytes of a character in UTF-8. */
  function Utf8(c: char): (r: string)
    ensures r != [] && IsBytes(r)
    ensures if c < '\U{80}' then r == [c] else forall k :: 0 <= k < |r| ==> r[k] >= '\U{80}'
  {
    var n := c as int;
    if n < 0x80 then [c]
    else if n < 0x800 then [(0xC0 + n / 0x40) as char, (0x80 + n % 0x40) as char]
    else if n < 0x10000 then [(0xE0 + n / 0x1000) as char, (0x80 + n / 0x40 % 0x40) as char, (0x80 + n % 0x40) as char]
    else [(0xF0 + n / 0x40000) as char, (0x80 + n / 0x1000 % 0x40) as char, (0x80 + n / 0x40 % 0x40) as char, (0x80 + n % 0x40) as char]
  }

  function Utf8All(s: string): (r: string)
    ensures IsBytes(r)
  {
    if s == [] then [] else Utf8(s[0]) + Utf8All(s[1..])
  }

  /** The inside of the quotes, byte by byte where a character is escaped. */
  function QuoteText(s: string, high: bool): string {
    if s == [] then [] else (if NeedsEscape(s[0], high) then Quote(Utf8(s[0]), high) else [s[0]]) + QuoteText(s[1..], high)
  }

  /** A path as a line of its own; `high` is `core.quotePath`. */
  function PrintName(path: string, high: bool): string {
    if NeedsQuotes(path, high) then "\"" + QuoteText(path, high) + "\"" else path
  }

  function Names(paths: seq<string>, high: bool): (r: seq<string>)
    ensures |r| == |paths| && forall k :: 0 <= k < |r| ==> r[k] == PrintName(paths[k], high)
  {
    seq(|paths|, k requires 0 <= k < |paths| => PrintName(paths[k], high))
  }

  function Empties(n: nat): (r: seq<string>)
    ensures |r| == n && forall k :: 0 <= k < n ==> r[k] == ""
  {
    seq(n, _ => "")
  }

  function RecordOf(l: Logged, high: bool): Record {
    Record(l.id, l.parents, l.body, Empties(l.before) + Names(l.paths, high) + Empties(l.after))
  }

  function RecordsOf(log: seq<Logged>, high: bool): (r: seq<Record>)
    ensures |r| == |log| && forall k :: 0 <= k < |r| ==> r[k] == RecordOf(log[k], high)
  {
    seq(|log|, k requires 0 <= k < |log| => RecordOf(log[k], high))
  }

  function PrintLog(log: seq<Logged>, high: bool): string { PrintRecords(RecordsOf(log, high)) }

  /** Full ids, a body without the character that ends it, and paths that are not empty. */
  predicate Loggable(l: Logged) {
    && IsCommitId(l.id) && (forall k :: 0 <= k < |l.parents| ==> IsCommitId(l.parents[k]))
    && FIELD !in l.body
    && forall k :: 0 <= k < |l.paths| ==> l.paths[k] != ""
  }

  /** The commit itself. */
  function CommitOf(l: Logged): Commit {
    Commit(l.id, if l.parents == [] then None else Some(l.parents[0]), Trim(l.body), l.paths)
  }

  function CommitsOf(log: seq<Logged>): (r: seq<Commit>)
    ensures |r| == |log| && forall k :: 0 <= k < |r| ==> r[k] == CommitOf(log[k])
  {
    seq(|log|, k requires 0 <= k < |log| => CommitOf(log[k]))
  }

  /** No message holds the character that separates records. */
  predicate Separable(log: seq<Logged>) { forall k :: 0 <= k < |log| ==> RECORD !in CommitOf(log[k]).message }

  /** Git prints every path as it is. */
  predicate NothingQuoted(paths: seq<string>, high: bool) { forall k :: 0 <= k < |paths| ==> !NeedsQuotes(paths[k], high) }

  /** Git prints every path of the log as it is. */
  predicate NothingQuotedIn(log: seq<Logged>, high: bool) { forall k :: 0 <= k < |log| ==> NothingQuoted(log[k].paths, high) }

  /** The line of the last commit's last path does not end in whitespace. */
  predicate EndsInText(log: seq<Logged>, high: bool) { log != [] ==> Whole(Names(log[|log| - 1].paths, high)) }

  // Names.

  lemma {:induction false} QuotedCharacters(bytes: string, high: bool)
    requires IsBytes(bytes)
    ensures PathLine(Quote(bytes, high)) && |Quote(bytes, high)| >= |bytes|
  {
    if bytes != [] {
      QuotedCharacters(bytes[1..], high);
      QuotedByte(bytes[0], high);
    }
  }

  lemma QuotedByte(c: char, high: bool)
    requires IsByte(c)
    ensures QuoteByte(c, high) != "" && PathLine(QuoteByte(c, high))
  {
  }

  lemma {:induction false} QuotedText(s: string, high: bool)
    ensures PathLine(QuoteText(s, high)) && |QuoteText(s, high)| >= |s|
  {
    hide Quote;
    if s != [] {
      QuotedText(s[1..], high);
      QuotedCharacters(Utf8(s[0]), high);
    }
  }

  /** A name is a line, and it is the path itself if and only if it needs no quotes. */
  lemma NameFacts(path: string, high: bool)
    ensures PathLine(PrintName(path, high)) && (path != "" ==> PrintName(path, high) != "")
    ensures PrintName(path, high) == path <==> !NeedsQuotes(path, high)
  {
    hide QuoteText;
    QuotedText(path, high);
    if !NeedsQuotes(path, high) {
      assert forall k :: 0 <= k < |path| ==> !NeedsEscape(path[k], high);
    }
  }

  lemma NamesFacts(paths: seq<string>, high: bool)
    requires forall k :: 0 <= k < |paths| ==> paths[k] != ""
    ensures var names := Names(paths, high);
            && (forall k :: 0 <= k < |names| ==> PathLine(names[k]) && names[k] != "")
            && (names == paths <==> NothingQuoted(paths, high))
  {
    hide PrintName, NeedsQuotes, PathLine;
    var names := Names(paths, high);
    forall k | 0 <= k < |paths|
      ensures PathLine(names[k]) && names[k] != "" && (names[k] == paths[k] <==> !NeedsQuotes(paths[k], high))
    {
      NameFacts(paths[k], high);
    }
  }

  lemma {:induction false} AllKept(lines: seq<string>)
    requires forall k :: 0 <= k < |lines| ==> lines[k] != ""
    ensures NonEmpty(lines) == lines
  {
    if lines != [] { AllKept(lines[1..]); }
  }

  lemma {:induction false} NoneKept(n: nat)
    ensures NonEmpty(Empties(n)) == []
  {
    if n > 0 {
      assert Empties(n)[1..] == Empties(n - 1);
      NoneKept(n - 1);
    }
  }

  /** What is printed of a commit is regular, and has its message and the names of its paths. */
  lemma RecordFacts(l: Logged, high: bool)
    requires Loggable(l)
    ensures Regular(RecordOf(l, high))
    ensures AsPrinted(RecordOf(l, high)) == CommitOf(l).(paths := Names(l.paths, high))
  {
    hide IsCommitId, PrintName, NonEmpty, PathLine, Trim, NothingQuoted;
    var names := Names(l.paths, high);
    NamesFacts(l.paths, high);
    NoneKept(l.before);
    NoneKept(l.after);
    AllKept(names);
    NonEmptyAppend(Empties(l.before) + names, Empties(l.after));
    NonEmptyAppend(Empties(l.before), names);
    assert [] + names + [] == names;
    EmptyIsPathLine();
  }

  lemma EmptyIsPathLine()
    ensures PathLine("")
  {
  }

  lemma CommitIsItself(l: Logged, high: bool)
    requires Loggable(l)
    ensures CommitOf(l).(paths := Names(l.paths, high)) == CommitOf(l) <==> NothingQuoted(l.paths, high)
  {
    hide PrintName, NothingQuoted, PathLine, Trim;
    NamesFacts(l.paths, high);
  }

  lemma LogFacts(log: seq<Logged>, high: bool)
    requires forall k :: 0 <= k < |log| ==> Loggable(log[k])
    ensures var records := RecordsOf(log, high);
            && (forall k :: 0 <= k < |log| ==>
                  Regular(records[k]) && AsPrinted(records[k]) == CommitOf(log[k]).(paths := Names(log[k].paths, high)))
            && (NoSeparator(records) <==> Separable(log))
            && (EndsWhole(records) <==> EndsInText(log, high))
            && (AllAsPrinted(records) == CommitsOf(log) <==> NothingQuotedIn(log, high))
  {
    hide Loggable, AsPrinted, CommitOf, Names, Regular, RecordOf, Whole, NothingQuoted;
    var records := RecordsOf(log, high);
    forall k | 0 <= k < |log|
      ensures Regular(records[k]) && AsPrinted(records[k]) == CommitOf(log[k]).(paths := Names(log[k].paths, high))
      ensures AsPrinted(records[k]) == CommitOf(log[k]) <==> NothingQuoted(log[k].paths, high)
    {
      RecordFacts(log[k], high);
      CommitIsItself(log[k], high);
    }
    if NothingQuotedIn(log, high) {
      assert AllAsPrinted(records) == CommitsOf(log);
    }
  }

  /**
    Reading a printed log succeeds if and only if no commit's message holds the character
    that separates records. It then gives every commit, in order, with its id, its first
    parent and its message; and with its paths as they are printed, but for whitespace at
    the end of the path that is printed last. So it gives the commits themselves if and
    only if, besides, Git prints no path in quotes and the path printed last does not end
    in whitespace.
   */
  lemma LogReadsBack(log: seq<Logged>, high: bool)
    requires forall k :: 0 <= k < |log| ==> Loggable(log[k])
    ensures var r := ReadLog(PrintLog(log, high));
            && (r.Success? <==> Separable(log))
            && (r == Success(CommitsOf(log)) <==> Separable(log) && NothingQuotedIn(log, high) && EndsInText(log, high))
            && (r.Success? ==>
                  && |r.value| == |log|
                  && (forall k :: 0 <= k < |log| ==> r.value[k] == CommitOf(log[k]).(paths := r.value[k].paths))
                  && (forall k :: 0 <= k < |log| - 1 ==> r.value[k].paths == Names(log[k].paths, high))
                  && (log != [] ==> var last := |log| - 1;
                        r.value[last].paths == Names(log[last].paths, high) <==> EndsInText(log, high)))
  {
    hide Loggable, AsPrinted, CommitOf, Names, Regular, RecordOf, Whole, NothingQuotedIn, NoSeparator, Separable,
         EndsWhole, EndsInText, ReadLog, PrintRecords;
    LogFacts(log, high);
    RecordsReadBack(RecordsOf(log, high));
    var r := ReadLog(PrintLog(log, high));
    if r.Success? && log != [] {
      if !EndsInText(log, high) { LastIsCut(log, high); }
      TrimmedIsWhole(Unlines(RecordsOf(log, high)[|log| - 1].lines));
      LastDecides(RecordsOf(log, high), r.value);
      if r.value == CommitsOf(log) {
        assert r.value[|log| - 1].paths == log[|log| - 1].paths by { PathsOf(log, |log| - 1); }
      }
    }
  }

  lemma PathsOf(log: seq<Logged>, k: nat)
    requires k < |log|
    ensures CommitsOf(log)[k].paths == log[k].paths
  {
  }

  lemma LastIsCut(log: seq<Logged>, high: bool)
    requires log != [] && !EndsInText(log, high)
    ensures !Whole(log[|log| - 1].paths)
  {
    hide QuoteText, IsWhitespace;
    var paths := log[|log| - 1].paths;
    var last := paths[|paths| - 1];
    if NeedsQuotes(last, high) {
      QuoteIsText(PrintName(last, high));
    }
  }

  lemma QuoteIsText(s: string)
    requires s != "" && s[|s| - 1] == '"'
    ensures !EndsInSpace(s)
  {
  }

  /** With all else as printed, the commits are those printed if the last one's paths are. */
  lemma LastDecides(log: seq<Record>, commits: seq<Commit>)
    requires log != [] && |commits| == |log|
    requires forall k :: 0 <= k < |log| ==>
               commits[k] == (if k < |log| - 1 then AsPrinted(log[k]) else AsPrinted(log[k]).(paths := commits[k].paths))
    ensures commits == AllAsPrinted(log) <==> commits[|log| - 1].paths == AsPrinted(log[|log| - 1]).paths
  {
    hide AsPrinted;
    if commits[|log| - 1].paths == AsPrinted(log[|log| - 1]).paths { assert commits == AllAsPrinted(log); }
  }

  // Paths in quotes.

  lemma {:induction false} QuoteAppend(a: string, b: string, high: bool)
    requires IsBytes(a) && IsBytes(b)
    ensures Quote(a + b, high) == Quote(a, high) + Quote(b, high)
  {
    hide QuoteByte;
    if a == [] {
      assert a + b == b;
    } else {
      assert (a + b)[1..] == a[1..] + b;
      QuoteAppend(a[1..], b, high);
    }
  }

  lemma {:induction false} PlainBytes(bytes: string, high: bool)
    requires IsBytes(bytes) && !NeedsQuotes(bytes, high)
    ensures Quote(bytes, high) == bytes
  {
    if bytes != [] {
      assert !NeedsEscape(bytes[0], high);
      assert forall k :: 0 <= k < |bytes[1..]| ==> bytes[1..][k] == bytes[k + 1];
      PlainBytes(bytes[1..], high);
      assert [bytes[0]] + bytes[1..] == bytes;
    }
  }

  /** A character is escaped if and only if some byte of it is. */
  lemma OneCharacter(c: char)
    ensures NeedsQuotes(Utf8(c), true) <==> NeedsEscape(c, true)
    ensures Quote(Utf8(c), true) == if NeedsEscape(c, true) then Quote(Utf8(c), true) else [c]
  {
    var bytes := Utf8(c);
    if NeedsEscape(c, true) {
      assert NeedsEscape(bytes[0], true);
    } else {
      assert bytes == [c];
      assert forall k :: 0 <= k < |bytes| ==> !NeedsEscape(bytes[k], true);
      PlainBytes(bytes, true);
    }
  }

  lemma NeedsQuotesAppend(a: string, b: string, high: bool)
    ensures NeedsQuotes(a + b, high) <==> NeedsQuotes(a, high) || NeedsQuotes(b, high)
  {
    if NeedsQuotes(a, high) {
      var k :| 0 <= k < |a| && NeedsEscape(a[k], high);
      assert (a + b)[k] == a[k];
    }
    if NeedsQuotes(b, high) {
      var k :| 0 <= k < |b| && NeedsEscape(b[k], high);
      assert (a + b)[|a| + k] == b[k];
    }
    if NeedsQuotes(a + b, high) {
      var k :| 0 <= k < |a + b| && NeedsEscape((a + b)[k], high);
      assert if k < |a| then NeedsEscape(a[k], high) else NeedsEscape(b[k - |a|], high);
    }
  }

  lemma {:induction false} TextsAgree(path: string)
    ensures QuoteText(path, true) == Quote(Utf8All(path), true)
    ensures NeedsQuotes(path, true) <==> NeedsQuotes(Utf8All(path), true)
    ensures !NeedsQuotes(path, true) ==> Utf8All(path) == path
  {
    hide Quote, NeedsEscape, NeedsQuotes, Utf8;
    if path == [] {
      NoQuotesInNothing();
      assert Quote([], true) == [] by { NothingIsQuoted(); }
    } else {
      var first, rest := [path[0]], path[1..];
      assert path == first + rest;
      TextsAgree(rest);
      OneCharacter(path[0]);
      QuoteAppend(Utf8(path[0]), Utf8All(rest), true);
      NeedsQuotesAppend(first, rest, true);
      NeedsQuotesAppend(Utf8(path[0]), Utf8All(rest), true);
      OneNeedsQuotes(path[0]);
    }
  }

  lemma NoQuotesInNothing()
    ensures !NeedsQuotes([], true)
  {
  }

  lemma NothingIsQuoted()
    ensures Quote([], true) == []
  {
  }

  lemma OneNeedsQuotes(c: char)
    ensures NeedsQuotes([c], true) <==> NeedsEscape(c, true)
    ensures !NeedsEscape(c, true) ==> Utf8(c) == [c]
  {
    assert [c][0] == c;
  }

  /**
    By default a path is printed as its bytes in UTF-8 are in a diff, and so unquoting
    what is between the quotes, which reading a log does not do, would give the path.
   */
  lemma NamesAreAsInDiffs(path: string)
    ensures PrintName(path, true) == PrintPath(Utf8All(path), true, false)
    ensures NeedsQuotes(path, true) ==> PrintName(path, true) == "\"" + QuoteText(path, true) + "\""
                                        && Unquote(QuoteText(path, true)) == Utf8All(path)
  {
    hide Quote, NeedsQuotes, QuoteText, Unquote;
    TextsAgree(path);
    QuoteRoundTrip(Utf8All(path), true);
    assert path + "" == path && "\"" + QuoteText(path, true) + "\"" + "" == "\"" + QuoteText(path, true) + "\"";
  }

  /** A commit of one file, whose path has a letter outside of ASCII: it comes back in quotes. */
  lemma QuotedPathIsNotThePath(id: string, parent: string)
    requires IsCommitId(id) && IsCommitId(parent)
    ensures var log := [Logged(id, [parent], "Rename", ["sp\U{E4}ce.rs"], 1, 0)];
            ReadLog(PrintLog(log, true)) == Success([Commit(id, Some(parent), "Rename", ["\"sp\\303\\244ce.rs\""])])
  {
    hide IsCommitId, ReadLog, PrintLog, Quote, IsWhitespace, Trim, PrintName, NothingQuotedIn;
    var path := "sp\U{E4}ce.rs";
    var log := [Logged(id, [parent], "Rename", [path], 1, 0)];
    LogReadsBack(log, true);
    SpaceInQuotes();
    RenameIsTrimmed();
    QuoteIsText(PrintName(path, true));
    assert Names([path], true) == [PrintName(path, true)];
    var r := ReadLog(PrintLog(log, true)).value;
    assert r[0].paths == Names([path], true);
    assert r == [Commit(id, Some(parent), "Rename", [PrintName(path, true)])];
  }

  lemma RenameIsTrimmed()
    ensures Trim("Rename") == "Rename" && RECORD !in "Rename"
  {
    TrimFacts("Rename");
  }

  lemma SpaceInQuotes()
    ensures PrintName("sp\U{E4}ce.rs", true) == "\"sp\\303\\244ce.rs\""
  {
    hide Quote, QuoteText, QuoteByte;
    var path := "sp\U{E4}ce.rs";
    assert NeedsEscape(path[2], true);
    UmlautInQuotes();
    PlainRest("ce.rs");
    QuoteTextStep('\U{E4}', "ce.rs");
    QuoteTextStep('p', "\U{E4}ce.rs");
    QuoteTextStep('s', "p\U{E4}ce.rs");
    assert ['\U{E4}'] + "ce.rs" == "\U{E4}ce.rs" && ['p'] + "\U{E4}ce.rs" == "p\U{E4}ce.rs" && ['s'] + "p\U{E4}ce.rs" == path;
  }

  lemma QuoteTextStep(c: char, rest: string)
    ensures QuoteText([c] + rest, true) == (if NeedsEscape(c, true) then Quote(Utf8(c), true) else [c]) + QuoteText(rest, true)
  {
    hide Quote, Utf8, NeedsEscape;
    assert ([c] + rest)[1..] == rest;
  }

  lemma UmlautInQuotes()
    ensures Quote(Utf8('\U{E4}'), true) == "\\303\\244"
  {
    var bytes := Utf8('\U{E4}');
    assert bytes == ['\U{C3}', '\U{A4}'];
    assert QuoteByte('\U{C3}', true) == "\\303" && QuoteByte('\U{A4}', true) == "\\244";
    assert bytes[1..] == ['\U{A4}'] && bytes[1..][1..] == [];
    assert Quote([], true) == [];
    assert Quote(['\U{A4}'], true) == "\\244" + [];
  }

  lemma {:induction false} PlainRest(s: string)
    requires !NeedsQuotes(s, true)
    ensures QuoteText(s, true) == s
  {
    if s != [] {
      assert !NeedsEscape(s[0], true);
      assert forall k :: 0 <= k < |s[1..]| ==> s[1..][k] == s[k + 1];
      PlainRest(s[1..]);
    }
  }

  /** A commit of one file, whose path ends in a space: it comes back without it. */
  lemma LastPathLosesItsSpace(id: string, parent: string)
    requires IsCommitId(id) && IsCommitId(parent)
    ensures var log := [Logged(id, [parent], "Rename", ["a "], 1, 0)];
            ReadLog(PrintLog(log, true)) == Success([Commit(id, Some(parent), "Rename", ["a"])])
  {
    hide IsCommitId, PathLine, IsWhitespace, ReadRecord, Lines, TrimEnd, Trim;
    var path := "a ";
    var l := Logged(id, [parent], "Rename", [path], 1, 0);
    RenameIsTrimmed();
    RecordFacts(l, true);
    NameOfA();
    var record := RecordOf(l, true);
    assert record.lines == [""] + ["a "];
    RecordsReadBack([record]);
    assert RecordsOf([l], true) == [record];
    assert AsPrinted(record).message == "Rename";
    CutOfA();
    var r := ReadLog(PrintLog([l], true)).value;
    assert r == [Commit(id, Some(parent), "Rename", ["a"])];
  }

  lemma NameOfA()
    ensures PrintName("a ", true) == "a "
  {
  }

  lemma CutOfA()
    ensures Cut([""] + ["a "]) == ["a"]
  {
    hide IsWhitespace, Lines, TrimEnd;
    var text := Unlines([""] + ["a "]);
    UnlinesSnoc([""], "a ");
    assert [""][1..] == [] && Unlines([""]) == "" + "\n" + "";
    assert text == "\n" + ['a'] + " \n";
    BlanksAndLetter();
    TrimEndAfter("\n", 'a', " \n");
    TrimEndOfBlank(" \n");
    assert TrimEnd(text) == Unlines([""]) + "a";
    LinesWithoutLastFeed([""], "a");
    assert [""] + ["a"] == ["", "a"];
    NonEmptySnoc([""], "a");
    assert NonEmpty([""]) == [] + NonEmpty([]);
  }

  lemma BlanksAndLetter()
    ensures Blank(" \n") && !IsWhitespace('a')
  {
  }

  /** A note whose text holds the separator makes every log that it is in unreadable. */
  lemma NoteBreaksTheLog(log: seq<Logged>, high: bool, k: nat, text: string, source: Option<NoteSource>)
    requires (forall i :: 0 <= i < |log| ==> Loggable(log[i])) && k < |log|
    requires RECORD in text && log[k].body == NoteMessage(text, source)
    ensures ReadLog(PrintLog(log, high)).Failure?
  {
    hide Loggable, ReadLog, PrintLog, FormatSource, IsWhitespace, Trim, EndsInText, NothingQuotedIn;
    LogReadsBack(log, high);
    SeparatorsAreNoSpaces();
    TrimKeeps(log[k].body, RECORD);
    assert RECORD in NoteMessage(text, source);
  }
}

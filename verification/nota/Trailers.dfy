/** How markers, notes and their sources are written in commit messages, and read back. */
module Trailers {
  import opened Wrappers
  import opened Text
  import opened Locate

  const REVIEW_TRAILER := "Nota-Review"
  const SUBJECT_TRAILER := "Nota-Subject"
  const NOTE_TRAILER := "Nota-Note"
  const SOURCE_TRAILER := "Nota-Source"

  datatype KeyValue = KeyValue(key: string, value: string)

  predicate IsToken(key: string) {
    key != [] && forall k :: 0 <= k < |key| ==>
      IsDigit(key[k]) || 'a' <= key[k] <= 'z' || 'A' <= key[k] <= 'Z' || key[k] == '-'
  }

  function TrailerLine(line: string): Option<KeyValue> {
    match SplitOnce(line, ":")
    case None => None
    case Some((key, value)) => if IsToken(key) then Some(KeyValue(key, Trim(value))) else None
  }

  /** `iter().map(f).collect::<Option<Vec<_>>>()`: all the results, or `None` when one is missing. */
  function CollectMap<S, T>(f: S -> Option<T>, items: seq<S>): Option<seq<T>> {
    if items == [] then Some([]) else
      match (f(items[0]), CollectMap(f, items[1..]))
      case (Some(first), Some(rest)) => Some([first] + rest)
      case _ => None
  }

  /** The trailers of all `lines`, or `None` when one of them is not a trailer. */
  function TrailerLines(lines: seq<string>): Option<seq<KeyValue>> { CollectMap(TrailerLine, lines) }

  /** A message's text and the trailers of its final paragraph. */
  function SplitTrailers(message: string): (string, seq<KeyValue>) {
    var message := TrimEnd(message);
    match RFind(message, "\n\n")
    case None => (message, [])
    case Some(split) =>
      match TrailerLines(Lines(message[split + 2..]))
      case Some(trailers) => if trailers == [] then (message, []) else (TrimEnd(message[..split]), trailers)
      case None => (message, [])
  }

  /** What the last trailer of that key says, of those that say anything. */
  function Trailer(trailers: seq<KeyValue>, key: string): Option<string> {
    if trailers == [] then None else
      var last := trailers[|trailers| - 1];
      if last.key == key && last.value != [] then Some(last.value)
      else Trailer(trailers[..|trailers| - 1], key)
  }

  // Note sources.

  datatype SourceError = NoCommit | NoLines | NoRange | BadNumber | NotASource

  predicate IsCommitId(id: string) {
    (|id| == 40 || |id| == 64) && forall k :: 0 <= k < |id| ==> IsDigit(id[k]) || 'a' <= id[k] <= 'f'
  }

  function FormatSource(source: NoteSource): string {
    source.revision + ":" + source.path + ":" + Decimal(source.first) + "-" + Decimal(source.last)
  }

  function ParseSource(value: string): Result<NoteSource, SourceError> {
    match SplitOnce(value, ":")
    case None => Failure(NoCommit)
    case Some((revision, rest)) =>
      match RSplitOnce(rest, ":")
      case None => Failure(NoLines)
      case Some((path, lines)) =>
        match SplitOnce(lines, "-")
        case None => Failure(NoRange)
        case Some((first, last)) =>
          match (ParseUsize(first), ParseUsize(last))
          case (Some(first), Some(last)) =>
            if !IsCommitId(revision) || path == [] || first == 0 || last < first then Failure(NotASource)
            else Success(NoteSource(revision, path, first, last))
          case _ => Failure(BadNumber)
  }

  /** A source that a trailer can record. */
  predicate Recordable(source: NoteSource) {
    && IsCommitId(source.revision)
    && source.path != [] && '\n' !in source.path && Trim(source.path) == source.path
    && 1 <= source.first <= source.last <= USIZE_MAX
  }

  lemma NoColonInCommitId(id: string)
    requires IsCommitId(id)
    ensures ':' !in id && '\n' !in id && '\r' !in id
  {
  }

  /** Sources round-trip through their text, whatever colons or dashes the path has. */
  lemma SourceRoundTrip(source: NoteSource)
    requires IsCommitId(source.revision) && source.path != [] && 1 <= source.first <= source.last <= USIZE_MAX
    ensures ParseSource(FormatSource(source)) == Success(source)
  {
    hide Decimal, SplitOnce, RSplitOnce, ParseUsize, IsCommitId;
    var first, last := Decimal(source.first), Decimal(source.last);
    var lines := first + "-" + last;
    var rest := source.path + ":" + lines;
    NoColonInCommitId(source.revision);
    assert FormatSource(source) == source.revision + ":" + rest;
    SplitAtFirst(source.revision, ':', rest);
    SplitAtLast(source.path, ':', lines);
    SplitAtFirst(first, '-', last);
    ParseOfDecimal(source.first);
    ParseOfDecimal(source.last);
  }

  /** Whatever the parser accepts names a full commit, a path and a non-empty range of lines from 1 on. */
  lemma ParsedSourceIsSound(value: string)
    ensures var r := ParseSource(value);
            r.Success? ==>
              IsCommitId(r.value.revision) && r.value.path != [] && 1 <= r.value.first <= r.value.last <= USIZE_MAX
  {
  }

  // Messages.

  function NoteMessage(text: string, source: Option<NoteSource>): string {
    text + "\n\n" + NOTE_TRAILER + ": true\n"
    + (if source.Some? then SOURCE_TRAILER + ": " + FormatSource(source.value) + "\n" else "")
  }

  function MarkerMessage(revision: string, branch: string, subject: string): string {
    "Start review of " + revision + "\n\n" + REVIEW_TRAILER + ": " + branch + "\n"
    + SUBJECT_TRAILER + ": " + subject + "\n"
  }

  /** A message that ends in the trailers `lines` as its own final paragraph. */
  function WithTrailers(text: string, lines: seq<string>): string { text + "\n\n" + Unlines(lines) }

  /** Lines that make one paragraph, with no whitespace at its end. */
  predicate ParagraphLines(lines: seq<string>) {
    && lines != []
    && (forall k :: 0 <= k < |lines| ==> Plain(lines[k]) && lines[k] != [])
    && var last := lines[|lines| - 1]; !IsWhitespace(last[|last| - 1])
  }

  /** `Unlines` without its last line feed. */
  function Paragraph(lines: seq<string>): string
    requires lines != []
  {
    if |lines| == 1 then lines[0] else lines[0] + "\n" + Paragraph(lines[1..])
  }

  /** No empty line inside. */
  predicate OneParagraph(p: string) {
    p != [] && p[0] != '\n' && forall k :: 0 <= k < |p| - 1 ==> !(p[k] == '\n' && p[k + 1] == '\n')
  }

  lemma ParagraphStep(lines: seq<string>)
    requires ParagraphLines(lines)
    ensures lines != [] && Plain(lines[0]) && lines[0] != []
    ensures |lines| > 1 ==> ParagraphLines(lines[1..])
  {
    hide IsWhitespace, Plain;
  }

  lemma {:induction false} ParagraphLinesRead(lines: seq<string>)
    requires ParagraphLines(lines)
    ensures Unlines(lines) == Paragraph(lines) + "\n"
    ensures Lines(Paragraph(lines)) == lines
  {
    hide Lines, IsWhitespace, ParagraphLines;
    ParagraphStep(lines);
    if |lines| == 1 {
      assert lines[1..] == [];
      LinesOfOne(lines[0]);
    } else {
      ParagraphLinesRead(lines[1..]);
      LinesStep(lines[0], Paragraph(lines[1..]));
    }
  }

  lemma {:induction false} ParagraphIsOne(lines: seq<string>)
    requires ParagraphLines(lines)
    ensures Paragraph(lines) != [] && OneParagraph(Paragraph(lines)) && !IsWhitespace(Paragraph(lines)[|Paragraph(lines)| - 1])
  {
    hide IsWhitespace;
    ParagraphStep(lines);
    if |lines| > 1 {
      ParagraphIsOne(lines[1..]);
    }
  }

  lemma ParagraphFacts(lines: seq<string>)
    requires ParagraphLines(lines)
    ensures Unlines(lines) == Paragraph(lines) + "\n"
    ensures Lines(Paragraph(lines)) == lines
    ensures Paragraph(lines) != [] && OneParagraph(Paragraph(lines)) && !IsWhitespace(Paragraph(lines)[|Paragraph(lines)| - 1])
  {
    hide Lines, Unlines, Paragraph, OneParagraph, IsWhitespace;
    ParagraphLinesRead(lines);
    ParagraphIsOne(lines);
  }

  /** The final paragraph of a message starts at its last empty line. */
  lemma LastParagraph(text: string, paragraph: string)
    requires OneParagraph(paragraph)
    ensures RFind(text + "\n\n" + paragraph, "\n\n") == Some(|text|)
  {
    var s := text + "\n\n" + paragraph;
    assert At(s, "\n\n", |text|);
    forall k | |text| < k ensures !At(s, "\n\n", k) {
      if k + 2 <= |s| {
        var n := k - |text| - 2;
        assert s[k + 1] == paragraph[n + 1];
        assert n >= 0 ==> s[k] == paragraph[n];
        assert s[k..k + 2] == [s[k], s[k + 1]];
      }
    }
  }

  lemma TrimmedWhole(text: string, paragraph: string)
    requires text != [] && !IsWhitespace(text[0])
    requires paragraph != [] && !IsWhitespace(paragraph[|paragraph| - 1])
    ensures var whole := text + "\n\n" + paragraph;
            Trim(whole + "\n") == whole && TrimEnd(whole) == whole
  {
    var whole := text + "\n\n" + paragraph;
    assert whole[|whole| - 1] == paragraph[|paragraph| - 1];
    TrimEndAppend(whole, "\n");
  }

  /** A message whose last paragraph is made of trailers splits there. */
  lemma SplitWhole(text: string, paragraph: string, trailers: seq<KeyValue>)
    requires text != [] && !IsWhitespace(text[0])
    requires paragraph != [] && OneParagraph(paragraph) && !IsWhitespace(paragraph[|paragraph| - 1])
    requires TrailerLines(Lines(paragraph)) == Some(trailers) && trailers != []
    ensures SplitTrailers(text + "\n\n" + paragraph) == (TrimEnd(text), trailers)
  {
    hide TrailerLines, Lines, OneParagraph, RFind, TrimEnd, Trim, IsWhitespace;
    var whole := text + "\n\n" + paragraph;
    TrimmedWhole(text, paragraph);
    LastParagraph(text, paragraph);
    assert whole[|text| + 2..] == paragraph && whole[..|text|] == text;
  }

  /**
    Reading a message back: whatever the text holds, its trailers are the lines of
    the final paragraph and nothing else, and the text comes back without trailing
    whitespace. This is how a message is stored, without whitespace around it.
   */
  lemma SplitWithTrailers(text: string, lines: seq<string>, trailers: seq<KeyValue>)
    requires text != [] && !IsWhitespace(text[0])
    requires lines != [] && ParagraphLines(lines)
    requires TrailerLines(lines) == Some(trailers) && trailers != []
    ensures SplitTrailers(Trim(WithTrailers(text, lines))) == (TrimEnd(text), trailers)
  {
    hide SplitTrailers, Trim, TrimEnd, TrailerLines, Lines, Paragraph, Unlines, OneParagraph, ParagraphLines;
    ParagraphFacts(lines);
    TrimmedWhole(text, Paragraph(lines));
    assert WithTrailers(text, lines) == text + "\n\n" + Paragraph(lines) + "\n";
    SplitWhole(text, Paragraph(lines), trailers);
  }

  lemma KeyedLine(key: string, value: string)
    requires IsToken(key)
    ensures TrailerLine(key + ": " + value) == Some(KeyValue(key, Trim(" " + value)))
    ensures Trim(" " + value) == Trim(value)
  {
    hide Trim, SplitOnce;
    assert key + ": " + value == key + ":" + (" " + value);
    SplitAtFirst(key, ':', " " + value);
    TrimSkips(' ', value);
  }

  lemma CollectTwo<S, T>(f: S -> Option<T>, x: S, x': T, y: S, y': T)
    requires f(x) == Some(x') && f(y) == Some(y')
    ensures CollectMap(f, [x]) == Some([x']) && CollectMap(f, [x, y]) == Some([x', y'])
  {
    assert [x][1..] == [] && [x, y][1..] == [y] && [y][1..] == [];
    assert [x'] + [] == [x'] && [y'] + [] == [y'] && [x'] + [y'] == [x', y'];
  }

  lemma UnlinesTwo(first: string, second: string)
    ensures Unlines([first]) == first + "\n" && Unlines([first, second]) == first + "\n" + second + "\n"
  {
    assert [first][1..] == [] && [first, second][1..] == [second] && [second][1..] == [];
  }

  function SourceTrailer(source: Option<NoteSource>): seq<KeyValue> {
    if source.Some? then [KeyValue(SOURCE_TRAILER, FormatSource(source.value))] else []
  }

  lemma SourceValue(source: NoteSource)
    requires Recordable(source)
    ensures Trimmed(FormatSource(source)) && '\n' !in FormatSource(source)
    ensures FormatSource(source) != [] && !IsWhitespace(FormatSource(source)[|FormatSource(source)| - 1])
  {
    var s := FormatSource(source);
    var last := Decimal(source.last);
    assert s[0] == source.revision[0];
    assert s[|s| - 1] == last[|last| - 1];
  }

  lemma NoteLine()
    ensures TrailerLine(NOTE_TRAILER + ": true") == Some(KeyValue(NOTE_TRAILER, "true"))
  {
    hide TrailerLine, Trim, SplitOnce;
    assert NOTE_TRAILER + ": true" == NOTE_TRAILER + ": " + "true";
    KeyedLine(NOTE_TRAILER, "true");
    TrimFacts("true");
  }

  lemma SourceLine(source: NoteSource)
    requires Recordable(source)
    ensures TrailerLine(SOURCE_TRAILER + ": " + FormatSource(source)) == Some(KeyValue(SOURCE_TRAILER, FormatSource(source)))
    ensures ParagraphLines([NOTE_TRAILER + ": true", SOURCE_TRAILER + ": " + FormatSource(source)])
  {
    hide TrailerLine, Trim, FormatSource, Recordable;
    KeyedLine(SOURCE_TRAILER, FormatSource(source));
    SourceValue(source);
    TrimFacts(FormatSource(source));
  }

  lemma PlainNoteReadsBack(text: string)
    requires text != [] && Trimmed(text)
    ensures SplitTrailers(Trim(NoteMessage(text, None))) == (text, [KeyValue(NOTE_TRAILER, "true")])
  {
    hide SplitTrailers, Trim, TrimEnd, TrailerLine, CollectMap, FormatSource, Recordable;
    TrimEndKeeps(text);
    var note, mark := NOTE_TRAILER + ": true", KeyValue(NOTE_TRAILER, "true");
    NoteLine();
    CollectTwo(TrailerLine, note, mark, note, mark);
    UnlinesTwo(note, note);
    assert NoteMessage(text, None) == WithTrailers(text, [note]);
    SplitWithTrailers(text, [note], [mark]);
  }

  lemma SourcedNoteReadsBack(text: string, source: NoteSource)
    requires text != [] && Trimmed(text) && Recordable(source)
    ensures SplitTrailers(Trim(NoteMessage(text, Some(source))))
         == (text, [KeyValue(NOTE_TRAILER, "true"), KeyValue(SOURCE_TRAILER, FormatSource(source))])
  {
    hide SplitTrailers, Trim, TrimEnd, TrailerLine, CollectMap, FormatSource, Recordable;
    TrimEndKeeps(text);
    var note, mark := NOTE_TRAILER + ": true", KeyValue(NOTE_TRAILER, "true");
    var line, from := SOURCE_TRAILER + ": " + FormatSource(source), KeyValue(SOURCE_TRAILER, FormatSource(source));
    NoteLine();
    SourceLine(source);
    CollectTwo(TrailerLine, note, mark, line, from);
    UnlinesTwo(note, line);
    assert NoteMessage(text, Some(source)) == WithTrailers(text, [note, line]);
    SplitWithTrailers(text, [note, line], [mark, from]);
  }

  /**
    A note reads back as written: any text without whitespace around it comes back
    whole, and the only trailers are the note's own, so that no text can forge a
    marker or a source, or hide the note.
   */
  lemma NoteReadsBack(text: string, source: Option<NoteSource>)
    requires text != [] && Trimmed(text) && (source.Some? ==> Recordable(source.value))
    ensures SplitTrailers(Trim(NoteMessage(text, source)))
         == (text, [KeyValue(NOTE_TRAILER, "true")] + SourceTrailer(source))
  {
    hide SplitTrailers, NoteMessage, Trim;
    if source.None? {
      PlainNoteReadsBack(text);
      assert [KeyValue(NOTE_TRAILER, "true")] + [] == [KeyValue(NOTE_TRAILER, "true")];
    } else {
      SourcedNoteReadsBack(text, source.value);
      var note, from := KeyValue(NOTE_TRAILER, "true"), KeyValue(SOURCE_TRAILER, FormatSource(source.value));
      assert [note] + [from] == [note, from];
    }
  }

  /** What Git's rule for branch names comes to here: no control character and no space, and not empty. */
  predicate GitBranchName(branch: string) {
    branch != [] && forall k :: 0 <= k < |branch| ==> branch[k] > ' ' && branch[k] != '\U{7F}'
  }

  lemma MarkerLines(branch: string, subject: string)
    requires GitBranchName(branch) && IsCommitId(subject)
    ensures ParagraphLines([REVIEW_TRAILER + ": " + branch, SUBJECT_TRAILER + ": " + subject])
    ensures TrailerLine(REVIEW_TRAILER + ": " + branch) == Some(KeyValue(REVIEW_TRAILER, Trim(branch)))
    ensures TrailerLine(SUBJECT_TRAILER + ": " + subject) == Some(KeyValue(SUBJECT_TRAILER, subject))
  {
    hide TrailerLine, Trim;
    KeyedLine(REVIEW_TRAILER, branch);
    KeyedLine(SUBJECT_TRAILER, subject);
    TrimFacts(subject);
    assert '\n' !in branch && branch[|branch| - 1] != '\r';
    assert subject[|subject| - 1] > ' ';
  }

  /** A marker reads back as its branch, without whitespace around it, and its subject. */
  lemma MarkerReadsBack(revision: string, branch: string, subject: string)
    requires GitBranchName(branch) && IsCommitId(subject)
    ensures SplitTrailers(Trim(MarkerMessage(revision, branch, subject))).1
         == [KeyValue(REVIEW_TRAILER, Trim(branch)), KeyValue(SUBJECT_TRAILER, subject)]
  {
    hide SplitTrailers, Trim, TrailerLine, CollectMap, ParagraphLines, GitBranchName, IsCommitId;
    var text := "Start review of " + revision;
    var first, second := REVIEW_TRAILER + ": " + branch, SUBJECT_TRAILER + ": " + subject;
    var review, from := KeyValue(REVIEW_TRAILER, Trim(branch)), KeyValue(SUBJECT_TRAILER, subject);
    MarkerLines(branch, subject);
    CollectTwo(TrailerLine, first, review, second, from);
    UnlinesTwo(first, second);
    assert text[0] == 'S';
    assert MarkerMessage(revision, branch, subject) == WithTrailers(text, [first, second]);
    SplitWithTrailers(text, [first, second], [review, from]);
  }

  lemma TrailerOfTwo(first: KeyValue, second: KeyValue, key: string)
    ensures Trailer([first], key) == (if first.key == key && first.value != [] then Some(first.value) else None)
    ensures Trailer([first, second], key)
         == if second.key == key && second.value != [] then Some(second.value) else Trailer([first], key)
  {
    assert [first, second][..1] == [first] && [first][..0] == [];
  }

  /** The trailers that tell a note from a suggestion and a marker from both. */
  lemma NoteTrailers(source: Option<NoteSource>)
    requires source.Some? ==> Recordable(source.value)
    ensures var trailers := [KeyValue(NOTE_TRAILER, "true")] + SourceTrailer(source);
            && Trailer(trailers, NOTE_TRAILER) == Some("true")
            && Trailer(trailers, SOURCE_TRAILER) == (if source.Some? then Some(FormatSource(source.value)) else None)
            && Trailer(trailers, REVIEW_TRAILER) == None
            && Trailer(trailers, SUBJECT_TRAILER) == None
  {
    hide Trailer, FormatSource, Recordable;
    var note := KeyValue(NOTE_TRAILER, "true");
    KeysDiffer();
    if source.Some? {
      var from := KeyValue(SOURCE_TRAILER, FormatSource(source.value));
      SourceValue(source.value);
      assert [note] + [from] == [note, from];
      TrailerOfTwo(note, from, NOTE_TRAILER);
      TrailerOfTwo(note, from, SOURCE_TRAILER);
      TrailerOfTwo(note, from, REVIEW_TRAILER);
      TrailerOfTwo(note, from, SUBJECT_TRAILER);
    } else {
      assert [note] + [] == [note];
      TrailerOfTwo(note, note, NOTE_TRAILER);
      TrailerOfTwo(note, note, SOURCE_TRAILER);
      TrailerOfTwo(note, note, REVIEW_TRAILER);
      TrailerOfTwo(note, note, SUBJECT_TRAILER);
    }
  }

  lemma KeysDiffer()
    ensures NOTE_TRAILER != SOURCE_TRAILER && NOTE_TRAILER != REVIEW_TRAILER && NOTE_TRAILER != SUBJECT_TRAILER
    ensures SOURCE_TRAILER != REVIEW_TRAILER && SOURCE_TRAILER != SUBJECT_TRAILER && REVIEW_TRAILER != SUBJECT_TRAILER
  {
    assert NOTE_TRAILER[5] == 'N' && SOURCE_TRAILER[5] == 'S' && REVIEW_TRAILER[5] == 'R' && SUBJECT_TRAILER[5] == 'S';
    assert |SOURCE_TRAILER| != |SUBJECT_TRAILER|;
  }
}

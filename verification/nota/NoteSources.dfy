/** Notes on lines: recording them against a commit, and finding them again. */
module NoteSources {
  import opened Wrappers
  import opened EditScripts
  import opened Locate
  import opened Text

  datatype RecordingError = InvalidRange | NotInRevision

  function Clamp(x: nat, low: nat, high: nat): nat {
    if x < low then low else if x > high then high else x
  }

  /**
    The source of a note about lines `first..=last` of a text that `hunks` leads to
    from `text`, the revision's version of the file.
   */
  function NoteSourceOf(
    revision: string, path: string, text: Option<seq<Line>>, hunks: seq<Hunk>, first: nat, last: nat)
    : Result<NoteSource, RecordingError>
  {
    if first == 0 || last < first then Failure(InvalidRange)
    else if text.None? then Failure(NotInRevision)
    else
      var length := Max(|text.value|, 1);
      Success(NoteSource(revision, path,
                         Clamp(LineAt(hunks, first, New), 1, length),
                         Clamp(LineAt(hunks, last, New), 1, length)))
  }

  /** The range test of `check_source`. */
  predicate LinesInText(source: NoteSource, text: seq<Line>) {
    source.first != 0 && source.first <= source.last <= Max(|text|, 1)
  }

  /**
    Whatever lines are asked for, even below the end of the text, the recorded
    source is a range of the revision's lines. The request fails exactly for an
    empty range or a file the revision lacks.
   */
  lemma SourceIsInTheRevision(
    revision: string, path: string, text: seq<Line>, contents: seq<Line>, hunks: seq<Hunk>, first: nat, last: nat)
    requires Script(hunks, text, contents)
    ensures var r := NoteSourceOf(revision, path, Some(text), hunks, first, last);
            && (r.Success? <==> 1 <= first <= last)
            && (r.Success? ==> LinesInText(r.value, text) && r.value.revision == revision && r.value.path == path)
  {
    if 1 <= first <= last {
      Monotone(hunks, text, contents, New, first, last);
    }
  }

  /** `b` has the lines `first..=last` of `a` on the lines that `loc` covers. */
  predicate SameLinesAt(loc: Location, b: seq<Line>, a: seq<Line>, first: nat, last: nat)
    requires 1 <= first <= last
  {
    && loc.line.Some? && last <= |a| && loc.count == last - first + 1
    && 1 <= loc.line.value && loc.line.value + loc.count - 1 <= |b|
    && b[loc.line.value - 1..loc.line.value + loc.count - 1] == a[first - 1..last]
  }

  /** A current note on lines of the text covers as many lines in the target, and the same ones. */
  lemma CurrentNoteKeepsItsLines(hunks: seq<Hunk>, text: seq<Line>, target: seq<Line>, source: NoteSource)
    requires Script(hunks, text, target)
    requires 1 <= source.first <= source.last <= |text|
    ensures var loc := PlaceNote(hunks, source);
            loc.status == Current ==> SameLinesAt(loc, target, text, source.first, source.last)
  {
    hide Script, LineAt, Intact, Unchanged;
    var r := Range(source.first, source.last - source.first + 1);
    if Intact(hunks, r) {
      IntactRange(hunks, text, target, r);
      RunKeepsLines(hunks, text, target, source.first, source.last);
      SameSlices(text, source.first - 1, target, LineAt(hunks, source.first, Old) - 1, r.count);
    }
  }

  /** Placed lines stay within a target that has any lines. */
  lemma PlacedWithin(hunks: seq<Hunk>, text: seq<Line>, target: seq<Line>, source: NoteSource)
    requires Script(hunks, text, target)
    requires 1 <= source.first <= source.last <= |text|
    ensures var loc := PlaceNote(hunks, source);
            loc.line.Some? && loc.line.value + loc.count - 1 <= Max(|target|, 1)
  {
    hide Script, LineAt, Intact;
    LineStaysInText(hunks, text, target, source.first);
    LineStaysInText(hunks, text, target, source.last);
  }

  /** The gap at the top of an empty text is all that a script can change in it. */
  lemma NoLineChanges(hunks: seq<Hunk>, target: seq<Line>)
    requires Script(hunks, [], target)
    ensures Intact(hunks, Range(1, 1))
  {
    hide ScriptFrom;
    forall k | 0 <= k < |hunks| ensures Spares(OldRange(hunks[k]), Range(1, 1)) {
      HunkFacts(hunks, [], target, 0, 0, k);
    }
  }

  /**
    A note on an empty file is recorded as line 1, which the file does not have. It is
    then reported as current, on the line below the end of any target.
   */
  lemma NoteOnEmptyFile(hunks: seq<Hunk>, target: seq<Line>, source: NoteSource)
    requires Script(hunks, [], target) && LinesInText(source, [])
    ensures source.first == source.last == 1
    ensures PlaceNote(hunks, source) == Location(source.path, Some(|target| + 1), 1, Current, None)
  {
    hide Script, LineAt, Intact;
    NoLineChanges(hunks, target);
    LineBelowGoesBelow(hunks, [], target);
  }

  lemma LineBelowGoesBelow(hunks: seq<Hunk>, a: seq<Line>, b: seq<Line>)
    requires Script(hunks, a, b)
    ensures LineAt(hunks, |a| + 1, Old) == |b| + 1 && Unchanged(hunks, |a| + 1, Old)
  {
    hide ScriptFrom, MapLineFrom, Unchanged;
    Edges(hunks, a, b, 0, 0);
  }

  /** Such a note: one on the first line of a new text for a file that is committed empty. */
  lemma EmptyFileNoteIsRecorded(revision: string, path: string, contents: seq<Line>, hunks: seq<Hunk>)
    requires Script(hunks, [], contents)
    ensures var r := NoteSourceOf(revision, path, Some([]), hunks, 1, 1);
            && r == Success(NoteSource(revision, path, 1, 1))
            && PlaceNote(hunks, r.value) == Location(path, Some(|contents| + 1), 1, Current, None)
  {
    hide Script, LineAt, PlaceNote;
    SourceIsInTheRevision(revision, path, [], contents, hunks, 1, 1);
    NoteOnEmptyFile(hunks, contents, NoteSource(revision, path, 1, 1));
  }

  /**
    Where a recorded note is placed: a note reported as current covers the same lines as
    in its source if and only if the file that it was recorded in has any; and a placed
    note lies within the target if and only if both files have any.
   */
  lemma PlacedLinesAreThere(hunks: seq<Hunk>, text: seq<Line>, target: seq<Line>, source: NoteSource)
    requires Script(hunks, text, target) && LinesInText(source, text)
    ensures var loc := PlaceNote(hunks, source);
            && ((loc.status == Current ==> SameLinesAt(loc, target, text, source.first, source.last)) <==> text != [])
            && loc.line.Some?
            && (loc.line.value + loc.count - 1 <= |target| <==> text != [] && target != [])
  {
    hide Script, PlaceNote;
    if text == [] {
      NoteOnEmptyFile(hunks, target, source);
    } else {
      CurrentNoteKeepsItsLines(hunks, text, target, source);
      PlacedWithin(hunks, text, target, source);
      NoteStatus(hunks, text, target, source);
    }
  }

  /**
    A placed note always covers at least one line from line 1 on. It is current
    exactly when every line of its source is unchanged and neighbours stay together,
    and changed otherwise. In an empty file, line 1 is unchanged by any script.
   */
  lemma NoteStatus(hunks: seq<Hunk>, text: seq<Line>, target: seq<Line>, source: NoteSource)
    requires Script(hunks, text, target) && LinesInText(source, text)
    ensures var loc := PlaceNote(hunks, source);
            && loc.line.Some? && loc.line.value >= 1 && loc.count >= 1
            && loc.status == (
              if (forall line :: source.first <= line <= source.last ==> Unchanged(hunks, line, Old))
                 && (forall line :: source.first <= line < source.last ==> Joined(hunks, line))
              then Current else Changed)
  {
    hide ScriptFrom, LineAt, Intact, Unchanged;
    if text == [] {
      NoteOnEmptyFile(hunks, target, source);
      LineBelowGoesBelow(hunks, text, target);
    } else {
      IntactRange(hunks, text, target, Range(source.first, source.last - source.first + 1));
    }
  }

  /** Unchanged lines of the new side never move closer together. */
  lemma {:induction false} NewLinesSpread(hunks: seq<Hunk>, a: seq<Line>, b: seq<Line>, first: nat, n: nat)
    requires Script(hunks, a, b) && 1 <= first && first + n <= |b|
    requires forall line :: first <= line <= first + n ==> Unchanged(hunks, line, New)
    ensures LineAt(hunks, first + n, New) >= LineAt(hunks, first, New) + n
  {
    if n > 0 {
      NewLinesSpread(hunks, a, b, first, n - 1);
      Monotone(hunks, a, b, New, first + n - 1, first + n);
    }
  }

  /** The lines `first..=last` of the new side are all unchanged, and the old side has them next to each other. */
  ghost predicate KeptTogether(hunks: seq<Hunk>, first: nat, last: nat) {
    && (forall line :: first <= line <= last ==> Unchanged(hunks, line, New))
    && LineAt(hunks, last, New) - LineAt(hunks, first, New) == last - first
  }

  lemma KeptTogetherIsIntact(hunks: seq<Hunk>, a: seq<Line>, b: seq<Line>, first: nat, last: nat)
    requires Script(hunks, a, b) && 1 <= first <= last <= |b|
    requires KeptTogether(hunks, first, last)
    ensures forall line :: LineAt(hunks, first, New) <= line <= LineAt(hunks, last, New) ==>
              Unchanged(hunks, line, Old) && LineAt(hunks, line, Old) == line - LineAt(hunks, first, New) + first
  {
    hide Script, LineAt, Unchanged;
    var f := LineAt(hunks, first, New);
    forall line | f <= line <= LineAt(hunks, last, New)
      ensures Unchanged(hunks, line, Old) && LineAt(hunks, line, Old) == line - f + first
    {
      var there := line - f + first;
      NewLinesSpread(hunks, a, b, first, there - first);
      NewLinesSpread(hunks, a, b, there, last - there);
      Alignment(hunks, a, b, there);
    }
  }

  lemma IntactIsKeptTogether(hunks: seq<Hunk>, a: seq<Line>, b: seq<Line>, first: nat, last: nat)
    requires Script(hunks, a, b) && 1 <= first <= last <= |a|
    requires forall line :: first <= line <= last ==> Unchanged(hunks, line, Old)
    requires forall line :: first <= line < last ==> Joined(hunks, line)
    ensures KeptTogether(hunks, LineAt(hunks, first, Old), LineAt(hunks, last, Old))
  {
    hide Script, LineAt, Unchanged;
    JoinedRun(hunks, first, last - first);
    Alignment(hunks, a, b, first);
    Alignment(hunks, a, b, last);
    var f := LineAt(hunks, first, Old);
    forall line | f <= line <= LineAt(hunks, last, Old) ensures Unchanged(hunks, line, New) {
      JoinedRun(hunks, first, line - f);
      Alignment(hunks, a, b, line - f + first);
    }
  }

  /**
    A note's lines survive the way to the revision and back: when both end lines are
    ones the revision has, placing the recorded source over the same diff gives the
    lines that were asked for, and the note is current exactly when the revision has
    all of them, next to each other.
   */
  lemma NoteComesBack(
    revision: string, path: string, text: seq<Line>, contents: seq<Line>, hunks: seq<Hunk>, first: nat, last: nat)
    requires Script(hunks, text, contents)
    requires 1 <= first <= last <= |contents|
    requires Unchanged(hunks, first, New) && Unchanged(hunks, last, New)
    ensures var r := NoteSourceOf(revision, path, Some(text), hunks, first, last);
            && r.Success?
            && LinesInText(r.value, text)
            && var loc := PlaceNote(hunks, r.value);
            && loc.line == Some(first) && loc.count == last - first + 1
            && (loc.status == Current <==> KeptTogether(hunks, first, last))
  {
    hide Script, LineAt, Unchanged, Intact;
    SourceIsInTheRevision(revision, path, text, contents, hunks, first, last);
    Alignment(hunks, text, contents, first);
    Alignment(hunks, text, contents, last);
    var source := NoteSourceOf(revision, path, Some(text), hunks, first, last).value;
    assert source.first == LineAt(hunks, first, New) && source.last == LineAt(hunks, last, New);
    NoteStatus(hunks, text, contents, source);
    if KeptTogether(hunks, first, last) {
      KeptTogetherIsIntact(hunks, text, contents, first, last);
    }
    if PlaceNote(hunks, source).status == Current {
      IntactIsKeptTogether(hunks, text, contents, source.first, source.last);
    }
  }
}

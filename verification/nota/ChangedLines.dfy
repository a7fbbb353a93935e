/** Where lines and gaps go that a change touches, and notes on them. */
module ChangedLines {
  import opened Wrappers
  import opened EditScripts
  import opened Text
  import opened Locate
  import opened NoteSources

  /** The hunk's lines on one side, and on the other. */
  function Sides(h: Hunk, side: Side): (Range, Range) {
    if side.Old? then (OldRange(h), NewRange(h)) else (NewRange(h), OldRange(h))
  }

  function Other(side: Side): Side { match side case Old => New case New => Old }

  /** The place of the `n`th line of `here` among those of `there`: the `n`th, the last, or above where they would be. */
  function PlaceIn(there: Range, n: nat): nat {
    if n < there.count then there.start + n
    else if there.count > 0 then there.start + there.count - 1
    else there.start
  }

  lemma FirstHunkGoes(hunks: seq<Hunk>, n: nat, shift: int)
    requires hunks != [] && n < hunks[0].oldCount
    ensures MapLineFrom(hunks, hunks[0].oldStart + n, Old, shift) == PlaceIn(NewRange(hunks[0]), n)
  {
    hide MapLineFrom;
    MapsInside(hunks, hunks[0].oldStart + n, Old, shift);
  }

  /** The lines of a later hunk are below the first one. */
  lemma LaterHunk(hunks: seq<Hunk>, a: seq<Line>, b: seq<Line>, i: nat, j: nat, k: nat)
    requires ScriptFrom(hunks, a, b, i, j) && 0 < k < |hunks| && hunks[k].oldCount > 0
    ensures Numbered(hunks[0]) && After(OldRange(hunks[0])) < hunks[k].oldStart
    ensures 0 <= After(OldRange(hunks[0])) && 0 <= After(NewRange(hunks[0]))
    ensures ScriptFrom(hunks[1..], a, b, After(OldRange(hunks[0])), After(NewRange(hunks[0])))
  {
    hide ScriptFrom;
    ScriptStep(hunks, a, b, i, j);
    HunkFacts(hunks[1..], a, b, After(OldRange(hunks[0])), After(NewRange(hunks[0])), k - 1);
  }

  lemma {:induction false} OldLinesGo(
    hunks: seq<Hunk>, a: seq<Line>, b: seq<Line>, i: nat, j: nat, k: nat, n: nat, shift: int)
    requires ScriptFrom(hunks, a, b, i, j) && k < |hunks| && n < hunks[k].oldCount
    ensures MapLineFrom(hunks, hunks[k].oldStart + n, Old, shift) == PlaceIn(NewRange(hunks[k]), n)
    decreases k
  {
    hide MapLineFrom, ScriptFrom, Numbered, After, PlaceIn;
    if k == 0 {
      FirstHunkGoes(hunks, n, shift);
    } else {
      var h := hunks[0];
      LaterHunk(hunks, a, b, i, j, k);
      MapsPast(hunks, hunks[k].oldStart + n, Old, shift);
      OldLinesGo(hunks[1..], a, b, After(OldRange(h)), After(NewRange(h)), k - 1, n, shift + h.newCount - h.oldCount);
    }
  }

  /**
    A changed line keeps its place: on either side of any script, a hunk's `n`th line goes
    to the `n`th of its lines on the other side while there is one, then to the last one;
    and if there is none, to the line above them.
   */
  lemma ChangedLineKeepsItsPlace(hunks: seq<Hunk>, a: seq<Line>, b: seq<Line>, side: Side, k: nat, n: nat)
    requires Script(hunks, a, b) && k < |hunks| && n < Sides(hunks[k], side).0.count
    ensures var (here, there) := Sides(hunks[k], side);
            LineAt(hunks, here.start + n, side)
            == if n < there.count then there.start + n
               else if there.count > 0 then there.start + there.count - 1
               else there.start
  {
    hide MapLineFrom, ScriptFrom;
    if side.Old? {
      OldLinesGo(hunks, a, b, 0, 0, k, n, 0);
    } else {
      InvertIsScript(hunks, a, b);
      OldLinesGo(Invert(hunks), b, a, 0, 0, k, n, 0);
      MapLineInverted(hunks, hunks[k].newStart + n, 0);
    }
  }

  /** A changed line whose place there is on both sides comes back; the others come back to the last place there is. */
  lemma ChangedLineComesBack(hunks: seq<Hunk>, a: seq<Line>, b: seq<Line>, side: Side, k: nat, n: nat)
    requires Script(hunks, a, b) && k < |hunks| && n < Sides(hunks[k], side).0.count && Sides(hunks[k], side).1.count > 0
    ensures var (here, there) := Sides(hunks[k], side);
            LineAt(hunks, LineAt(hunks, here.start + n, side), Other(side))
            == here.start + (if n < there.count then n else there.count - 1)
  {
    hide LineAt, Script;
    var there := Sides(hunks[k], side).1;
    ChangedLineKeepsItsPlace(hunks, a, b, side, k, n);
    ChangedLineKeepsItsPlace(hunks, a, b, Other(side), k, if n < there.count then n else there.count - 1);
  }

  // Gaps.

  lemma {:induction false} GapAbove(
    hunks: seq<Hunk>, a: seq<Line>, b: seq<Line>, i: nat, j: nat, k: nat, line: nat)
    requires ScriptFrom(hunks, a, b, i, j) && k < |hunks| && |b| < USIZE_MAX
    requires hunks[k].oldCount > 0 && hunks[k].oldStart == line + 1
    ensures MapGapFrom(hunks, line, Old, j - i) == Before(NewRange(hunks[k]))
    decreases k
  {
    hide MapGapFrom, ScriptFrom;
    ScriptStep(hunks, a, b, i, j);
    GapStep(hunks, a, b, i, j, line);
    var h := hunks[0];
    if k > 0 {
      HunkFacts(hunks[1..], a, b, After(OldRange(h)), After(NewRange(h)), k - 1);
      GapAbove(hunks[1..], a, b, After(OldRange(h)), After(NewRange(h)), k - 1, line);
    }
  }

  /**
    Where each gap of the old text goes. Above an unchanged line, or below the text, it
    stays right above where that line goes, and so below what is inserted there. Above the
    first of a hunk's lines, it goes above the first of its lines on the other side; and
    between two of them, as far below that as it was.
   */
  lemma GapStaysAbove(hunks: seq<Hunk>, a: seq<Line>, b: seq<Line>, line: nat)
    requires Script(hunks, a, b) && line <= |a|
    ensures Unchanged(hunks, line + 1, Old) ==> GapAt(hunks, line, Old) + 1 == LineAt(hunks, line + 1, Old)
    ensures forall k :: 0 <= k < |hunks| && hunks[k].oldCount > 0 && hunks[k].oldStart == line + 1 ==>
              GapAt(hunks, line, Old) == Before(NewRange(hunks[k]))
    ensures |a| + |b| < USIZE_MAX ==>
              forall k :: 0 <= k < |hunks| && hunks[k].oldCount > 0
                          && hunks[k].oldStart <= line < hunks[k].oldStart + hunks[k].oldCount - 1 ==>
                GapAt(hunks, line, Old) == Before(NewRange(hunks[k])) + line - Before(OldRange(hunks[k]))
  {
    hide MapGapFrom, ScriptFrom, MapLineFrom, Unchanged, Before;
    if Unchanged(hunks, line + 1, Old) {
      ShiftsNeverSaturate(hunks, a, b, Old, line);
      ShiftsNeverSaturate(hunks, a, b, Old, line + 1);
      GapBeforeLine(hunks, line, 0);
    }
    forall k | 0 <= k < |hunks| && hunks[k].oldCount > 0 && hunks[k].oldStart == line + 1
      ensures GapAt(hunks, line, Old) == Before(NewRange(hunks[k]))
    {
      GapAbove(hunks, a, b, 0, 0, k, line);
    }
    if |a| + |b| < USIZE_MAX {
      forall k | 0 <= k < |hunks| && StrictlyInside(hunks[k], line)
        ensures GapAt(hunks, line, Old) == Before(NewRange(hunks[k])) + line - Before(OldRange(hunks[k]))
      {
        GapInside(hunks, a, b, 0, 0, line, k);
      }
    }
  }

  // Notes.

  /** The line of the old text for the `n`th of a hunk's new lines, as a note records it. */
  function RecordedLine(h: Hunk, n: nat): nat {
    if n < h.oldCount then h.oldStart + n
    else if h.oldCount > 0 then h.oldStart + h.oldCount - 1
    else Max(h.oldStart, 1)
  }

  /**
    A note from one edited line to another is recorded from the old line of the first to
    that of the last: at the same place among the lines that were replaced, at the last of
    them, or at the line above, if there were none, which is line 1 at the top.
   */
  lemma EditedLinesAreRecorded(
    revision: string, path: string, text: seq<Line>, contents: seq<Line>, hunks: seq<Hunk>, k: nat, n: nat, l: nat, m: nat)
    requires Script(hunks, text, contents) && k < |hunks| && n < hunks[k].newCount && l < |hunks| && m < hunks[l].newCount
    requires hunks[k].newStart + n <= hunks[l].newStart + m
    ensures NoteSourceOf(revision, path, Some(text), hunks, hunks[k].newStart + n, hunks[l].newStart + m)
         == Success(NoteSource(revision, path, RecordedLine(hunks[k], n), RecordedLine(hunks[l], m)))
  {
    hide LineAt, Script, Clamp, RecordedLine;
    EditedLineGoes(text, contents, hunks, k, n);
    EditedLineGoes(text, contents, hunks, l, m);
  }

  lemma EditedLineGoes(text: seq<Line>, contents: seq<Line>, hunks: seq<Hunk>, k: nat, n: nat)
    requires Script(hunks, text, contents) && k < |hunks| && n < hunks[k].newCount
    ensures hunks[k].newStart >= 1
    ensures Clamp(LineAt(hunks, hunks[k].newStart + n, New), 1, Max(|text|, 1)) == RecordedLine(hunks[k], n)
  {
    hide LineAt, ScriptFrom;
    HunkFacts(hunks, text, contents, 0, 0, k);
    ChangedLineKeepsItsPlace(hunks, text, contents, New, k, n);
  }

  /**
    A placed note reaches from where its first line goes to where its last one goes, in
    line 1 at the top, and covers where each line in between goes.
   */
  lemma NoteCoversItsLines(hunks: seq<Hunk>, text: seq<Line>, target: seq<Line>, source: NoteSource, line: nat)
    requires Script(hunks, text, target) && 1 <= source.first <= line <= source.last
    ensures var loc := PlaceNote(hunks, source);
            var first, at, last := LineAt(hunks, source.first, Old), LineAt(hunks, line, Old), LineAt(hunks, source.last, Old);
            && loc.path == source.path && loc.hunk == None
            && loc.line == Some(if first == 0 then 1 else first)
            && loc.line.value + loc.count - 1 == (if last == 0 then 1 else last)
            && (at >= 1 ==> loc.line.value <= at <= loc.line.value + loc.count - 1)
  {
    hide LineAt, Script, Intact;
    Monotone(hunks, text, target, Old, source.first, line);
    Monotone(hunks, text, target, Old, line, source.last);
  }
}

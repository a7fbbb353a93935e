/** Carrying line numbers, gaps and ranges across an edit script. */
module Locate {
  import opened Wrappers
  import opened EditScripts
  import opened Text

  datatype Side = Old | New

  datatype Status = Current | Changed | Pending | Applied | Stale | Unknown

  datatype Location = Location(path: string, line: Option<nat>, count: nat, status: Status, hunk: Option<Hunk>)

  datatype NoteSource = NoteSource(revision: string, path: string, first: nat, last: nat)

  /** A hunk's range on `side`. */
  function From(h: Hunk, side: Side): Range { if side.Old? then OldRange(h) else NewRange(h) }

  /** A hunk's range on the other side. */
  function To(h: Hunk, side: Side): Range { if side.Old? then NewRange(h) else OldRange(h) }

  /** The line that a range ends at; a range without lines ends at the one above it. */
  function End(r: Range): int {
    if r.count == 0 then r.start else r.start + r.count - 1
  }

  function Min(x: int, y: int): int { if x < y then x else y }

  function Max(x: int, y: int): int { if x < y then y else x }

  /** `usize::saturating_add_signed`. */
  function SaturatingAddSigned(x: int, shift: int): nat {
    Max(0, Min(x + shift, USIZE_MAX))
  }

  /** Where a line that `from` covers goes: its place among the other side's lines, or before them. */
  function Inside(from: Range, to: Range, line: nat): nat
    requires Covers(from, line)
  {
    if to.count == 0 then to.start else to.start + Min(line - from.start, to.count - 1)
  }

  /** What the loop of `map_line` still returns when `hunks` are left to read. */
  function MapLineFrom(hunks: seq<Hunk>, line: nat, side: Side, shift: int): nat {
    if hunks == [] then SaturatingAddSigned(line, shift) else
      var from, to := From(hunks[0], side), To(hunks[0], side);
      if Covers(from, line) then Inside(from, to, line)
      else MapLineFrom(hunks[1..], line, side,
                       if End(from) < line then shift + to.count - from.count else shift)
  }

  /** The other side's line for a line of `side`. */
  function LineAt(hunks: seq<Hunk>, line: nat, side: Side): nat { MapLineFrom(hunks, line, side, 0) }

  method MapLine(hunks: seq<Hunk>, line: nat, side: Side) returns (r: nat)
    ensures r == LineAt(hunks, line, side)
  {
    var shift: int := 0;
    for k := 0 to |hunks|
      invariant MapLineFrom(hunks[k..], line, side, shift) == LineAt(hunks, line, side)
    {
      var from, to := From(hunks[k], side), To(hunks[k], side);
      if from.count > 0 && from.start <= line <= End(from) {
        return if to.count == 0 then to.start else to.start + Min(line - from.start, to.count - 1);
      }
      if End(from) < line {
        shift := shift + to.count - from.count;
      }
    }
    return SaturatingAddSigned(line, shift);
  }

  /** What the loop of `map_gap` still returns when `hunks` are left to read. */
  function MapGapFrom(hunks: seq<Hunk>, line: nat, side: Side, shift: int): nat {
    if hunks == [] then SaturatingAddSigned(line, shift) else
      var from, to := From(hunks[0], side), To(hunks[0], side);
      MapGapFrom(hunks[1..], line, side,
                 if End(from) <= line then shift + to.count - from.count else shift)
  }

  /** The other side's line above the place that is below a line of `side`. */
  function GapAt(hunks: seq<Hunk>, line: nat, side: Side): nat { MapGapFrom(hunks, line, side, 0) }

  method MapGap(hunks: seq<Hunk>, line: nat, side: Side) returns (r: nat)
    ensures r == GapAt(hunks, line, side)
  {
    var shift: int := 0;
    for k := 0 to |hunks|
      invariant MapGapFrom(hunks[k..], line, side, shift) == GapAt(hunks, line, side)
    {
      var from, to := From(hunks[k], side), To(hunks[k], side);
      if End(from) <= line {
        shift := shift + to.count - from.count;
      }
    }
    return SaturatingAddSigned(line, shift);
  }

  /** Whether a change to `changed` leaves `r` alone, in the four cases of `intact`. */
  predicate Spares(changed: Range, r: Range) {
    if r.count == 0 then
      if changed.count == 0 then changed.start != r.start
      else
        && !(changed.start <= r.start <= End(changed))
        && !(changed.start <= r.start + 1 <= End(changed))
    else
      if changed.count == 0 then !(r.start <= changed.start < r.start + r.count - 1)
      else End(changed) < r.start || r.start + r.count - 1 < changed.start
  }

  predicate Intact(hunks: seq<Hunk>, r: Range) {
    forall k :: 0 <= k < |hunks| ==> Spares(OldRange(hunks[k]), r)
  }

  function PlaceNote(hunks: seq<Hunk>, source: NoteSource): Location
    requires source.first <= source.last
  {
    var count := source.last - source.first + 1;
    var first := Max(LineAt(hunks, source.first, Old), 1);
    var last := Max(LineAt(hunks, source.last, Old), first);
    Location(source.path, Some(first), last - first + 1,
             if Intact(hunks, Range(source.first, count)) then Current else Changed, None)
  }

  /** Where a range starts on the other side: as a line, or as a gap when it is empty. */
  function RangeAt(hunks: seq<Hunk>, r: Range): nat {
    if r.count == 0 then GapAt(hunks, r.start, Old) else LineAt(hunks, r.start, Old)
  }

  function PlaceHunk(toParent: seq<Hunk>, toCommit: seq<Hunk>, path: string, h: Hunk): Location {
    var old_, new_ := OldRange(h), NewRange(h);
    if Intact(toParent, old_) then Location(path, Some(RangeAt(toParent, old_)), old_.count, Pending, Some(h))
    else if Intact(toCommit, new_) then Location(path, Some(RangeAt(toCommit, new_)), new_.count, Applied, Some(h))
    else Location(path, Some(RangeAt(toParent, old_)), old_.count, Stale, Some(h))
  }

  /** No hunk covers `line` of `side`. */
  predicate Unchanged(hunks: seq<Hunk>, line: int, side: Side) {
    forall k :: 0 <= k < |hunks| ==> !Covers(From(hunks[k], side), line)
  }

  lemma {:induction false} MapLineInverted(hunks: seq<Hunk>, line: nat, shift: int)
    ensures MapLineFrom(Invert(hunks), line, Old, shift) == MapLineFrom(hunks, line, New, shift)
  {
    if hunks != [] {
      var from, to := NewRange(hunks[0]), OldRange(hunks[0]);
      assert Invert(hunks)[1..] == Invert(hunks[1..]);
      MapLineInverted(hunks[1..], line, if End(from) < line then shift + to.count - from.count else shift);
    }
  }

  lemma UnchangedStep(hunks: seq<Hunk>, line: int, side: Side)
    requires hunks != []
    ensures Unchanged(hunks, line, side) == (!Covers(From(hunks[0], side), line) && Unchanged(hunks[1..], line, side))
  {
    assert hunks == [hunks[0]] + hunks[1..];
  }

  /** Lines before every hunk that is left only move by the shift so far. */
  lemma {:induction false} MapsPlainly(hunks: seq<Hunk>, a: seq<Line>, b: seq<Line>, i: nat, j: nat, line: nat, shift: int)
    requires ScriptFrom(hunks, a, b, i, j)
    ensures hunks == [] || line <= Before(OldRange(hunks[0])) ==>
              Unchanged(hunks, line, Old) && MapLineFrom(hunks, line, Old, shift) == SaturatingAddSigned(line, shift)
    ensures hunks == [] || line <= Before(NewRange(hunks[0])) ==>
              Unchanged(hunks, line, New) && MapLineFrom(hunks, line, New, shift) == SaturatingAddSigned(line, shift)
    decreases |hunks|
  {
    if hunks != [] {
      var h := hunks[0];
      MapsPlainly(hunks[1..], a, b, After(OldRange(h)), After(NewRange(h)), line, shift);
      UnchangedStep(hunks, line, Old);
      UnchangedStep(hunks, line, New);
    }
  }

  lemma MapsInside(hunks: seq<Hunk>, line: nat, side: Side, shift: int)
    requires hunks != [] && Covers(From(hunks[0], side), line)
    ensures MapLineFrom(hunks, line, side, shift) == Inside(From(hunks[0], side), To(hunks[0], side), line)
  {
  }

  /** What the loop does with a line below the first hunk: the shift grows and the loop goes on. */
  lemma MapsPast(hunks: seq<Hunk>, line: nat, side: Side, shift: int)
    requires hunks != [] && Numbered(hunks[0]) && After(From(hunks[0], side)) < line
    ensures MapLineFrom(hunks, line, side, shift)
         == MapLineFrom(hunks[1..], line, side, shift + To(hunks[0], side).count - From(hunks[0], side).count)
    ensures Unchanged(hunks, line, side) == Unchanged(hunks[1..], line, side)
  {
    UnchangedStep(hunks, line, side);
  }

  /** The first hunk of a script, and the script below it. */
  lemma ScriptStep(hunks: seq<Hunk>, a: seq<Line>, b: seq<Line>, i: nat, j: nat)
    requires ScriptFrom(hunks, a, b, i, j) && hunks != []
    ensures var h := hunks[0];
            && Numbered(h)
            && i <= Before(OldRange(h)) && Before(OldRange(h)) - i == Before(NewRange(h)) - j
            && Before(OldRange(h)) <= After(OldRange(h)) <= |a|
            && Before(NewRange(h)) <= After(NewRange(h)) <= |b|
            && ScriptFrom(hunks[1..], a, b, After(OldRange(h)), After(NewRange(h)))
  {
  }

  /** A line above the first hunk moves by the shift so far. */
  lemma FirstHunkBelow(hunks: seq<Hunk>, a: seq<Line>, b: seq<Line>, i: nat, j: nat, line: nat)
    requires ScriptFrom(hunks, a, b, i, j) && |b| < USIZE_MAX && hunks != []
    requires i < line <= Before(OldRange(hunks[0]))
    ensures MapLineFrom(hunks, line, Old, j - i) == line + j - i <= Before(NewRange(hunks[0]))
  {
    hide ScriptFrom, Unchanged, MapLineFrom;
    ScriptStep(hunks, a, b, i, j);
    MapsPlainly(hunks, a, b, i, j, line, j - i);
  }

  /** A line inside the first hunk goes to the place of the hunk's other lines. */
  lemma FirstHunkOver(hunks: seq<Hunk>, a: seq<Line>, b: seq<Line>, i: nat, j: nat, line: nat)
    requires ScriptFrom(hunks, a, b, i, j) && hunks != [] && Covers(OldRange(hunks[0]), line)
    ensures var h := hunks[0];
            var m := MapLineFrom(hunks, line, Old, j - i);
            m == Inside(OldRange(h), NewRange(h), line) && Before(NewRange(h)) <= m <= After(NewRange(h))
  {
    hide ScriptFrom, MapLineFrom;
    ScriptStep(hunks, a, b, i, j);
    MapsInside(hunks, line, Old, j - i);
  }

  /** For a line below the first hunk, the loop goes on with the script below it. */
  lemma FirstHunkAbove(hunks: seq<Hunk>, a: seq<Line>, b: seq<Line>, i: nat, j: nat, line: nat)
    requires ScriptFrom(hunks, a, b, i, j) && hunks != [] && After(OldRange(hunks[0])) < line
    ensures MapLineFrom(hunks, line, Old, j - i)
         == MapLineFrom(hunks[1..], line, Old, After(NewRange(hunks[0])) - After(OldRange(hunks[0])))
    ensures Unchanged(hunks, line, Old) == Unchanged(hunks[1..], line, Old)
  {
    hide ScriptFrom, MapLineFrom, Unchanged, Before;
    ScriptStep(hunks, a, b, i, j);
    MapsPast(hunks, line, Old, j - i);
  }

  /** What `AlignedFrom` concludes about one line. */
  ghost predicate Aligned(hunks: seq<Hunk>, a: seq<Line>, b: seq<Line>, i: nat, j: nat, line: nat)
    requires i < line <= |a|
  {
    var m := MapLineFrom(hunks, line, Old, j - i);
    && j < m <= |b|
    && a[line - 1] == b[m - 1]
    && Unchanged(hunks, m, New)
    && MapLineFrom(hunks, m, New, i - j) == line
  }

  /** The lines above the first hunk are equal. */
  lemma FrontGap(hunks: seq<Hunk>, a: seq<Line>, b: seq<Line>, i: nat, j: nat)
    requires ScriptFrom(hunks, a, b, i, j)
    ensures var p := if hunks == [] then |a| else Before(OldRange(hunks[0]));
            && SameLines(a, i, b, j, p - i)
            && p - i == (if hunks == [] then |b| else Before(NewRange(hunks[0]))) - j
  {
  }

  lemma AlignedBefore(hunks: seq<Hunk>, a: seq<Line>, b: seq<Line>, i: nat, j: nat, line: nat)
    requires ScriptFrom(hunks, a, b, i, j) && |a| < USIZE_MAX && |b| < USIZE_MAX
    requires i < line <= |a| && (hunks == [] || line <= Before(OldRange(hunks[0])))
    ensures Aligned(hunks, a, b, i, j, line)
  {
    hide ScriptFrom, MapLineFrom, Unchanged;
    FrontGap(hunks, a, b, i, j);
    MapsPlainly(hunks, a, b, i, j, line, j - i);
    MapsPlainly(hunks, a, b, i, j, line + j - i, i - j);
  }

  lemma AlignedPast(hunks: seq<Hunk>, a: seq<Line>, b: seq<Line>, i: nat, j: nat, line: nat)
    requires hunks != [] && Numbered(hunks[0]) && i < line <= |a|
    requires var h := hunks[0];
             && i <= Before(OldRange(h)) && Before(OldRange(h)) - i == Before(NewRange(h)) - j
             && After(OldRange(h)) < line
             && Aligned(hunks[1..], a, b, After(OldRange(h)), After(NewRange(h)), line)
    ensures Aligned(hunks, a, b, i, j, line)
  {
    hide Unchanged, MapLineFrom;
    MapsPast(hunks, line, Old, j - i);
    MapsPast(hunks, MapLineFrom(hunks, line, Old, j - i), New, i - j);
  }

  /** An unchanged line goes to an equal unchanged line, and back from there. */
  lemma {:induction false} AlignedFrom(hunks: seq<Hunk>, a: seq<Line>, b: seq<Line>, i: nat, j: nat, line: nat)
    requires ScriptFrom(hunks, a, b, i, j) && |a| < USIZE_MAX && |b| < USIZE_MAX
    requires i < line <= |a| && Unchanged(hunks, line, Old)
    ensures Aligned(hunks, a, b, i, j, line)
    decreases |hunks|
  {
    hide ScriptFrom, Unchanged, MapLineFrom, Aligned;
    if hunks == [] || line <= Before(OldRange(hunks[0])) {
      AlignedBefore(hunks, a, b, i, j, line);
    } else {
      var h := hunks[0];
      ScriptStep(hunks, a, b, i, j);
      UnchangedStep(hunks, line, Old);
      AlignedFrom(hunks[1..], a, b, After(OldRange(h)), After(NewRange(h)), line);
      AlignedPast(hunks, a, b, i, j, line);
    }
  }

  /**
    Alignment and inversion: a line that no hunk covers goes to a line in range
    with the same text, and going back from there gives the original line. The
    statement for the new side is the one for the inverted script.
   */
  lemma Alignment(hunks: seq<Hunk>, a: seq<Line>, b: seq<Line>, line: nat)
    requires Script(hunks, a, b)
    ensures 1 <= line <= |a| && Unchanged(hunks, line, Old) ==>
              var m := LineAt(hunks, line, Old);
              1 <= m <= |b| && a[line - 1] == b[m - 1] && Unchanged(hunks, m, New) && LineAt(hunks, m, New) == line
    ensures 1 <= line <= |b| && Unchanged(hunks, line, New) ==>
              var m := LineAt(hunks, line, New);
              1 <= m <= |a| && b[line - 1] == a[m - 1] && Unchanged(hunks, m, Old) && LineAt(hunks, m, Old) == line
  {
    hide ScriptFrom, MapLineFrom, Invert;
    var back := Invert(hunks);
    InvertIsScript(hunks, a, b);
    MapLineInverted(hunks, line, 0);
    if 1 <= line <= |a| && Unchanged(hunks, line, Old) {
      AlignedFrom(hunks, a, b, 0, 0, line);
    }
    if 1 <= line <= |b| && Unchanged(hunks, line, New) {
      AlignedFrom(back, b, a, 0, 0, line);
      MapLineInverted(back, LineAt(hunks, line, New), 0);
    }
  }

  /** Lines stay within the text, and lines past its end stay past it. */
  lemma {:induction false} BoundsFrom(hunks: seq<Hunk>, a: seq<Line>, b: seq<Line>, i: nat, j: nat, line: nat)
    requires ScriptFrom(hunks, a, b, i, j) && |a| < USIZE_MAX && |b| < USIZE_MAX && i < line
    ensures var m := MapLineFrom(hunks, line, Old, j - i);
            && j <= m
            && (line <= |a| ==> m <= |b|)
            && (|a| < line ==> |b| < m)
            && (Unchanged(hunks, line, Old) ==> j < m)
    decreases |hunks|
  {
    hide ScriptFrom, Unchanged, Inside, MapLineFrom;
    FrontGap(hunks, a, b, i, j);
    if hunks == [] {
      MapsPlainly(hunks, a, b, i, j, line, j - i);
    } else {
      var h := hunks[0];
      ScriptStep(hunks, a, b, i, j);
      if line <= Before(OldRange(h)) {
        FirstHunkBelow(hunks, a, b, i, j, line);
      } else if Covers(OldRange(h), line) {
        FirstHunkOver(hunks, a, b, i, j, line);
        UnchangedStep(hunks, line, Old);
      } else {
        FirstHunkAbove(hunks, a, b, i, j, line);
        BoundsFrom(hunks[1..], a, b, After(OldRange(h)), After(NewRange(h)), line);
      }
    }
  }

  /** A line is above a range, in it, or below it. */
  lemma AboveInOrBelow(r: Range, line: nat)
    requires r.count > 0 ==> r.start > 0
    ensures line <= Before(r) || Covers(r, line) || After(r) < line
    ensures Covers(r, line) ==> Before(r) < line <= After(r)
  {
  }

  lemma {:induction false} MonotoneFrom(
    hunks: seq<Hunk>, a: seq<Line>, b: seq<Line>, i: nat, j: nat, first: nat, second: nat)
    requires ScriptFrom(hunks, a, b, i, j) && |a| < USIZE_MAX && |b| < USIZE_MAX && i < first <= second
    ensures MapLineFrom(hunks, first, Old, j - i) <= MapLineFrom(hunks, second, Old, j - i)
    decreases |hunks|
  {
    hide ScriptFrom, Unchanged, MapLineFrom, Before, After, Covers;
    if hunks == [] {
      MapsPlainly(hunks, a, b, i, j, first, j - i);
      MapsPlainly(hunks, a, b, i, j, second, j - i);
    } else {
      var h := hunks[0];
      var i', j' := After(OldRange(h)), After(NewRange(h));
      ScriptStep(hunks, a, b, i, j);
      AboveInOrBelow(OldRange(h), first);
      AboveInOrBelow(OldRange(h), second);
      if i' < first {
        FirstHunkAbove(hunks, a, b, i, j, first);
        FirstHunkAbove(hunks, a, b, i, j, second);
        MonotoneFrom(hunks[1..], a, b, i', j', first, second);
      } else {
        MonotoneOverHunk(hunks, a, b, i, j, first, second);
      }
    }
  }

  lemma MonotoneOverHunk(
    hunks: seq<Hunk>, a: seq<Line>, b: seq<Line>, i: nat, j: nat, first: nat, second: nat)
    requires ScriptFrom(hunks, a, b, i, j) && |a| < USIZE_MAX && |b| < USIZE_MAX && i < first <= second
    requires hunks != [] && first <= After(OldRange(hunks[0]))
    ensures MapLineFrom(hunks, first, Old, j - i) <= MapLineFrom(hunks, second, Old, j - i)
  {
    hide ScriptFrom, Unchanged, MapLineFrom, Before, After, Covers;
    var h := hunks[0];
    ScriptStep(hunks, a, b, i, j);
    AboveInOrBelow(OldRange(h), first);
    AboveInOrBelow(OldRange(h), second);
    if Covers(OldRange(h), first) {
      FirstHunkOver(hunks, a, b, i, j, first);
    } else {
      FirstHunkBelow(hunks, a, b, i, j, first);
    }
    if After(OldRange(h)) < second {
      FirstHunkAbove(hunks, a, b, i, j, second);
      BoundsFrom(hunks[1..], a, b, After(OldRange(h)), After(NewRange(h)), second);
    } else if Covers(OldRange(h), second) {
      FirstHunkOver(hunks, a, b, i, j, second);
      assert Covers(OldRange(h), first) ==> Inside(OldRange(h), NewRange(h), first) <= Inside(OldRange(h), NewRange(h), second);
    } else {
      FirstHunkBelow(hunks, a, b, i, j, second);
    }
  }

  /** `map_line` keeps the order of lines on either side, strictly for unchanged ones. */
  lemma Monotone(hunks: seq<Hunk>, a: seq<Line>, b: seq<Line>, side: Side, first: nat, second: nat)
    requires Script(hunks, a, b) && 1 <= first <= second
    ensures LineAt(hunks, first, side) <= LineAt(hunks, second, side)
    ensures first < second <= (if side.Old? then |a| else |b|)
            && Unchanged(hunks, first, side) && Unchanged(hunks, second, side) ==>
              LineAt(hunks, first, side) < LineAt(hunks, second, side)
  {
    hide ScriptFrom, MapLineFrom, Unchanged, Invert;
    Alignment(hunks, a, b, first);
    Alignment(hunks, a, b, second);
    if side.Old? {
      MonotoneFrom(hunks, a, b, 0, 0, first, second);
    } else {
      InvertIsScript(hunks, a, b);
      MapLineInverted(hunks, first, 0);
      MapLineInverted(hunks, second, 0);
      MonotoneFrom(Invert(hunks), b, a, 0, 0, first, second);
    }
  }

  /** The line the loop of `map_line` computes before saturating; `None` when it returns from a hunk. */
  function ExactLine(hunks: seq<Hunk>, line: nat, side: Side, shift: int): Option<int> {
    if hunks == [] then Some(line + shift) else
      var from, to := From(hunks[0], side), To(hunks[0], side);
      if Covers(from, line) then None
      else ExactLine(hunks[1..], line, side, if End(from) < line then shift + to.count - from.count else shift)
  }

  /** The line the loop of `map_gap` computes before saturating. */
  function ExactGap(hunks: seq<Hunk>, line: nat, side: Side, shift: int): int {
    if hunks == [] then line + shift else
      var from, to := From(hunks[0], side), To(hunks[0], side);
      ExactGap(hunks[1..], line, side, if End(from) <= line then shift + to.count - from.count else shift)
  }

  lemma {:induction false} Saturates(hunks: seq<Hunk>, line: nat, shift: int)
    ensures ExactLine(hunks, line, Old, shift).Some? ==>
              MapLineFrom(hunks, line, Old, shift) == Max(0, Min(ExactLine(hunks, line, Old, shift).value, USIZE_MAX))
    ensures MapGapFrom(hunks, line, Old, shift) == Max(0, Min(ExactGap(hunks, line, Old, shift), USIZE_MAX))
    ensures ExactLine(hunks, line, Old, shift).Some? == Unchanged(hunks, line, Old)
  {
    if hunks != [] {
      var h := hunks[0];
      UnchangedStep(hunks, line, Old);
      var shift' := shift + h.newCount - h.oldCount;
      Saturates(hunks[1..], line, shift);
      Saturates(hunks[1..], line, shift');
    }
  }

  /** A gap is the place before the next line. */
  lemma {:induction false} GapBeforeLine(hunks: seq<Hunk>, line: nat, shift: int)
    requires Unchanged(hunks, line + 1, Old)
    ensures ExactLine(hunks, line + 1, Old, shift) == Some(ExactGap(hunks, line, Old, shift) + 1)
  {
    if hunks != [] {
      var h := hunks[0];
      UnchangedStep(hunks, line + 1, Old);
      GapBeforeLine(hunks[1..], line, shift);
      GapBeforeLine(hunks[1..], line, shift + h.newCount - h.oldCount);
    }
  }

  lemma NextHunk(hunks: seq<Hunk>, a: seq<Line>, b: seq<Line>, i: nat, j: nat)
    requires ScriptFrom(hunks, a, b, i, j) && |hunks| > 1
    ensures After(OldRange(hunks[0])) < Before(OldRange(hunks[1]))
  {
  }

  lemma ExactEnd(line: nat, shift: int)
    ensures ExactLine([], line, Old, shift) == Some(line + shift)
  {
  }

  lemma ExactStep(hunks: seq<Hunk>, line: nat, shift: int)
    requires hunks != []
    ensures ExactLine(hunks, line, Old, shift)
         == if Covers(OldRange(hunks[0]), line) then None
            else ExactLine(hunks[1..], line, Old,
                           if End(OldRange(hunks[0])) < line then shift + hunks[0].newCount - hunks[0].oldCount else shift)
  {
  }

  lemma {:induction false} ExactInRange(hunks: seq<Hunk>, a: seq<Line>, b: seq<Line>, i: nat, j: nat, line: nat, shift: int)
    requires ScriptFrom(hunks, a, b, i, j) && line <= |a| + 1
    requires (i < line && shift == j - i)
          || ((hunks == [] || line <= Before(OldRange(hunks[0]))) && Min(line, 1) <= line + shift <= |b| + 1)
    ensures var m := ExactLine(hunks, line, Old, shift); m.Some? ==> Min(line, 1) <= m.value <= |b| + 1
    decreases |hunks|
  {
    hide ScriptFrom, ExactLine;
    FrontGap(hunks, a, b, i, j);
    if hunks == [] {
      ExactEnd(line, shift);
    } else {
      ExactStep(hunks, line, shift);
    }
    if hunks != [] && !Covers(OldRange(hunks[0]), line) {
      var h := hunks[0];
      var i', j' := After(OldRange(h)), After(NewRange(h));
      ScriptStep(hunks, a, b, i, j);
      if |hunks| > 1 { NextHunk(hunks, a, b, i, j); }
      ExactInRange(hunks[1..], a, b, i', j', line, if End(OldRange(h)) < line then shift + h.newCount - h.oldCount else shift);
    }
  }

  lemma OldShiftsNeverSaturate(hunks: seq<Hunk>, a: seq<Line>, b: seq<Line>, line: nat)
    requires Script(hunks, a, b) && line <= |a| + 1
    ensures Unchanged(hunks, line, Old) ==> ExactLine(hunks, line, Old, 0) == Some(LineAt(hunks, line, Old))
    ensures line <= |a| && Unchanged(hunks, line + 1, Old) ==>
              ExactGap(hunks, line, Old, 0) == GapAt(hunks, line, Old) <= |b|
  {
    hide ScriptFrom, MapLineFrom, MapGapFrom, ExactLine, ExactGap, Unchanged;
    FrontGap(hunks, a, b, 0, 0);
    Saturates(hunks, line, 0);
    ExactInRange(hunks, a, b, 0, 0, line, 0);
    if line <= |a| && Unchanged(hunks, line + 1, Old) {
      Saturates(hunks, line + 1, 0);
      ExactInRange(hunks, a, b, 0, 0, line + 1, 0);
      GapBeforeLine(hunks, line, 0);
    }
  }

  lemma {:induction false} ExactInverted(hunks: seq<Hunk>, line: nat, shift: int)
    ensures ExactLine(Invert(hunks), line, Old, shift) == ExactLine(hunks, line, New, shift)
    ensures ExactGap(Invert(hunks), line, Old, shift) == ExactGap(hunks, line, New, shift)
    ensures MapGapFrom(Invert(hunks), line, Old, shift) == MapGapFrom(hunks, line, New, shift)
  {
    if hunks != [] {
      var d := hunks[0].oldCount - hunks[0].newCount;
      assert Invert(hunks)[1..] == Invert(hunks[1..]);
      ExactInverted(hunks[1..], line, shift);
      ExactInverted(hunks[1..], line, shift + d);
    }
  }

  lemma UnchangedInverted(hunks: seq<Hunk>, line: int)
    ensures Unchanged(Invert(hunks), line, Old) == Unchanged(hunks, line, New)
  {
    var back := Invert(hunks);
    assert forall k :: 0 <= k < |hunks| ==> From(back[k], Old) == From(hunks[k], New);
  }

  /**
    The saturating addition never saturates: on a script, and on either side of it, what
    `map_line` returns for an unchanged line, and `map_gap` for the gap above one, is the
    plain sum. This includes the places just above and just below the text.
   */
  lemma ShiftsNeverSaturate(hunks: seq<Hunk>, a: seq<Line>, b: seq<Line>, side: Side, line: nat)
    requires Script(hunks, a, b)
    ensures var (here, there) := if side.Old? then (a, b) else (b, a);
            && (line <= |here| + 1 && Unchanged(hunks, line, side) ==>
                  ExactLine(hunks, line, side, 0) == Some(LineAt(hunks, line, side)))
            && (line <= |here| && Unchanged(hunks, line + 1, side) ==>
                  ExactGap(hunks, line, side, 0) == GapAt(hunks, line, side) <= |there|)
  {
    hide ScriptFrom, MapLineFrom, MapGapFrom, ExactLine, ExactGap, Unchanged, Invert;
    if side.Old? {
      if line <= |a| + 1 { OldShiftsNeverSaturate(hunks, a, b, line); }
    } else {
      InvertIsScript(hunks, a, b);
      MapLineInverted(hunks, line, 0);
      ExactInverted(hunks, line, 0);
      UnchangedInverted(hunks, line);
      UnchangedInverted(hunks, line + 1);
      if line <= |b| + 1 { OldShiftsNeverSaturate(Invert(hunks), b, a, line); }
    }
  }

  /** Every hunk of a script is well numbered and lies within the texts. */
  lemma {:induction false} HunkFacts(hunks: seq<Hunk>, a: seq<Line>, b: seq<Line>, i: nat, j: nat, k: nat)
    requires ScriptFrom(hunks, a, b, i, j) && k < |hunks|
    ensures var h := hunks[k];
            && Numbered(h)
            && i <= Before(OldRange(h)) && After(OldRange(h)) <= |a|
            && j <= Before(NewRange(h)) && After(NewRange(h)) <= |b|
    decreases k
  {
    if k > 0 {
      HunkFacts(hunks[1..], a, b, After(OldRange(hunks[0])), After(NewRange(hunks[0])), k - 1);
    }
  }

  /** The gap after `line` is between two lines that the hunk changes. */
  predicate StrictlyInside(h: Hunk, line: nat) {
    h.oldCount > 0 && h.oldStart <= line < h.oldStart + h.oldCount - 1
  }

  /** A gap above every hunk that is left only moves by the shift so far. */
  lemma {:induction false} GapMovesPlainly(hunks: seq<Hunk>, a: seq<Line>, b: seq<Line>, i: nat, j: nat, line: nat, shift: int)
    requires ScriptFrom(hunks, a, b, i, j) && line < i
    ensures MapGapFrom(hunks, line, Old, shift) == SaturatingAddSigned(line, shift)
    decreases |hunks|
  {
    hide ScriptFrom, SaturatingAddSigned;
    if hunks != [] {
      ScriptStep(hunks, a, b, i, j);
      GapMovesPlainly(hunks[1..], a, b, After(OldRange(hunks[0])), After(NewRange(hunks[0])), line, shift);
    }
  }

  lemma EndIsAfter(r: Range)
    ensures End(r) == After(r)
  {
  }

  lemma GapUnfold(hunks: seq<Hunk>, line: nat, shift: int)
    requires hunks != []
    ensures var h := hunks[0];
            MapGapFrom(hunks, line, Old, shift)
            == MapGapFrom(hunks[1..], line, Old,
                          if After(OldRange(h)) <= line then shift + h.newCount - h.oldCount else shift)
  {
    hide End, After, SaturatingAddSigned;
    EndIsAfter(OldRange(hunks[0]));
  }

  /** What the loop does with a gap: it goes on below a hunk, or keeps the shift it has. */
  lemma GapStep(hunks: seq<Hunk>, a: seq<Line>, b: seq<Line>, i: nat, j: nat, line: nat)
    requires ScriptFrom(hunks, a, b, i, j) && hunks != []
    ensures var h := hunks[0];
            var m := MapGapFrom(hunks, line, Old, j - i);
            if After(OldRange(h)) <= line
            then m == MapGapFrom(hunks[1..], line, Old, After(NewRange(h)) - After(OldRange(h)))
            else m == SaturatingAddSigned(line, j - i)
  {
    hide ScriptFrom, MapGapFrom, SaturatingAddSigned, Before;
    var h := hunks[0];
    ScriptStep(hunks, a, b, i, j);
    GapUnfold(hunks, line, j - i);
    if line < After(OldRange(h)) {
      GapMovesPlainly(hunks[1..], a, b, After(OldRange(h)), After(NewRange(h)), line, j - i);
    }
  }

  lemma {:induction false} GapOutside(hunks: seq<Hunk>, a: seq<Line>, b: seq<Line>, i: nat, j: nat, line: nat)
    requires ScriptFrom(hunks, a, b, i, j) && |b| < USIZE_MAX && i <= line <= |a|
    requires forall k :: 0 <= k < |hunks| ==> !StrictlyInside(hunks[k], line)
    ensures j <= MapGapFrom(hunks, line, Old, j - i) <= |b|
    decreases |hunks|
  {
    hide ScriptFrom, MapGapFrom;
    FrontGap(hunks, a, b, i, j);
    if hunks == [] {
      NoHunksLeft(line, j - i);
    } else {
      var h := hunks[0];
      ScriptStep(hunks, a, b, i, j);
      GapStep(hunks, a, b, i, j, line);
      if After(OldRange(h)) <= line {
        GapOutside(hunks[1..], a, b, After(OldRange(h)), After(NewRange(h)), line);
      } else {
        assert !StrictlyInside(h, line);
      }
    }
  }

  lemma InsideNumbers(h: Hunk, line: nat)
    requires Numbered(h) && StrictlyInside(h, line)
    ensures Before(OldRange(h)) < line < After(OldRange(h))
  {
  }

  lemma {:induction false} GapInside(hunks: seq<Hunk>, a: seq<Line>, b: seq<Line>, i: nat, j: nat, line: nat, k: nat)
    requires ScriptFrom(hunks, a, b, i, j) && |a| + |b| < USIZE_MAX && line <= |a|
    requires k < |hunks| && StrictlyInside(hunks[k], line)
    ensures MapGapFrom(hunks, line, Old, j - i) == Before(NewRange(hunks[k])) + line - Before(OldRange(hunks[k]))
    decreases k
  {
    hide ScriptFrom, MapGapFrom, StrictlyInside, Before, Numbered;
    var h := hunks[0];
    ScriptStep(hunks, a, b, i, j);
    GapStep(hunks, a, b, i, j, line);
    HunkFacts(hunks, a, b, i, j, k);
    InsideNumbers(hunks[k], line);
    if k > 0 {
      HunkFacts(hunks[1..], a, b, After(OldRange(h)), After(NewRange(h)), k - 1);
      GapInside(hunks[1..], a, b, After(OldRange(h)), After(NewRange(h)), line, k - 1);
    }
  }

  lemma NoHunksLeft(line: nat, shift: int)
    ensures MapGapFrom([], line, Old, shift) == SaturatingAddSigned(line, shift)
  {
  }

  /**
    Where a gap goes: within the other text, if no hunk changes the lines on both sides
    of it; and otherwise as far below the start of the hunk's other lines as it is below
    the start of its own. It then stays within the other text if and only if that is not
    too far.
   */
  lemma GapStaysInText(hunks: seq<Hunk>, a: seq<Line>, b: seq<Line>, line: nat)
    requires Script(hunks, a, b) && |a| + |b| < USIZE_MAX && line <= |a|
    ensures (forall k :: 0 <= k < |hunks| ==> !StrictlyInside(hunks[k], line)) ==> GapAt(hunks, line, Old) <= |b|
    ensures forall k :: 0 <= k < |hunks| && StrictlyInside(hunks[k], line) ==>
              (GapAt(hunks, line, Old) <= |b| <==> line - Before(OldRange(hunks[k])) <= |b| - Before(NewRange(hunks[k])))
  {
    hide ScriptFrom, MapGapFrom, StrictlyInside, Before;
    if forall k :: 0 <= k < |hunks| ==> !StrictlyInside(hunks[k], line) {
      GapOutside(hunks, a, b, 0, 0, line);
    }
    forall k | 0 <= k < |hunks| && StrictlyInside(hunks[k], line)
      ensures GapAt(hunks, line, Old) == Before(NewRange(hunks[k])) + line - Before(OldRange(hunks[k]))
    {
      GapInside(hunks, a, b, 0, 0, line, k);
    }
  }

  /**
    A gap strictly inside a change keeps its distance from the change's start, and
    so may end up below the other text: here after line 1 of a text with no lines.
   */
  lemma GapInsideAChangeMayLeaveTheText(a: seq<Line>, hunks: seq<Hunk>)
    requires a == ["x", "y"] && hunks == [Hunk(1, 2, 0, 0, a, [])]
    ensures Script(hunks, a, []) && GapAt(hunks, 1, Old) == 1
  {
    assert hunks[1..] == [];
    assert Fits(hunks[0], a, [], 0, 0) by {
      assert SameLines(a, 0, hunks[0].oldLines, 0, 2);
    }
    assert ScriptFrom([], a, [], 2, 0);
    assert MapGapFrom([], 1, Old, 0) == 1;
  }

  /** The places above and below the text map to each other. */
  lemma {:induction false} Edges(hunks: seq<Hunk>, a: seq<Line>, b: seq<Line>, i: nat, j: nat)
    requires ScriptFrom(hunks, a, b, i, j) && |b| < USIZE_MAX
    ensures Unchanged(hunks, 0, Old) && (i == j == 0 ==> LineAt(hunks, 0, Old) == 0)
    ensures Unchanged(hunks, |a| + 1, Old) && MapLineFrom(hunks, |a| + 1, Old, j - i) == |b| + 1
    decreases |hunks|
  {
    hide ScriptFrom, Unchanged, Numbered;
    MapsPlainly(hunks, a, b, i, j, 0, 0);
    FrontGap(hunks, a, b, i, j);
    if hunks == [] {
      MapsPlainly(hunks, a, b, i, j, |a| + 1, j - i);
    } else {
      ScriptStep(hunks, a, b, i, j);
      FirstHunkAbove(hunks, a, b, i, j, |a| + 1);
      Edges(hunks[1..], a, b, After(OldRange(hunks[0])), After(NewRange(hunks[0])));
    }
  }

  /** How many lines the script inserts in the gap after `line`. */
  function InsertedAt(hunks: seq<Hunk>, line: nat): nat {
    if hunks == [] then 0 else
      (if hunks[0].oldCount == 0 && hunks[0].oldStart == line then hunks[0].newCount else 0)
      + InsertedAt(hunks[1..], line)
  }

  /** Two neighbouring unchanged lines move apart by what is inserted between them. */
  lemma {:induction false} Spread(hunks: seq<Hunk>, line: nat, shift: int, shift': int)
    requires Unchanged(hunks, line, Old) && Unchanged(hunks, line + 1, Old)
    ensures var m, m' := ExactLine(hunks, line, Old, shift), ExactLine(hunks, line + 1, Old, shift');
            m.Some? && m'.Some? && m'.value - shift' == m.value - shift + 1 + InsertedAt(hunks, line)
  {
    if hunks != [] {
      var h := hunks[0];
      UnchangedStep(hunks, line, Old);
      UnchangedStep(hunks, line + 1, Old);
      var d := h.newCount - h.oldCount;
      Spread(hunks[1..], line, if End(OldRange(h)) < line then shift + d else shift,
             if End(OldRange(h)) < line + 1 then shift' + d else shift');
    }
  }

  lemma {:induction false} InsertedNothing(hunks: seq<Hunk>, line: nat)
    requires forall k :: 0 <= k < |hunks| ==> Numbered(hunks[k])
    ensures InsertedAt(hunks, line) == 0
        <==> forall k :: 0 <= k < |hunks| ==> !(hunks[k].oldCount == 0 && hunks[k].oldStart == line)
  {
    if hunks != [] {
      InsertedNothing(hunks[1..], line);
      assert hunks == [hunks[0]] + hunks[1..];
    }
  }

  /** The line and the one below it are unchanged and stay neighbours. */
  ghost predicate Joined(hunks: seq<Hunk>, line: nat) {
    && Unchanged(hunks, line, Old)
    && Unchanged(hunks, line + 1, Old)
    && LineAt(hunks, line + 1, Old) == LineAt(hunks, line, Old) + 1
  }

  lemma JoinedMeansNothingBetween(hunks: seq<Hunk>, a: seq<Line>, b: seq<Line>, line: nat)
    requires Script(hunks, a, b) && line <= |a|
    ensures Joined(hunks, line) <==>
              forall k :: 0 <= k < |hunks| ==>
                !Covers(OldRange(hunks[k]), line) && !Covers(OldRange(hunks[k]), line + 1)
                && !(hunks[k].oldCount == 0 && hunks[k].oldStart == line)
    ensures Joined(hunks, line) ==> GapAt(hunks, line, Old) == LineAt(hunks, line, Old)
  {
    forall k | 0 <= k < |hunks| ensures Numbered(hunks[k]) { HunkFacts(hunks, a, b, 0, 0, k); }
    InsertedNothing(hunks, line);
    OldShiftsNeverSaturate(hunks, a, b, line);
    OldShiftsNeverSaturate(hunks, a, b, line + 1);
    if Unchanged(hunks, line, Old) && Unchanged(hunks, line + 1, Old) {
      Spread(hunks, line, 0, 0);
      GapBeforeLine(hunks, line, 0);
    }
    assert forall k :: 0 <= k < |hunks| ==> From(hunks[k], Old) == OldRange(hunks[k]);
  }

  /**
    `intact` is exactly content preservation: every line of the range is unchanged
    and consecutive lines stay consecutive.
   */
  lemma IntactRange(hunks: seq<Hunk>, a: seq<Line>, b: seq<Line>, r: Range)
    requires Script(hunks, a, b) && r.count > 0 && 1 <= r.start && r.start + r.count - 1 <= |a|
    ensures Intact(hunks, r) <==>
              && (forall line :: r.start <= line < r.start + r.count ==> Unchanged(hunks, line, Old))
              && (forall line :: r.start <= line < r.start + r.count - 1 ==> Joined(hunks, line))
  {
    forall k | 0 <= k < |hunks| ensures Numbered(hunks[k]) { HunkFacts(hunks, a, b, 0, 0, k); }
    forall line | r.start <= line < r.start + r.count
      ensures Joined(hunks, line) <==>
                forall k :: 0 <= k < |hunks| ==>
                  !Covers(OldRange(hunks[k]), line) && !Covers(OldRange(hunks[k]), line + 1)
                  && !(hunks[k].oldCount == 0 && hunks[k].oldStart == line)
    {
      JoinedMeansNothingBetween(hunks, a, b, line);
    }
    if forall line :: r.start <= line < r.start + r.count ==> Unchanged(hunks, line, Old) {
      if forall line :: r.start <= line < r.start + r.count - 1 ==> Joined(hunks, line) {
        forall k | 0 <= k < |hunks| ensures Spares(OldRange(hunks[k]), r) {
          var c := OldRange(hunks[k]);
          if c.count > 0 {
            assert Unchanged(hunks, Max(c.start, r.start), Old) || End(c) < r.start || r.start + r.count - 1 < c.start;
            assert From(hunks[k], Old) == c;
          } else {
            assert r.start <= c.start < r.start + r.count - 1 ==> Joined(hunks, c.start);
          }
        }
      }
    }
  }

  /**
    For a gap, `intact` says that the lines on both sides of it are unchanged and
    stay neighbours. The top and the bottom of the text count as such lines.
   */
  lemma IntactGap(hunks: seq<Hunk>, a: seq<Line>, b: seq<Line>, line: nat)
    requires Script(hunks, a, b) && line <= |a|
    ensures Intact(hunks, Range(line, 0)) <==> Joined(hunks, line)
    ensures Intact(hunks, Range(line, 0)) ==> GapAt(hunks, line, Old) == LineAt(hunks, line, Old)
    ensures LineAt(hunks, 0, Old) == 0 && LineAt(hunks, |a| + 1, Old) == |b| + 1
  {
    JoinedMeansNothingBetween(hunks, a, b, line);
    Edges(hunks, a, b, 0, 0);
  }

  /** Lines joined one after the other keep their distance. */
  lemma {:induction false} JoinedRun(hunks: seq<Hunk>, first: nat, n: nat)
    requires forall line :: first <= line < first + n ==> Joined(hunks, line)
    ensures LineAt(hunks, first + n, Old) == LineAt(hunks, first, Old) + n
  {
    if n > 0 {
      JoinedRun(hunks, first, n - 1);
      assert Joined(hunks, first + n - 1);
    }
  }

  /** Lines joined one after the other are found again one after the other. */
  lemma RunKeepsLines(hunks: seq<Hunk>, a: seq<Line>, b: seq<Line>, first: nat, last: nat)
    requires Script(hunks, a, b) && 1 <= first <= last <= |a|
    requires forall line :: first <= line <= last ==> Unchanged(hunks, line, Old)
    requires forall line :: first <= line < last ==> Joined(hunks, line)
    ensures var m := LineAt(hunks, first, Old);
            && LineAt(hunks, last, Old) == m + last - first
            && m >= 1 && SameLines(a, first - 1, b, m - 1, last - first + 1)
  {
    hide Script, LineAt, Unchanged;
    var m := LineAt(hunks, first, Old);
    Alignment(hunks, a, b, first);
    Alignment(hunks, a, b, last);
    JoinedRun(hunks, first, last - first);
    forall x | first - 1 <= x < last ensures a[x] == b[x - (first - 1) + (m - 1)] {
      JoinedRun(hunks, first, x + 1 - first);
      Alignment(hunks, a, b, x + 1);
    }
  }

  /** Lines of the text, or a gap between, above or below them. */
  predicate InText(r: Range, a: seq<Line>) {
    if r.count == 0 then r.start <= |a| else 1 <= r.start && r.start + r.count - 1 <= |a|
  }

  /** The lines of `r` are all unchanged and stay next to each other; for a gap, those around it. */
  ghost predicate Survives(hunks: seq<Hunk>, r: Range) {
    if r.count == 0 then Joined(hunks, r.start)
    else
      && (forall line :: r.start <= line < r.start + r.count ==> Unchanged(hunks, line, Old))
      && (forall line :: r.start <= line < r.start + r.count - 1 ==> Joined(hunks, line))
  }

  /** `b` has the lines of `r` from line `at` on. */
  predicate HasLines(b: seq<Line>, at: nat, a: seq<Line>, r: Range)
    requires InText(r, a)
  {
    if r.count == 0 then at <= |b|
    else 1 <= at && at - 1 + r.count <= |b| && b[at - 1..at - 1 + r.count] == a[r.start - 1..r.start - 1 + r.count]
  }

  lemma LinesSurvive(hunks: seq<Hunk>, a: seq<Line>, b: seq<Line>, r: Range)
    requires Script(hunks, a, b) && r.count > 0 && InText(r, a)
    ensures Survives(hunks, r) <==> Intact(hunks, r)
    ensures Survives(hunks, r) ==> HasLines(b, LineAt(hunks, r.start, Old), a, r)
  {
    hide Script, LineAt, Unchanged, Joined, Intact;
    IntactRange(hunks, a, b, r);
    if Survives(hunks, r) {
      RunKeepsLines(hunks, a, b, r.start, r.start + r.count - 1);
      SameSlices(a, r.start - 1, b, LineAt(hunks, r.start, Old) - 1, r.count);
    }
  }

  lemma GapSurvives(hunks: seq<Hunk>, a: seq<Line>, b: seq<Line>, line: nat)
    requires Script(hunks, a, b) && line <= |a|
    ensures Survives(hunks, Range(line, 0)) <==> Intact(hunks, Range(line, 0))
    ensures Survives(hunks, Range(line, 0)) ==> GapAt(hunks, line, Old) == LineAt(hunks, line, Old) <= |b|
  {
    hide ScriptFrom, LineAt, GapAt, Unchanged, Intact;
    IntactGap(hunks, a, b, line);
    OldShiftsNeverSaturate(hunks, a, b, line);
  }

  /**
    A range survives if and only if it is intact, and is then placed where its first
    line goes, or the line above it if it is a gap; the target has its lines there.
   */
  lemma SurvivorsAreThere(hunks: seq<Hunk>, a: seq<Line>, b: seq<Line>, r: Range)
    requires Script(hunks, a, b) && InText(r, a)
    ensures Survives(hunks, r) <==> Intact(hunks, r)
    ensures Survives(hunks, r) ==>
              RangeAt(hunks, r) == LineAt(hunks, r.start, Old) && HasLines(b, LineAt(hunks, r.start, Old), a, r)
  {
    hide Script, LineAt, GapAt, Survives, Intact;
    if r.count == 0 {
      assert r == Range(r.start, 0);
      GapSurvives(hunks, a, b, r.start);
    } else {
      LinesSurvive(hunks, a, b, r);
    }
  }

  /**
    The status of a hunk in any target: it is pending exactly when its original lines
    survive, applied exactly when only its suggested ones do, and stale otherwise.
    Pending or applied, it is placed where those lines go, and the target has them
    there; stale, it is placed where its original lines were.
   */
  lemma HunkStatus(
    toParent: seq<Hunk>, toCommit: seq<Hunk>, parent: seq<Line>, commit: seq<Line>, target: seq<Line>, path: string, h: Hunk)
    requires Script(toParent, parent, target) && Script(toCommit, commit, target)
    requires InText(OldRange(h), parent) && InText(NewRange(h), commit)
    ensures var loc := PlaceHunk(toParent, toCommit, path, h);
            var pending, applied := Survives(toParent, OldRange(h)), Survives(toCommit, NewRange(h));
            && loc.status == (if pending then Pending else if applied then Applied else Stale)
            && loc.path == path && loc.hunk == Some(h)
            && loc.count == (if loc.status == Applied then h.newCount else h.oldCount)
            && (loc.status == Pending ==>
                  && loc.line == Some(LineAt(toParent, h.oldStart, Old))
                  && HasLines(target, loc.line.value, parent, OldRange(h)))
            && (loc.status == Applied ==>
                  && loc.line == Some(LineAt(toCommit, h.newStart, Old))
                  && HasLines(target, loc.line.value, commit, NewRange(h)))
            && (loc.status == Stale ==>
                  && loc.line == Some(RangeAt(toParent, OldRange(h)))
                  && (h.oldCount > 0 ==> loc.line.value <= |target|))
  {
    hide Script, LineAt, GapAt, Intact, Survives, HasLines;
    SurvivorsAreThere(toParent, parent, target, OldRange(h));
    SurvivorsAreThere(toCommit, commit, target, NewRange(h));
    if h.oldCount > 0 { LineStaysInText(toParent, parent, target, h.oldStart); }
  }

  lemma LineStaysInText(hunks: seq<Hunk>, a: seq<Line>, b: seq<Line>, line: nat)
    requires Script(hunks, a, b) && 1 <= line <= |a|
    ensures LineAt(hunks, line, Old) <= |b|
  {
    hide ScriptFrom, MapLineFrom;
    BoundsFrom(hunks, a, b, 0, 0, line);
  }
}

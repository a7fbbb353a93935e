/**
  A zero-context line diff as an edit script between two texts.

  Hunks are numbered as Git numbers them: lines count from 1, and a side with no
  lines starts at the line it follows, 0 for the top.
 */
module EditScripts {
  import opened Text

  type Line = string

  datatype Range = Range(start: nat, count: nat)

  datatype Hunk = Hunk(
    oldStart: nat, oldCount: nat,
    newStart: nat, newCount: nat,
    oldLines: seq<Line>, newLines: seq<Line>)

  function OldRange(h: Hunk): Range { Range(h.oldStart, h.oldCount) }

  function NewRange(h: Hunk): Range { Range(h.newStart, h.newCount) }

  /** How many lines of its side come before the range. */
  function Before(r: Range): int {
    if r.count == 0 then r.start else r.start - 1
  }

  /** How many lines of its side come before the end of the range. */
  function After(r: Range): int { Before(r) + r.count }

  predicate Covers(r: Range, line: int) {
    r.count > 0 && r.start <= line < r.start + r.count
  }

  /** The hunk changes something and its numbers describe its lines. */
  predicate Numbered(h: Hunk) {
    && h.oldCount + h.newCount > 0
    && |h.oldLines| == h.oldCount
    && |h.newLines| == h.newCount
    && (h.oldCount > 0 ==> h.oldStart > 0)
    && (h.newCount > 0 ==> h.newStart > 0)
  }

  /** `n` lines of `a` from index `i` equal those of `b` from index `j`. */
  ghost predicate SameLines(a: seq<Line>, i: int, b: seq<Line>, j: int, n: int) {
    && 0 <= i && 0 <= j && 0 <= n && i + n <= |a| && j + n <= |b|
    && forall x :: i <= x < i + n ==> a[x] == b[x - i + j]
  }

  /** `h` is the first change from `a[i..]` to `b[j..]`: an equal gap, then the hunk's own lines. */
  ghost predicate Fits(h: Hunk, a: seq<Line>, b: seq<Line>, i: nat, j: nat) {
    var p, q := Before(OldRange(h)), Before(NewRange(h));
    && Numbered(h)
    && p - i == q - j && SameLines(a, i, b, j, p - i)
    && SameLines(a, p, h.oldLines, 0, h.oldCount)
    && SameLines(b, q, h.newLines, 0, h.newCount)
  }

  /**
    `hunks` turns `a[i..]` into `b[j..]`, with at least one unchanged line
    between two hunks.
   */
  ghost predicate ScriptFrom(hunks: seq<Hunk>, a: seq<Line>, b: seq<Line>, i: nat, j: nat)
    decreases |hunks|
  {
    if hunks == [] then |a| - i == |b| - j && SameLines(a, i, b, j, |a| - i) else
      && Fits(hunks[0], a, b, i, j)
      && (|hunks| > 1 ==> After(OldRange(hunks[0])) < Before(OldRange(hunks[1])))
      && ScriptFrom(hunks[1..], a, b, After(OldRange(hunks[0])), After(NewRange(hunks[0])))
  }

  /** `hunks` is a well-formed script from text `a` to text `b`. */
  ghost predicate Script(hunks: seq<Hunk>, a: seq<Line>, b: seq<Line>) {
    && |a| < USIZE_MAX && |b| < USIZE_MAX
    && ScriptFrom(hunks, a, b, 0, 0)
  }

  /** The numbering of a script by itself, from line `i` of one text and `j` of the other. */
  ghost predicate Ordered(hunks: seq<Hunk>, i: int, j: int)
    decreases |hunks|
  {
    hunks == [] || (
      && Numbered(hunks[0])
      && i <= Before(OldRange(hunks[0]))
      && Before(OldRange(hunks[0])) - i == Before(NewRange(hunks[0])) - j
      && (|hunks| > 1 ==> After(OldRange(hunks[0])) < Before(OldRange(hunks[1])))
      && Ordered(hunks[1..], After(OldRange(hunks[0])), After(NewRange(hunks[0]))))
  }

  lemma {:induction false} ScriptIsOrdered(hunks: seq<Hunk>, a: seq<Line>, b: seq<Line>, i: nat, j: nat)
    requires ScriptFrom(hunks, a, b, i, j)
    ensures Ordered(hunks, i, j)
    decreases |hunks|
  {
    if hunks != [] {
      ScriptIsOrdered(hunks[1..], a, b, After(OldRange(hunks[0])), After(NewRange(hunks[0])));
    }
  }

  lemma ScriptCons(h: Hunk, hunks: seq<Hunk>, a: seq<Line>, b: seq<Line>, i: nat, j: nat)
    requires Fits(h, a, b, i, j)
    requires ScriptFrom(hunks, a, b, After(OldRange(h)), After(NewRange(h)))
    requires hunks != [] ==> After(OldRange(h)) < Before(OldRange(hunks[0]))
    ensures ScriptFrom([h] + hunks, a, b, i, j)
  {
    assert ([h] + hunks)[1..] == hunks;
  }

  function Flip(h: Hunk): Hunk {
    Hunk(h.newStart, h.newCount, h.oldStart, h.oldCount, h.newLines, h.oldLines)
  }

  /** The script read from its other side. */
  function Invert(hunks: seq<Hunk>): (r: seq<Hunk>)
    ensures |r| == |hunks| && forall k :: 0 <= k < |hunks| ==> r[k] == Flip(hunks[k])
  {
    if hunks == [] then [] else [Flip(hunks[0])] + Invert(hunks[1..])
  }

  lemma SameLinesSwap(a: seq<Line>, i: int, b: seq<Line>, j: int, n: int)
    requires SameLines(a, i, b, j, n)
    ensures SameLines(b, j, a, i, n)
  {
  }

  lemma {:induction false} InvertFrom(hunks: seq<Hunk>, a: seq<Line>, b: seq<Line>, i: nat, j: nat)
    requires ScriptFrom(hunks, a, b, i, j)
    ensures ScriptFrom(Invert(hunks), b, a, j, i)
    decreases |hunks|
  {
    if hunks == [] {
      SameLinesSwap(a, i, b, j, |a| - i);
    } else {
      var h := hunks[0];
      SameLinesSwap(a, i, b, j, Before(OldRange(h)) - i);
      InvertFrom(hunks[1..], a, b, After(OldRange(h)), After(NewRange(h)));
      assert Invert(hunks)[1..] == Invert(hunks[1..]);
      assert Invert(hunks)[0] == Flip(h);
      if |hunks| > 1 {
        assert Invert(hunks)[1] == Flip(hunks[1]);
        assert hunks[1..][0] == hunks[1];
      }
    }
  }

  /** A script from `a` to `b`, read from its other side, leads from `b` to `a`. */
  lemma InvertIsScript(hunks: seq<Hunk>, a: seq<Line>, b: seq<Line>)
    requires Script(hunks, a, b)
    ensures Script(Invert(hunks), b, a) && Invert(Invert(hunks)) == hunks
  {
    InvertFrom(hunks, a, b, 0, 0);
  }

  /** Moving the start of a script back over equal lines keeps it a script. */
  lemma WidenFront(hunks: seq<Hunk>, a: seq<Line>, b: seq<Line>, i: nat, j: nat, i': nat, j': nat)
    requires ScriptFrom(hunks, a, b, i, j)
    requires i' <= i && j' <= j && i - i' == j - j'
    requires SameLines(a, i', b, j', i - i')
    ensures ScriptFrom(hunks, a, b, i', j')
  {
  }

  lemma SameSlices(a: seq<Line>, i: nat, b: seq<Line>, j: nat, n: nat)
    requires SameLines(a, i, b, j, n)
    ensures a[i..i + n] == b[j..j + n]
  {
    assert |a[i..i + n]| == |b[j..j + n]|;
  }
}

/**
  A target that has taken some of a suggestion's hunks: how each hunk is placed
  in it, and what applying a hunk where it is placed gives.

  `taken[k]` says whether the target has hunk `k`. All numbering follows from a
  running `shift`, the target's offset from the parent.
 */
module PartialApplication {
  import opened Wrappers
  import opened EditScripts
  import opened Locate
  import opened Text

  /** The target below line `i` of the parent. */
  function TargetFrom(hunks: seq<Hunk>, taken: seq<bool>, parent: seq<Line>, i: nat): seq<Line>
    requires |taken| == |hunks|
    decreases |hunks|
  {
    if i > |parent| then [] else
    if hunks == [] then parent[i..] else
      var p := Before(OldRange(hunks[0]));
      if p < i || p > |parent| then [] else
        parent[i..p] + (if taken[0] then hunks[0].newLines else hunks[0].oldLines)
        + TargetFrom(hunks[1..], taken[1..], parent, p + hunks[0].oldCount)
  }

  /** The parent with exactly the taken hunks applied. */
  function Target(hunks: seq<Hunk>, taken: seq<bool>, parent: seq<Line>): seq<Line>
    requires |taken| == |hunks|
  {
    TargetFrom(hunks, taken, parent, 0)
  }

  /** How a hunk moves the lines below it. */
  function Growth(h: Hunk): int { h.newCount - h.oldCount }

  /** The start that numbers `count` lines after the first `before` ones. */
  function StartAfter(before: int, count: nat): nat {
    Max(0, if count == 0 then before else before + 1)
  }

  /** The taken hunks, renumbered from `shift` on as a diff that leads to the target. */
  function KeepFrom(hunks: seq<Hunk>, taken: seq<bool>, shift: int): seq<Hunk>
    requires |taken| == |hunks|
  {
    if hunks == [] then [] else
      var h := hunks[0];
      if taken[0] then
        [h.(newStart := StartAfter(Before(OldRange(h)) + shift, h.newCount))]
        + KeepFrom(hunks[1..], taken[1..], shift + Growth(h))
      else KeepFrom(hunks[1..], taken[1..], shift)
  }

  function Complement(taken: seq<bool>): seq<bool> { seq(|taken|, k requires 0 <= k < |taken| => !taken[k]) }

  /** The diff from the parent to the target: the taken hunks, renumbered. */
  function ToParent(hunks: seq<Hunk>, taken: seq<bool>): seq<Hunk>
    requires |taken| == |hunks|
  {
    KeepFrom(hunks, taken, 0)
  }

  /** The diff from the suggestion to the target: the other hunks, reversed and renumbered. */
  function ToCommit(hunks: seq<Hunk>, taken: seq<bool>): seq<Hunk>
    requires |taken| == |hunks|
  {
    KeepFrom(Invert(hunks), Complement(taken), 0)
  }

  /** How many lines of the target come before hunk `k`'s lines. */
  function Position(hunks: seq<Hunk>, taken: seq<bool>, k: nat, shift: int): int
    requires |taken| == |hunks| && k < |hunks|
    decreases k
  {
    if k == 0 then Before(OldRange(hunks[0])) + shift
    else Position(hunks[1..], taken[1..], k - 1, if taken[0] then shift + Growth(hunks[0]) else shift)
  }

  // The two diffs really lead to the target.

  lemma {:induction false} KeptBelow(hunks: seq<Hunk>, taken: seq<bool>, i: int, j: int, shift: int)
    requires |taken| == |hunks| && Ordered(hunks, i, j)
    ensures var r := KeepFrom(hunks, taken, shift);
            r != [] ==> hunks != [] && Before(OldRange(hunks[0])) <= Before(OldRange(r[0]))
    decreases |hunks|
  {
    if hunks != [] && !taken[0] {
      var h := hunks[0];
      KeptBelow(hunks[1..], taken[1..], After(OldRange(h)), After(NewRange(h)), shift);
      assert KeepFrom(hunks, taken, shift) == KeepFrom(hunks[1..], taken[1..], shift);
    }
  }

  lemma TargetFromStep(hunks: seq<Hunk>, taken: seq<bool>, a: seq<Line>, i: nat)
    requires |taken| == |hunks| && hunks != [] && i <= Before(OldRange(hunks[0])) <= |a|
    ensures var p := Before(OldRange(hunks[0]));
            TargetFrom(hunks, taken, a, i)
            == a[i..p] + (if taken[0] then hunks[0].newLines else hunks[0].oldLines)
               + TargetFrom(hunks[1..], taken[1..], a, p + hunks[0].oldCount)
  {
    hide Before;
  }

  /** One unfolding of `TargetFrom` on a script. */
  lemma TargetUnfold(hunks: seq<Hunk>, taken: seq<bool>, a: seq<Line>, b: seq<Line>, i: nat, j: nat)
    requires |taken| == |hunks| && hunks != [] && ScriptFrom(hunks, a, b, i, j)
    ensures var h := hunks[0];
            && i <= Before(OldRange(h)) <= |a| && j <= Before(NewRange(h)) <= |b|
            && a[i..Before(OldRange(h))] == b[j..Before(NewRange(h))]
            && TargetFrom(hunks, taken, a, i)
               == a[i..Before(OldRange(h))] + (if taken[0] then h.newLines else h.oldLines)
                  + TargetFrom(hunks[1..], taken[1..], a, After(OldRange(h)))
  {
    hide ScriptFrom, Before, TargetFrom;
    ScriptStep(hunks, a, b, i, j);
    FrontGap(hunks, a, b, i, j);
    TargetFromStep(hunks, taken, a, i);
    SameSlices(a, i, b, j, Before(OldRange(hunks[0])) - i);
  }

  /** The target's text is `target[t..]`, where `t == i + shift`. */
  ghost predicate TargetIs(
    target: seq<Line>, t: int, hunks: seq<Hunk>, taken: seq<bool>, parent: seq<Line>, i: nat)
    requires |taken| == |hunks|
  {
    0 <= t <= |target| && target[t..] == TargetFrom(hunks, taken, parent, i)
  }

  /** What the target holds around the first hunk. */
  lemma TargetStep(hunks: seq<Hunk>, taken: seq<bool>, a: seq<Line>, b: seq<Line>, i: nat, j: nat, target: seq<Line>, t: int)
    requires |taken| == |hunks| && ScriptFrom(hunks, a, b, i, j) && hunks != []
    requires TargetIs(target, t, hunks, taken, a, i)
    ensures var h := hunks[0];
            var p := Before(OldRange(h));
            var lines := if taken[0] then h.newLines else h.oldLines;
            && SameLines(a, i, target, t, p - i)
            && SameLines(target, t + p - i, lines, 0, |lines|)
            && TargetIs(target, t + p - i + |lines|, hunks[1..], taken[1..], a, After(OldRange(h)))
  {
    hide ScriptFrom, Before;
    TargetUnfold(hunks, taken, a, b, i, j);
    var h := hunks[0];
    var p := Before(OldRange(h));
    var lines := if taken[0] then h.newLines else h.oldLines;
    var rest := TargetFrom(hunks[1..], taken[1..], a, After(OldRange(h)));
    assert target[t..] == a[i..p] + lines + rest;
    forall x | i <= x < p ensures a[x] == target[x - i + t] {
      assert target[t..][x - i] == a[i..p][x - i];
    }
    forall x | t + p - i <= x < t + p - i + |lines| ensures target[x] == lines[x - (t + p - i)] {
      assert target[t..][x - t] == target[x];
    }
    assert target[t + p - i + |lines|..] == target[t..][p - i + |lines|..] == rest;
  }

  lemma SameLinesJoin(a: seq<Line>, i: int, b: seq<Line>, j: int, n: int, lines: seq<Line>)
    requires SameLines(a, i, b, j, n)
    requires SameLines(a, i + n, lines, 0, |lines|) && SameLines(b, j + n, lines, 0, |lines|)
    ensures SameLines(a, i, b, j, n + |lines|)
  {
  }

  lemma TakenFits(
    hunks: seq<Hunk>, taken: seq<bool>, a: seq<Line>, b: seq<Line>, i: nat, j: nat, target: seq<Line>, t: nat)
    requires |taken| == |hunks| && hunks != [] && taken[0] && ScriptFrom(hunks, a, b, i, j)
    requires TargetIs(target, t, hunks, taken, a, i)
    ensures var h := hunks[0];
            var h' := h.(newStart := StartAfter(Before(OldRange(h)) + t - i, h.newCount));
            Fits(h', a, target, i, t) && After(NewRange(h')) == t + Before(OldRange(h)) - i + h.newCount
  {
    TargetStep(hunks, taken, a, b, i, j, target, t);
  }

  /** What is kept of the later hunks starts below the first one. */
  lemma KeptApart(hunks: seq<Hunk>, taken: seq<bool>, a: seq<Line>, b: seq<Line>, i: nat, j: nat, shift: int)
    requires |taken| == |hunks| && hunks != [] && ScriptFrom(hunks, a, b, i, j)
    ensures var rest := KeepFrom(hunks[1..], taken[1..], shift);
            rest != [] ==> After(OldRange(hunks[0])) < Before(OldRange(rest[0]))
  {
    ScriptIsOrdered(hunks, a, b, i, j);
    KeptBelow(hunks[1..], taken[1..], After(OldRange(hunks[0])), After(NewRange(hunks[0])), shift);
  }

  lemma KeepTaken(
    hunks: seq<Hunk>, taken: seq<bool>, a: seq<Line>, b: seq<Line>, i: nat, j: nat, target: seq<Line>, t: nat, t': nat)
    requires |taken| == |hunks| && hunks != [] && taken[0] && ScriptFrom(hunks, a, b, i, j)
    requires TargetIs(target, t, hunks, taken, a, i)
    requires t' == t + Before(OldRange(hunks[0])) - i + hunks[0].newCount
    requires ScriptFrom(KeepFrom(hunks[1..], taken[1..], t' - After(OldRange(hunks[0]))), a, target, After(OldRange(hunks[0])), t')
    ensures ScriptFrom(KeepFrom(hunks, taken, t - i), a, target, i, t)
  {
    hide TargetIs, ScriptFrom, Fits;
    var h := hunks[0];
    var h' := h.(newStart := StartAfter(Before(OldRange(h)) + t - i, h.newCount));
    var rest := KeepFrom(hunks[1..], taken[1..], t' - After(OldRange(h)));
    TakenFits(hunks, taken, a, b, i, j, target, t);
    KeptApart(hunks, taken, a, b, i, j, t' - After(OldRange(h)));
    ScriptCons(h', rest, a, target, i, t);
    assert KeepFrom(hunks, taken, t - i) == [h'] + rest;
  }

  lemma HunkLines(hunks: seq<Hunk>, a: seq<Line>, b: seq<Line>, i: nat, j: nat)
    requires ScriptFrom(hunks, a, b, i, j) && hunks != []
    ensures |hunks[0].oldLines| == hunks[0].oldCount && |hunks[0].newLines| == hunks[0].newCount
    ensures SameLines(a, Before(OldRange(hunks[0])), hunks[0].oldLines, 0, hunks[0].oldCount)
  {
  }

  lemma KeepSkipped(
    hunks: seq<Hunk>, taken: seq<bool>, a: seq<Line>, b: seq<Line>, i: nat, j: nat, target: seq<Line>, t: nat, t': nat)
    requires |taken| == |hunks| && hunks != [] && !taken[0] && ScriptFrom(hunks, a, b, i, j)
    requires TargetIs(target, t, hunks, taken, a, i)
    requires t' == t + After(OldRange(hunks[0])) - i
    requires ScriptFrom(KeepFrom(hunks[1..], taken[1..], t - i), a, target, After(OldRange(hunks[0])), t')
    ensures ScriptFrom(KeepFrom(hunks, taken, t - i), a, target, i, t)
  {
    hide ScriptFrom, TargetIs, Before;
    var h := hunks[0];
    ScriptStep(hunks, a, b, i, j);
    HunkLines(hunks, a, b, i, j);
    TargetStep(hunks, taken, a, b, i, j, target, t);
    SameLinesJoin(a, i, target, t, Before(OldRange(h)) - i, h.oldLines);
    WidenFront(KeepFrom(hunks[1..], taken[1..], t - i), a, target, After(OldRange(h)), t', i, t);
  }

  lemma KeepEnd(taken: seq<bool>, a: seq<Line>, b: seq<Line>, i: nat, j: nat, target: seq<Line>, t: nat)
    requires taken == [] && ScriptFrom([], a, b, i, j) && TargetIs(target, t, [], taken, a, i)
    ensures ScriptFrom(KeepFrom([], taken, t - i), a, target, i, t)
  {
    forall x | i <= x < |a| ensures a[x] == target[x - i + t] {
      assert target[t..][x - i] == a[i..][x - i];
    }
  }

  lemma {:induction false} KeepIsScript(
    hunks: seq<Hunk>, taken: seq<bool>, a: seq<Line>, b: seq<Line>, i: nat, j: nat, target: seq<Line>, t: nat)
    requires |taken| == |hunks| && ScriptFrom(hunks, a, b, i, j)
    requires TargetIs(target, t, hunks, taken, a, i)
    ensures ScriptFrom(KeepFrom(hunks, taken, t - i), a, target, i, t)
    decreases |hunks|
  {
    hide ScriptFrom, KeepFrom, TargetIs, Before;
    if hunks == [] {
      KeepEnd(taken, a, b, i, j, target, t);
    } else {
      var h := hunks[0];
      ScriptStep(hunks, a, b, i, j);
      TargetStep(hunks, taken, a, b, i, j, target, t);
      var t' := t + Before(OldRange(h)) - i + if taken[0] then h.newCount else h.oldCount;
      KeepIsScript(hunks[1..], taken[1..], a, b, After(OldRange(h)), After(NewRange(h)), target, t');
      if taken[0] {
        KeepTaken(hunks, taken, a, b, i, j, target, t, t');
      } else {
        KeepSkipped(hunks, taken, a, b, i, j, target, t, t');
      }
    }
  }

  /** At the end of a script both versions, and so the target, have the same lines left. */
  lemma TargetEnd(taken: seq<bool>, a: seq<Line>, b: seq<Line>, i: nat, j: nat)
    requires taken == [] && ScriptFrom([], a, b, i, j)
    ensures i <= |a| && j <= |b| && TargetFrom([], taken, a, i) == a[i..]
    ensures TargetFrom([], taken, a, i) == TargetFrom(Invert([]), Complement(taken), b, j)
  {
    SameSlices(a, i, b, j, |a| - i);
  }

  /** The target is also the suggestion with the other hunks taken back. */
  lemma {:induction false} TargetFromCommit(
    hunks: seq<Hunk>, taken: seq<bool>, a: seq<Line>, b: seq<Line>, i: nat, j: nat)
    requires |taken| == |hunks| && ScriptFrom(hunks, a, b, i, j)
    ensures TargetFrom(hunks, taken, a, i) == TargetFrom(Invert(hunks), Complement(taken), b, j)
    decreases |hunks|
  {
    hide ScriptFrom, TargetFrom, Before;
    if hunks == [] {
      TargetEnd(taken, a, b, i, j);
    } else {
      ScriptStep(hunks, a, b, i, j);
      var back, rest := Invert(hunks), Complement(taken);
      InvertFrom(hunks, a, b, i, j);
      TargetUnfold(hunks, taken, a, b, i, j);
      TargetUnfold(back, rest, b, a, j, i);
      assert rest[1..] == Complement(taken[1..]);
      assert back[1..] == Invert(hunks[1..]);
      TargetFromCommit(hunks[1..], taken[1..], a, b, After(OldRange(hunks[0])), After(NewRange(hunks[0])));
    }
  }

  /**
    The partial diffs are scripts: the taken hunks lead from the parent to the
    target, and the other hunks, reversed, from the suggestion to it. With no hunk
    taken the target is the parent, with every hunk taken it is the suggestion.
   */
  lemma DiffsLeadToTarget(hunks: seq<Hunk>, taken: seq<bool>, parent: seq<Line>, commit: seq<Line>)
    requires |taken| == |hunks| && Script(hunks, parent, commit)
    ensures var target := Target(hunks, taken, parent);
            && ScriptFrom(ToParent(hunks, taken), parent, target, 0, 0)
            && ScriptFrom(ToCommit(hunks, taken), commit, target, 0, 0)
    ensures (forall k :: 0 <= k < |taken| ==> !taken[k]) ==> Target(hunks, taken, parent) == parent
    ensures (forall k :: 0 <= k < |taken| ==> taken[k]) ==> Target(hunks, taken, parent) == commit
  {
    hide ScriptFrom, KeepFrom, TargetFrom, Invert;
    var target := Target(hunks, taken, parent);
    assert target[0..] == target;
    KeepIsScript(hunks, taken, parent, commit, 0, 0, target, 0);
    InvertIsScript(hunks, parent, commit);
    TargetFromCommit(hunks, taken, parent, commit, 0, 0);
    KeepIsScript(Invert(hunks), Complement(taken), commit, parent, 0, 0, target, 0);
    NothingTaken(hunks, taken, parent, commit, 0, 0);
    NothingTaken(Invert(hunks), Complement(taken), commit, parent, 0, 0);
  }

  lemma OldLinesAreThere(hunks: seq<Hunk>, a: seq<Line>, b: seq<Line>, i: nat, j: nat)
    requires ScriptFrom(hunks, a, b, i, j) && hunks != []
    ensures var r := OldRange(hunks[0]);
            0 <= Before(r) <= After(r) <= |a| && hunks[0].oldLines == a[Before(r)..After(r)]
  {
    SameSlices(a, Before(OldRange(hunks[0])), hunks[0].oldLines, 0, hunks[0].oldCount);
  }

  lemma {:induction false} NothingTaken(
    hunks: seq<Hunk>, taken: seq<bool>, a: seq<Line>, b: seq<Line>, i: nat, j: nat)
    requires |taken| == |hunks| && ScriptFrom(hunks, a, b, i, j)
    ensures (forall k :: 0 <= k < |taken| ==> !taken[k]) ==> TargetFrom(hunks, taken, a, i) == a[i..]
    decreases |hunks|
  {
    hide ScriptFrom, TargetFrom, Before;
    if hunks == [] {
      TargetEnd(taken, a, b, i, j);
    } else {
      var h := hunks[0];
      var p := Before(OldRange(h));
      ScriptStep(hunks, a, b, i, j);
      TargetUnfold(hunks, taken, a, b, i, j);
      NothingTaken(hunks[1..], taken[1..], a, b, After(OldRange(h)), After(NewRange(h)));
      OldLinesAreThere(hunks, a, b, i, j);
      assert a[i..] == a[i..p] + a[p..p + h.oldCount] + a[p + h.oldCount..];
    }
  }

  // How the hunks are classified and placed.

  lemma {:induction false} IntactKept(hunks: seq<Hunk>, taken: seq<bool>, shift: int, r: Range)
    requires |taken| == |hunks|
    ensures Intact(KeepFrom(hunks, taken, shift), r)
       <==> forall k :: 0 <= k < |hunks| && taken[k] ==> Spares(OldRange(hunks[k]), r)
  {
    if hunks != [] {
      var h := hunks[0];
      var shift' := if taken[0] then shift + Growth(h) else shift;
      var rest := KeepFrom(hunks[1..], taken[1..], shift');
      IntactKept(hunks[1..], taken[1..], shift', r);
      if taken[0] {
        var kept := KeepFrom(hunks, taken, shift);
        assert kept[1..] == rest && OldRange(kept[0]) == OldRange(h);
        assert Intact(kept, r) <==> Spares(OldRange(h), r) && Intact(rest, r) by {
          assert forall k :: 0 < k < |kept| ==> kept[k] == rest[k - 1];
          assert forall k :: 0 <= k < |rest| ==> rest[k] == kept[k + 1];
        }
      }
      assert forall k :: 0 < k < |hunks| ==> hunks[k] == hunks[1..][k - 1] && taken[k] == taken[1..][k - 1];
      assert forall k :: 0 <= k < |hunks| - 1 ==> hunks[1..][k] == hunks[k + 1] && taken[1..][k] == taken[k + 1];
    }
  }

  /** An unchanged line lies between any two hunks. */
  lemma {:induction false} HunksApart(hunks: seq<Hunk>, i: int, j: int, k: nat, l: nat)
    requires Ordered(hunks, i, j) && k < l < |hunks|
    ensures After(OldRange(hunks[k])) < Before(OldRange(hunks[l]))
    decreases l
  {
    if k > 0 {
      HunksApart(hunks[1..], After(OldRange(hunks[0])), After(NewRange(hunks[0])), k - 1, l - 1);
    } else if l > 1 {
      HunksApart(hunks[1..], After(OldRange(hunks[0])), After(NewRange(hunks[0])), 0, l - 1);
      OrderedAt(hunks, i, j, 1);
    }
  }

  lemma {:induction false} OrderedAt(hunks: seq<Hunk>, i: int, j: int, k: nat)
    requires Ordered(hunks, i, j) && k < |hunks|
    ensures Numbered(hunks[k]) && i <= Before(OldRange(hunks[k]))
    decreases k
  {
    if k > 0 {
      OrderedAt(hunks[1..], After(OldRange(hunks[0])), After(NewRange(hunks[0])), k - 1);
    }
  }

  lemma ApartSpares(h: Hunk, g: Hunk)
    requires Numbered(h) && Numbered(g)
    requires After(OldRange(h)) < Before(OldRange(g)) || After(OldRange(g)) < Before(OldRange(h))
    ensures Spares(OldRange(h), OldRange(g))
  {
  }

  /** The old lines of a hunk are intact exactly when the target has not taken it. */
  lemma PendingIffNotTaken(hunks: seq<Hunk>, taken: seq<bool>, i: int, j: int, k: nat)
    requires |taken| == |hunks| && k < |hunks| && Ordered(hunks, i, j)
    ensures Intact(ToParent(hunks, taken), OldRange(hunks[k])) <==> !taken[k]
  {
    var r := OldRange(hunks[k]);
    IntactKept(hunks, taken, 0, r);
    assert !Spares(r, r);
    forall l | 0 <= l < |hunks| && l != k ensures Spares(OldRange(hunks[l]), r) {
      OrderedAt(hunks, i, j, k);
      OrderedAt(hunks, i, j, l);
      if l < k { HunksApart(hunks, i, j, l, k); } else { HunksApart(hunks, i, j, k, l); }
      ApartSpares(hunks[l], hunks[k]);
    }
  }

  /** Kept hunks below a place do not move it. */
  lemma {:induction false} KeptBelowDoNotMove(
    hunks: seq<Hunk>, taken: seq<bool>, i: int, j: int, kept: int, line: nat, shift: int)
    requires |taken| == |hunks| && Ordered(hunks, i, j)
    requires hunks != [] ==> line < Before(OldRange(hunks[0]))
    ensures ExactLine(KeepFrom(hunks, taken, kept), line, Old, shift) == Some(line + shift)
    ensures ExactGap(KeepFrom(hunks, taken, kept), line, Old, shift) == line + shift
    decreases |hunks|
  {
    if hunks != [] {
      var h := hunks[0];
      var kept' := if taken[0] then kept + Growth(h) else kept;
      KeptBelowDoNotMove(hunks[1..], taken[1..], After(OldRange(h)), After(NewRange(h)), kept', line, shift);
      assert taken[0] ==> KeepFrom(hunks, taken, kept)[1..] == KeepFrom(hunks[1..], taken[1..], kept');
    }
  }

  /** Where the kept hunks carry the place of a hunk that is not among them. */
  lemma {:induction false} PlacedAt(hunks: seq<Hunk>, taken: seq<bool>, i: int, j: int, k: nat, shift: int)
    requires |taken| == |hunks| && k < |hunks| && !taken[k] && Ordered(hunks, i, j)
    ensures var r := OldRange(hunks[k]);
            var kept := KeepFrom(hunks, taken, shift);
            && (r.count > 0 ==> ExactLine(kept, r.start, Old, shift) == Some(Position(hunks, taken, k, shift) + 1))
            && (r.count == 0 ==> ExactGap(kept, r.start, Old, shift) == Position(hunks, taken, k, shift))
    decreases k
  {
    var h := hunks[0];
    var i', j' := After(OldRange(h)), After(NewRange(h));
    if k == 0 {
      KeptBelowDoNotMove(hunks[1..], taken[1..], i', j', shift, h.oldStart, shift);
    } else {
      var shift' := if taken[0] then shift + Growth(h) else shift;
      PlacedAt(hunks[1..], taken[1..], i', j', k - 1, shift');
      HunksApart(hunks, i, j, 0, k);
      OrderedAt(hunks, i, j, k);
      assert taken[0] ==> KeepFrom(hunks, taken, shift)[1..] == KeepFrom(hunks[1..], taken[1..], shift');
    }
  }

  // What the target holds around one hunk.

  function LinesOf(h: Hunk, taken: bool): seq<Line> { if taken then h.newLines else h.oldLines }

  lemma Regroup<T>(w: seq<T>, x: seq<T>, y: seq<T>, z: seq<T>)
    ensures w + (x + y + z) == (w + x) + y + z
  {
  }

  /** Around hunk `k`, two targets that differ only in having taken it are the same. */
  lemma {:induction false} TargetAround(
    hunks: seq<Hunk>, taken: seq<bool>, t: bool, a: seq<Line>, b: seq<Line>, i: nat, j: nat, k: nat, shift: int)
    returns (above: seq<Line>, below: seq<Line>)
    requires |taken| == |hunks| && k < |hunks| && ScriptFrom(hunks, a, b, i, j)
    ensures |above| == Position(hunks, taken, k, shift) - i - shift
    ensures TargetFrom(hunks, taken, a, i) == above + LinesOf(hunks[k], taken[k]) + below
    ensures TargetFrom(hunks, taken[k := t], a, i) == above + LinesOf(hunks[k], t) + below
    decreases k
  {
    hide ScriptFrom, TargetFrom, Before;
    var h := hunks[0];
    ScriptStep(hunks, a, b, i, j);
    TargetUnfold(hunks, taken, a, b, i, j);
    TargetUnfold(hunks, taken[k := t], a, b, i, j);
    above := a[i..Before(OldRange(h))];
    if k == 0 {
      below := TargetFrom(hunks[1..], taken[1..], a, After(OldRange(h)));
      assert taken[k := t][1..] == taken[1..];
    } else {
      assert taken[k := t][1..] == taken[1..][k - 1 := t];
      var above';
      above', below := TargetAround(hunks[1..], taken[1..], t, a, b, After(OldRange(h)), After(NewRange(h)), k - 1,
                                    if taken[0] then shift + Growth(h) else shift);
      above := above + LinesOf(h, taken[0]);
      Regroup(above, above', LinesOf(hunks[k], taken[k]), below);
      Regroup(above, above', LinesOf(hunks[k], t), below);
      above := above + above';
    }
  }

  /** `count` lines from `line` on replaced by `lines`, which are inserted after `line` when `count` is 0. */
  function Replace(text: seq<Line>, line: nat, count: nat, lines: seq<Line>): seq<Line> {
    var before := if count == 0 then line else line - 1;
    if before < 0 || before + count > |text| then text
    else text[..before] + lines + text[before + count..]
  }

  lemma ReplaceMiddle(above: seq<Line>, lines: seq<Line>, below: seq<Line>, lines': seq<Line>)
    ensures Replace(above + lines + below, StartAfter(|above|, |lines|), |lines|, lines') == above + lines' + below
  {
    var text := above + lines + below;
    assert text[..|above|] == above && text[|above| + |lines|..] == below;
  }

  /** Putting either version of a hunk at its position gives the target that has that version. */
  lemma ReplaceAtPosition(hunks: seq<Hunk>, taken: seq<bool>, parent: seq<Line>, commit: seq<Line>, k: nat, t: bool)
    requires |taken| == |hunks| && k < |hunks| && Script(hunks, parent, commit)
    ensures var count := |LinesOf(hunks[k], taken[k])|;
            && 0 <= Position(hunks, taken, k, 0)
            && Position(hunks, taken, k, 0) + count <= |Target(hunks, taken, parent)|
            && Replace(Target(hunks, taken, parent), StartAfter(Position(hunks, taken, k, 0), count), count, LinesOf(hunks[k], t))
               == Target(hunks, taken[k := t], parent)
  {
    var above, below := TargetAround(hunks, taken, t, parent, commit, 0, 0, k, 0);
    ReplaceMiddle(above, LinesOf(hunks[k], taken[k]), below, LinesOf(hunks[k], t));
  }

  /** A target is no longer than both versions together. */
  lemma {:induction false} TargetSize(hunks: seq<Hunk>, taken: seq<bool>, a: seq<Line>, b: seq<Line>, i: nat, j: nat)
    requires |taken| == |hunks| && ScriptFrom(hunks, a, b, i, j)
    ensures |TargetFrom(hunks, taken, a, i)| <= |a| - i + |b| - j
    decreases |hunks|
  {
    hide ScriptFrom, TargetFrom, Before;
    if hunks == [] {
      TargetEnd(taken, a, b, i, j);
    } else {
      ScriptStep(hunks, a, b, i, j);
      TargetUnfold(hunks, taken, a, b, i, j);
      FrontGap(hunks, a, b, i, j);
      HunkLines(hunks, a, b, i, j);
      TargetSize(hunks[1..], taken[1..], a, b, After(OldRange(hunks[0])), After(NewRange(hunks[0])));
    }
  }

  /** The parent's place of a hunk that is not taken, carried to the target, is where its lines are there. */
  lemma PlaceOfPending(hunks: seq<Hunk>, taken: seq<bool>, parent: seq<Line>, commit: seq<Line>, k: nat)
    requires |taken| == |hunks| && k < |hunks| && Script(hunks, parent, commit) && !taken[k]
    requires |parent| + |commit| < USIZE_MAX
    ensures RangeAt(ToParent(hunks, taken), OldRange(hunks[k])) == StartAfter(Position(hunks, taken, k, 0), hunks[k].oldCount)
    ensures 0 <= Position(hunks, taken, k, 0)
  {
    ScriptIsOrdered(hunks, parent, commit, 0, 0);
    PlacedAt(hunks, taken, 0, 0, k, 0);
    ReplaceAtPosition(hunks, taken, parent, commit, k, true);
    TargetSize(hunks, taken, parent, commit, 0, 0);
    Saturates(ToParent(hunks, taken), hunks[k].oldStart, 0);
    OrderedAt(hunks, 0, 0, k);
  }

  lemma PositionStep(hunks: seq<Hunk>, taken: seq<bool>, k: nat, shift: int)
    requires |taken| == |hunks| && k < |hunks|
    ensures Position(hunks, taken, k, shift)
         == if k == 0 then Before(OldRange(hunks[0])) + shift
            else Position(hunks[1..], taken[1..], k - 1, if taken[0] then shift + Growth(hunks[0]) else shift)
  {
  }

  /** The hunk's place in the target, seen from the suggestion instead of the parent. */
  lemma {:induction false} PositionFromCommit(hunks: seq<Hunk>, taken: seq<bool>, i: int, j: int, k: nat, shift: int)
    requires |taken| == |hunks| && k < |hunks| && Ordered(hunks, i, j)
    ensures Position(Invert(hunks), Complement(taken), k, shift + i - j) == Position(hunks, taken, k, shift)
    decreases k
  {
    hide Before, Position;
    PositionStep(hunks, taken, k, shift);
    PositionStep(Invert(hunks), Complement(taken), k, shift + i - j);
    if k > 0 {
      var h := hunks[0];
      assert Complement(taken)[1..] == Complement(taken[1..]);
      assert Invert(hunks)[1..] == Invert(hunks[1..]);
      PositionFromCommit(hunks[1..], taken[1..], After(OldRange(h)), After(NewRange(h)), k - 1,
                         if taken[0] then shift + Growth(h) else shift);
    }
  }

  /** A taken hunk's new lines are intact on the way from the suggestion, and go to its place in the target. */
  lemma PlaceOfApplied(hunks: seq<Hunk>, taken: seq<bool>, parent: seq<Line>, commit: seq<Line>, k: nat)
    requires |taken| == |hunks| && k < |hunks| && Script(hunks, parent, commit) && taken[k]
    requires |parent| + |commit| < USIZE_MAX
    ensures Intact(ToCommit(hunks, taken), NewRange(hunks[k]))
    ensures RangeAt(ToCommit(hunks, taken), NewRange(hunks[k])) == StartAfter(Position(hunks, taken, k, 0), hunks[k].newCount)
  {
    hide ScriptFrom, Intact, RangeAt, KeepFrom, Position, Ordered;
    var back, rest := Invert(hunks), Complement(taken);
    assert OldRange(back[k]) == NewRange(hunks[k]) && !rest[k];
    assert Script(back, commit, parent) by { InvertIsScript(hunks, parent, commit); }
    assert Intact(ToCommit(hunks, taken), NewRange(hunks[k])) by {
      ScriptIsOrdered(back, commit, parent, 0, 0);
      PendingIffNotTaken(back, rest, 0, 0, k);
    }
    PlaceOfPending(back, rest, commit, parent, k);
    assert Position(back, rest, k, 0) == Position(hunks, taken, k, 0) by {
      ScriptIsOrdered(hunks, parent, commit, 0, 0);
      PositionFromCommit(hunks, taken, 0, 0, k, 0);
    }
  }

  /**
    Partial application is classified exactly: in a target that has taken some of
    the hunks, each of these is applied, each other one is pending, none is stale,
    and each is placed where its lines are.
   */
  lemma PartialApplicationIsClassified(
    hunks: seq<Hunk>, taken: seq<bool>, parent: seq<Line>, commit: seq<Line>, path: string, k: nat)
    requires |taken| == |hunks| && k < |hunks| && Script(hunks, parent, commit)
    requires |parent| + |commit| < USIZE_MAX
    ensures var loc := PlaceHunk(ToParent(hunks, taken), ToCommit(hunks, taken), path, hunks[k]);
            && loc.status == (if taken[k] then Applied else Pending)
            && loc.count == |LinesOf(hunks[k], taken[k])|
            && loc.line == Some(StartAfter(Position(hunks, taken, k, 0), loc.count))
            && loc.path == path && loc.hunk == Some(hunks[k])
  {
    ScriptIsOrdered(hunks, parent, commit, 0, 0);
    OrderedAt(hunks, 0, 0, k);
    PendingIffNotTaken(hunks, taken, 0, 0, k);
    if !taken[k] {
      PlaceOfPending(hunks, taken, parent, commit, k);
    } else {
      PlaceOfApplied(hunks, taken, parent, commit, k);
    }
  }

  lemma {:induction false} PositionAtTheEdges(hunks: seq<Hunk>, taken: seq<bool>, i: int, j: int, k: nat)
    requires |taken| == |hunks| && k < |hunks| && Ordered(hunks, i, j)
    ensures (forall l :: 0 <= l < |taken| ==> !taken[l]) ==> Position(hunks, taken, k, 0) == Before(OldRange(hunks[k]))
    ensures (forall l :: 0 <= l < |taken| ==> taken[l]) ==> Position(hunks, taken, k, j - i) == Before(NewRange(hunks[k]))
    decreases k
  {
    hide Before;
    if k > 0 {
      PositionAtTheEdges(hunks[1..], taken[1..], After(OldRange(hunks[0])), After(NewRange(hunks[0])), k - 1);
    }
  }

  /** With nothing taken every hunk is pending at its old start. */
  lemma NothingApplied(
    hunks: seq<Hunk>, taken: seq<bool>, parent: seq<Line>, commit: seq<Line>, path: string, k: nat)
    requires |taken| == |hunks| && k < |hunks| && Script(hunks, parent, commit) && |parent| + |commit| < USIZE_MAX
    requires forall l :: 0 <= l < |taken| ==> !taken[l]
    ensures PlaceHunk(ToParent(hunks, taken), ToCommit(hunks, taken), path, hunks[k])
         == Location(path, Some(hunks[k].oldStart), hunks[k].oldCount, Pending, Some(hunks[k]))
  {
    hide ScriptFrom, Ordered, Position, ToParent, ToCommit, TargetFrom, Intact;
    DiffsLeadToTarget(hunks, taken, parent, commit);
    ScriptIsOrdered(hunks, parent, commit, 0, 0);
    OrderedAt(hunks, 0, 0, k);
    PartialApplicationIsClassified(hunks, taken, parent, commit, path, k);
    PositionAtTheEdges(hunks, taken, 0, 0, k);
  }

  /** With everything taken every hunk is applied at its new start. */
  lemma EverythingApplied(
    hunks: seq<Hunk>, taken: seq<bool>, parent: seq<Line>, commit: seq<Line>, path: string, k: nat)
    requires |taken| == |hunks| && k < |hunks| && Script(hunks, parent, commit) && |parent| + |commit| < USIZE_MAX
    requires forall l :: 0 <= l < |taken| ==> taken[l]
    ensures PlaceHunk(ToParent(hunks, taken), ToCommit(hunks, taken), path, hunks[k])
         == Location(path, Some(hunks[k].newStart), hunks[k].newCount, Applied, Some(hunks[k]))
  {
    hide ScriptFrom, Ordered, Position, ToParent, ToCommit, TargetFrom, Intact;
    DiffsLeadToTarget(hunks, taken, parent, commit);
    ScriptIsOrdered(hunks, parent, commit, 0, 0);
    OrderedAt(hunks, 0, 0, k);
    PartialApplicationIsClassified(hunks, taken, parent, commit, path, k);
    PositionAtTheEdges(hunks, taken, 0, 0, k);
  }

  /**
    Placement is exact: putting the new lines of a pending hunk where it is placed
    gives the target that has taken it too, and putting the old lines of an applied
    hunk there takes it back.
   */
  lemma PlacementIsExact(
    hunks: seq<Hunk>, taken: seq<bool>, parent: seq<Line>, commit: seq<Line>, path: string, k: nat)
    requires |taken| == |hunks| && k < |hunks| && Script(hunks, parent, commit)
    requires |parent| + |commit| < USIZE_MAX
    ensures var loc := PlaceHunk(ToParent(hunks, taken), ToCommit(hunks, taken), path, hunks[k]);
            var target := Target(hunks, taken, parent);
            && loc.line.Some?
            && Replace(target, loc.line.value, loc.count, if taken[k] then hunks[k].oldLines else hunks[k].newLines)
               == Target(hunks, taken[k := !taken[k]], parent)
  {
    hide PlaceHunk, Script, Target, ToParent, ToCommit;
    PartialApplicationIsClassified(hunks, taken, parent, commit, path, k);
    ReplaceAtPosition(hunks, taken, parent, commit, k, !taken[k]);
  }

  /** Apply the hunks named by `order`, one at a time, each where it is then placed. */
  function ApplyInOrder(
    hunks: seq<Hunk>, taken: seq<bool>, text: seq<Line>, path: string, order: seq<nat>): seq<Line>
    requires |taken| == |hunks| && forall x :: 0 <= x < |order| ==> order[x] < |hunks|
    decreases |order|
  {
    if order == [] then text else
      var k := order[0];
      var loc := PlaceHunk(ToParent(hunks, taken), ToCommit(hunks, taken), path, hunks[k]);
      var next := if loc.line.None? then text else Replace(text, loc.line.value, loc.count, hunks[k].newLines);
      ApplyInOrder(hunks, taken[k := true], next, path, order[1..])
  }

  /**
    Placement is confluent: from any partly applied target, applying the missing
    hunks one at a time, in any order, ends at the suggestion's text.
   */
  lemma {:induction false} ApplyingInAnyOrder(
    hunks: seq<Hunk>, taken: seq<bool>, parent: seq<Line>, commit: seq<Line>, path: string, order: seq<nat>)
    requires |taken| == |hunks| && Script(hunks, parent, commit) && |parent| + |commit| < USIZE_MAX
    requires forall x :: 0 <= x < |order| ==> order[x] < |hunks| && !taken[order[x]]
    requires forall x, y :: 0 <= x < y < |order| ==> order[x] != order[y]
    requires forall k :: 0 <= k < |hunks| && !taken[k] ==> k in order
    ensures ApplyInOrder(hunks, taken, Target(hunks, taken, parent), path, order) == commit
    decreases |order|
  {
    hide PlaceHunk, Script, Target, ToParent, ToCommit, Replace;
    if order == [] {
      DiffsLeadToTarget(hunks, taken, parent, commit);
    } else {
      var k := order[0];
      PartialApplicationIsClassified(hunks, taken, parent, commit, path, k);
      PlacementIsExact(hunks, taken, parent, commit, path, k);
      OthersStayInOrder(hunks, taken, order);
      ApplyingInAnyOrder(hunks, taken[k := true], parent, commit, path, order[1..]);
    }
  }

  lemma OthersStayInOrder(hunks: seq<Hunk>, taken: seq<bool>, order: seq<nat>)
    requires |taken| == |hunks| && order != [] && order[0] < |hunks|
    requires forall k :: 0 <= k < |hunks| && !taken[k] ==> k in order
    ensures forall k :: 0 <= k < |hunks| && !taken[order[0] := true][k] ==> k in order[1..]
  {
    assert order == [order[0]] + order[1..];
  }
}

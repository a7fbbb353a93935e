/** What a request's mounts come to in the sandbox: what is accepted, what is seen, and what can be written to. */
module Sandboxes {
  import opened Wrappers
  import opened MountPlans

  // What is accepted.

  /** `q` is the path that `p` names: itself, or below the home directory if it starts with `~`. */
  predicate Names(home: Option<Path>, p: Path, q: Path) {
    if !p.absolute && |p.components| > 0 && p.components[0] == "~"
    then home.Some? && q.absolute == home.value.absolute && q.components == home.value.components + p.components[1..]
    else q == p
  }

  /** `r` is `m` as it is accepted: at the place it names, from the real path of the source that it names. */
  ghost predicate IsAccepted(home: Option<Path>, canonical: Path -> Option<Path>, m: Mount, r: Mount) {
    && r.destination.absolute
    && (m.Temporary? ==> r.Temporary? && Names(home, m.destination, r.destination))
    && (m.Bind? ==> r.Bind? && r.destination == m.destination && r.access == m.access)
    && (m.Overlay? ==> r.Overlay? && r.destination == m.destination)
    && (!m.Temporary? ==> exists source :: Names(home, m.source, source) && canonical(source) == Some(r.source))
  }

  lemma OneAccepted(home: Option<Path>, canonical: Path -> Option<Path>, m: Mount, before: set<Path>, r: Mount)
    ensures ValidMount(home, canonical, m, before) == Success(r)
       <==> IsAccepted(home, canonical, m, r) && r.destination !in before
  {
    if !m.Temporary? {
      var expanded := ExpandHome(home, m.source);
      if IsAccepted(home, canonical, m, r) {
        var source :| Names(home, m.source, source) && canonical(source) == Some(r.source);
        assert expanded == Success(source);
      }
      if ValidMount(home, canonical, m, before) == Success(r) {
        assert Names(home, m.source, expanded.value);
      }
    }
  }

  /**
    Validation accepts exactly these mounts: one for each that was asked for, in order, at
    the place that it names and from the real path of its source, all at different places.
   */
  lemma {:induction false} AcceptedExactly(
    home: Option<Path>, canonical: Path -> Option<Path>, mounts: seq<Mount>, before: set<Path>, r: seq<Mount>)
    ensures ValidMounts(home, canonical, mounts, before) == Success(r)
       <==> && |r| == |mounts|
            && (forall k :: 0 <= k < |r| ==> IsAccepted(home, canonical, mounts[k], r[k]) && r[k].destination !in before)
            && (forall j, k :: 0 <= j < k < |r| ==> r[j].destination != r[k].destination)
    decreases |mounts|
  {
    hide ValidMount, IsAccepted;
    if mounts != [] && r != [] {
      var rest := r[1..];
      OneAccepted(home, canonical, mounts[0], before, r[0]);
      AcceptedExactly(home, canonical, mounts[1..], before + {r[0].destination}, rest);
      assert forall k :: 1 <= k < |r| ==> r[k] == rest[k - 1];
      assert forall k :: 0 <= k < |rest| ==> rest[k] == r[k + 1];
      assert |r| == |mounts| ==> forall k :: 0 <= k < |rest| ==> mounts[1..][k] == mounts[k + 1];
      assert r == [r[0]] + rest;
      Unique(home, canonical, mounts, before, r);
    }
  }

  lemma Unique(home: Option<Path>, canonical: Path -> Option<Path>, mounts: seq<Mount>, before: set<Path>, r: seq<Mount>)
    requires mounts != [] && r != []
    ensures ValidMounts(home, canonical, mounts, before) == Success(r)
       <==> && ValidMount(home, canonical, mounts[0], before) == Success(r[0])
            && ValidMounts(home, canonical, mounts[1..], before + {r[0].destination}) == Success(r[1..])
  {
    hide ValidMount;
    if ValidMounts(home, canonical, mounts[1..], before + {r[0].destination}) == Success(r[1..]) {
      assert r == [r[0]] + r[1..];
    }
  }

  /** The first of these that is wrong with a mount by itself is what is reported. */
  lemma WhyRefused(home: Option<Path>, canonical: Path -> Option<Path>, m: Mount, before: set<Path>, e: MountError)
    ensures var noPlace := m.Temporary? && forall q :: !Names(home, m.destination, q);
            var noHome := !m.Temporary? && forall q :: !Names(home, m.source, q);
            var at := if m.Temporary? then ExpandHome(home, m.destination) else Success(m.destination);
            ValidMount(home, canonical, m, before) == Failure(e)
            ==> && (e == NoHome <==> noPlace || (noHome && m.destination.absolute && m.destination !in before))
                && (e == NotAbsolute <==> !noPlace && !at.value.absolute)
                && (e == Conflicting <==> !noPlace && at.value.absolute && at.value in before)
  {
    HomeOrNot(home, m.destination);
    if !m.Temporary? { HomeOrNot(home, m.source); }
  }

  lemma HomeOrNot(home: Option<Path>, p: Path)
    ensures (forall q :: !Names(home, p, q)) <==> ExpandHome(home, p).Failure?
    ensures ExpandHome(home, p).Failure? ==> ExpandHome(home, p) == Failure(NoHome)
    ensures ExpandHome(home, p).Success? ==> Names(home, p, ExpandHome(home, p).value)
  {
    if ExpandHome(home, p).Success? {
      assert Names(home, p, ExpandHome(home, p).value);
    } else {
      forall q ensures !Names(home, p, q) { }
    }
  }

  // What is seen.

  /**
    Wherever a mount of the request is seen, it is seen as what was asked for: a bind for
    reading cannot be written to, a bind for writing is one, unless writable binds are
    overlaid; and an overlay is one from its source, or for a file its private copy.
   */
  lemma SeenAsAsked(
    isFile: Path -> bool, copyOf: Path -> Path, mode: WritableMode, mounts: seq<Mount>, p: Path, k: nat)
    requires Validated(mounts) && IsSeen(mounts, k, p)
    ensures var seen, m := SeenAt(Operations(isFile, copyOf, Plan(mode, mounts)), p), mounts[k];
            && (m.Bind? && m.access == ReadOnly ==> seen == Some(RoBind(m.source, m.destination)))
            && (m.Bind? && m.access == ReadWrite && mode == Direct ==> seen == Some(RwBind(m.source, m.destination)))
            && (m.Overlay? || (m.Bind? && m.access == ReadWrite && mode == Overlaid) ==>
                  seen == Some(if isFile(m.source) then RwBind(copyOf(m.destination), m.destination)
                               else TmpOverlay(m.source, m.destination)))
  {
    hide Plan, Operations, SeenAt, Validated, IsSeen;
    SeenIsCovering(mounts, k, p);
    LastMountIsSeen(isFile, copyOf, mode, mounts, p, k);
  }

  lemma SeenIsCovering(mounts: seq<Mount>, k: nat, p: Path)
    requires IsSeen(mounts, k, p)
    ensures k < |mounts| && !mounts[k].Temporary?
  {
  }

  /** So it is for every mount at its own place, when no destination goes up. */
  lemma EachSeenAsAsked(isFile: Path -> bool, copyOf: Path -> Path, mode: WritableMode, mounts: seq<Mount>, k: nat)
    requires Validated(mounts) && NoneGoesUp(mounts) && k < |mounts|
    ensures var seen, m := SeenAt(Operations(isFile, copyOf, Plan(mode, mounts)), mounts[k].destination), mounts[k];
            && (m.Bind? && m.access == ReadOnly ==> seen == Some(RoBind(m.source, m.destination)))
            && (m.Bind? && m.access == ReadWrite && mode == Direct ==> seen == Some(RwBind(m.source, m.destination)))
            && (m.Overlay? || (m.Bind? && m.access == ReadWrite && mode == Overlaid) ==>
                  seen == Some(if isFile(m.source) then RwBind(copyOf(m.destination), m.destination)
                               else TmpOverlay(m.source, m.destination)))
  {
    hide Plan, Operations, SeenAt, Validated, IsSeen, SeenAs, NoneGoesUp, OperationOf;
    if !mounts[k].Temporary? {
      NothingIsHidden(isFile, copyOf, mode, mounts, k);
      LastMountIsSeen(isFile, copyOf, mode, mounts, mounts[k].destination, k);
      assert IsSeen(mounts, k, mounts[k].destination) by {
        SeenAsIs(isFile, copyOf, Mode(mode, mounts[k]), SeenAt(Operations(isFile, copyOf, Plan(mode, mounts)), mounts[k].destination));
      }
      SeenAsAsked(isFile, copyOf, mode, mounts, mounts[k].destination, k);
    }
  }

  lemma SeenAsIs(isFile: Path -> bool, copyOf: Path -> Path, m: Mount, seen: Option<Operation>)
    requires SeenAs(isFile, copyOf, m, seen)
    ensures seen.Some? && OperationOf(isFile, copyOf, m) == [seen.value]
  {
  }

  // What can be written to.

  lemma {:induction false} InOperations(isFile: Path -> bool, copyOf: Path -> Path, mounts: seq<Mount>, o: Operation)
    ensures o in Operations(isFile, copyOf, mounts)
       <==> exists k :: 0 <= k < |mounts| && o in OperationOf(isFile, copyOf, mounts[k])
    decreases |mounts|
  {
    hide OperationOf;
    if mounts != [] {
      var rest := mounts[1..];
      InOperations(isFile, copyOf, rest, o);
      if k :| 0 <= k < |rest| && o in OperationOf(isFile, copyOf, rest[k]) { assert mounts[k + 1] == rest[k]; }
      if k :| 0 <= k < |mounts| && o in OperationOf(isFile, copyOf, mounts[k]) { assert k > 0 ==> rest[k - 1] == mounts[k]; }
    }
  }

  /**
    All that is laid down for writing: the sources of binds that asked for it, when they
    are not overlaid; and private copies of files, for overlays of these, or for binds that
    asked for writing and are overlaid.
   */
  lemma WritableExactly(isFile: Path -> bool, copyOf: Path -> Path, mode: WritableMode, mounts: seq<Mount>, from: Path, at: Path)
    ensures RwBind(from, at) in Operations(isFile, copyOf, Plan(mode, mounts))
       <==> (mode == Direct && Bind(from, at, ReadWrite) in mounts)
            || (exists k :: 0 <= k < |mounts| && !mounts[k].Temporary? && mounts[k].destination == at
                            && isFile(mounts[k].source) && from == copyOf(at)
                            && (mounts[k].Overlay? || (mode == Overlaid && mounts[k].access == ReadWrite)))
  {
    hide Plan, Operations;
    var o := RwBind(from, at);
    InOperations(isFile, copyOf, Plan(mode, mounts), o);
    if k :| 0 <= k < |Plan(mode, mounts)| && o in OperationOf(isFile, copyOf, Plan(mode, mounts)[k]) {
      InPlan(mode, mounts, Plan(mode, mounts)[k]);
    }
    forall k | 0 <= k < |mounts| && o in OperationOf(isFile, copyOf, Mode(mode, mounts[k]))
      ensures o in Operations(isFile, copyOf, Plan(mode, mounts))
    {
      InPlan(mode, mounts, Mode(mode, mounts[k]));
    }
  }

  /** When writable binds are overlaid, no source on the host can be written to, as long as private copies are not sources. */
  lemma OverlaidWritesReachCopiesOnly(isFile: Path -> bool, copyOf: Path -> Path, mounts: seq<Mount>, from: Path, at: Path)
    requires RwBind(from, at) in Operations(isFile, copyOf, Plan(Overlaid, mounts))
    ensures from == copyOf(at)
  {
    hide Plan, Operations;
    WritableExactly(isFile, copyOf, Overlaid, mounts, from, at);
  }
}

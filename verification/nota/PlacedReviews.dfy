/** What placing a review reports for each of its notes and each hunk of its suggestions. */
module PlacedReviews {
  import opened Wrappers
  import opened EditScripts
  import opened DiffText
  import opened Text
  import opened Locate
  import opened NoteSources
  import opened ChangedLines
  import opened PartialApplication
  import opened Trailers
  import opened Repositories
  import opened Reviews
  import opened Placement

  /** The changes that a suggestion makes to its `f`th file. */
  function ChangesOf(own: map<string, seq<Hunk>>, paths: seq<string>, f: nat): seq<Hunk>
    requires f < |paths|
  {
    if paths[f] in own && paths[f] !in paths[..f] then own[paths[f]] else []
  }

  /** How many locations come before those of the `f`th file: one for each hunk, or one for a file without any. */
  function LocationsBefore(own: map<string, seq<Hunk>>, paths: seq<string>, f: nat): nat
    requires f <= |paths|
  {
    if f == 0 then 0
    else LocationsBefore(own, paths, f - 1)
         + (if ChangesOf(own, paths, f - 1) == [] then 1 else |ChangesOf(own, paths, f - 1)|)
  }

  /** What leads from a file of a version to the target's; nothing, if it is the same. */
  function ChangesTo(d: Diffs, revision: string, path: string): seq<Hunk> {
    match d.changed(revision, path) case Some(hunks) => hunks case None => []
  }

  // Which location is whose.

  lemma {:induction false} EachIsPlaced(d: Diffs, entries: seq<ReviewEntry>, i: nat)
    requires SoundEntries(entries) && PlacedOneByOne(d, entries).Some? && i < |entries|
    ensures var placed := PlacedOneByOne(d, entries).value;
            && |placed| == |entries| && placed[i].entry == entries[i]
            && EntryFiles(d, entries[i]).Some?
            && placed[i].locations == LocationsOf(HunksTo(d), entries[i], EntryFiles(d, entries[i]).value)
    decreases |entries|
  {
    hide LocationsOf, EntryFiles, HunksTo;
    if i > 0 {
      EachIsPlaced(d, entries[1..], i - 1);
    } else if |entries| > 1 {
      EachIsPlaced(d, entries[1..], 0);
    }
  }

  function Offset(files: seq<FileDiff>, f: nat): nat
    requires f <= |files|
  {
    if f == 0 then 0 else Offset(files, f - 1) + (if files[f - 1].hunks == [] then 1 else |files[f - 1].hunks|)
  }

  lemma {:induction false} OffsetLater(files: seq<FileDiff>, f: nat)
    requires 1 <= f <= |files|
    ensures Offset(files, f) == Offset(files, 1) + Offset(files[1..], f - 1)
  {
    if f > 1 { OffsetLater(files, f - 1); }
  }

  lemma {:induction false} HowManyLocations(at: (string, string) -> Option<seq<Hunk>>, commit: string, files: seq<FileDiff>)
    ensures |FilesLocations(at, commit, files)| == Offset(files, |files|)
    decreases |files|
  {
    hide FileLocations;
    if files != [] {
      OneFile(at, commit, files);
      HowManyLocations(at, commit, files[1..]);
      OffsetLater(files, |files|);
    }
  }

  lemma {:induction false} LocationsOfFile(
    at: (string, string) -> Option<seq<Hunk>>, commit: string, files: seq<FileDiff>, f: nat, k: nat)
    requires f < |files| && k < |FileLocations(at, commit, files[f])|
    ensures var all := FilesLocations(at, commit, files);
            Offset(files, f) + k < |all| && all[Offset(files, f) + k] == FileLocations(at, commit, files[f])[k]
    decreases |files|
  {
    hide FileLocations;
    if f > 0 {
      OneFile(at, commit, files);
      OffsetLater(files, f);
      LocationsOfFile(at, commit, files[1..], f - 1, k);
    }
  }

  lemma OneFile(at: (string, string) -> Option<seq<Hunk>>, commit: string, files: seq<FileDiff>)
    requires files != []
    ensures |FileLocations(at, commit, files[0])| == Offset(files, 1) >= 1
  {
    assert Offset(files, 0) == 0;
  }

  lemma {:induction false} OffsetsAgree(own: map<string, seq<Hunk>>, paths: seq<string>, f: nat)
    requires f <= |paths|
    ensures |FilesOf(paths, own)| == |paths| && Offset(FilesOf(paths, own), f) == LocationsBefore(own, paths, f)
  {
    hide FilesOf;
    if f > 0 {
      OffsetsAgree(own, paths, f - 1);
      FileOfPath(paths, own, f - 1);
    } else if paths != [] {
      FileOfPath(paths, own, 0);
    } else {
      assert FilesOf([], own) == [] by { NoFiles(own); }
    }
  }

  lemma NoFiles(own: map<string, seq<Hunk>>)
    ensures FilesOf([], own) == []
  {
  }

  /** A suggestion's files are placed in order, and the hunks of each in order. */
  lemma FileIsPlaced(d: Diffs, entries: seq<ReviewEntry>, i: nat, f: nat, k: nat)
    requires SoundEntries(entries) && PlacedOneByOne(d, entries).Some?
    requires i < |entries| && entries[i].kind == Suggestion && f < |entries[i].paths|
    requires var own := d.own(entries[i].commit);
             own.Some? && k < (var n := |ChangesOf(own.value, entries[i].paths, f)|; if n == 0 then 1 else n)
    ensures var placed, e := PlacedOneByOne(d, entries).value, entries[i];
            var own := d.own(e.commit).value;
            && |placed| == |entries| && placed[i].entry == e
            && LocationsBefore(own, e.paths, f) + k < |placed[i].locations| == LocationsBefore(own, e.paths, |e.paths|)
            && placed[i].locations[LocationsBefore(own, e.paths, f) + k]
               == FileLocations(HunksTo(d), e.commit, FileDiff(e.paths[f], ChangesOf(own, e.paths, f)))[k]
  {
    hide HunksTo, FilesOf, FilesLocations, PlacedOneByOne, LocationsBefore, Offset, NotPlaced, HunkLocation, NoteLocation;
    var e := entries[i];
    var own := d.own(e.commit).value;
    EachIsPlaced(d, entries, i);
    var files := FilesOf(e.paths, own);
    FileOfPath(e.paths, own, f);
    OffsetsAgree(own, e.paths, f);
    OffsetsAgree(own, e.paths, |e.paths|);
    LocationsOfFile(HunksTo(d), e.commit, files, f, k);
    HowManyLocations(HunksTo(d), e.commit, files);
    assert e.source.None?;
    assert [] + FilesLocations(HunksTo(d), e.commit, files) == FilesLocations(HunksTo(d), e.commit, files);
  }

  // What is reported.

  /**
    Each hunk of each suggestion, when Git answers with scripts: it is pending if and only
    if the target keeps its original lines, applied if and only if it has only the
    suggested ones, and stale otherwise; and it is placed where those lines are, or where
    its original ones were.
   */
  lemma PlacedSuggestion(
    d: Diffs, entries: seq<ReviewEntry>, i: nat, f: nat, k: nat, parent: seq<Line>, commit: seq<Line>, target: seq<Line>)
    requires SoundEntries(entries) && PlacedOneByOne(d, entries).Some?
    requires i < |entries| && entries[i].kind == Suggestion && f < |entries[i].paths| && d.own(entries[i].commit).Some?
    requires var e := entries[i];
             var path, hunks := e.paths[f], ChangesOf(d.own(e.commit).value, e.paths, f);
             && k < |hunks| && Script(hunks, parent, commit)
             && d.known(e.commit + "^") && Script(ChangesTo(d, e.commit + "^", path), parent, target)
             && d.known(e.commit) && Script(ChangesTo(d, e.commit, path), commit, target)
    ensures var placed, e := PlacedOneByOne(d, entries).value, entries[i];
            var own := d.own(e.commit).value;
            var at, h := LocationsBefore(own, e.paths, f) + k, ChangesOf(own, e.paths, f)[k];
            && |placed| == |entries| && placed[i].entry == e && at < |placed[i].locations|
            && var loc := placed[i].locations[at];
               var toParent, toCommit := ChangesTo(d, e.commit + "^", e.paths[f]), ChangesTo(d, e.commit, e.paths[f]);
               var pending, applied := Survives(toParent, OldRange(h)), Survives(toCommit, NewRange(h));
               && loc.path == e.paths[f] && loc.hunk == Some(h)
               && loc.status == (if pending then Pending else if applied then Applied else Stale)
               && loc.count == (if loc.status == Applied then h.newCount else h.oldCount)
               && loc.line.Some?
               && (loc.status == Pending ==> InText(OldRange(h), parent) && HasLines(target, loc.line.value, parent, OldRange(h)))
               && (loc.status == Applied ==> InText(NewRange(h), commit) && HasLines(target, loc.line.value, commit, NewRange(h)))
               && (loc.status == Pending ==> loc.line.value == LineAt(toParent, h.oldStart, Old))
               && (loc.status == Applied ==> loc.line.value == LineAt(toCommit, h.newStart, Old))
               && (loc.status == Stale ==> loc.line.value == RangeAt(toParent, OldRange(h)))
  {
    hide Script, LineAt, GapAt, Survives, HasLines, PlacedOneByOne, PlaceHunk, LocationsBefore;
    var e := entries[i];
    var hunks := ChangesOf(d.own(e.commit).value, e.paths, f);
    FileIsPlaced(d, entries, i, f, k);
    HunkInText(hunks, parent, commit, k);
    HunkStatus(ChangesTo(d, e.commit + "^", e.paths[f]), ChangesTo(d, e.commit, e.paths[f]), parent, commit, target, e.paths[f], hunks[k]);
  }

  lemma HunkInText(hunks: seq<Hunk>, a: seq<Line>, b: seq<Line>, k: nat)
    requires Script(hunks, a, b) && k < |hunks|
    ensures InText(OldRange(hunks[k]), a) && InText(NewRange(hunks[k]), b)
  {
    HunkFacts(hunks, a, b, 0, 0, k);
  }

  /** In a target that has taken some of a suggestion's hunks, these are applied and the others pending, each at its place. */
  lemma PartlyAppliedSuggestion(
    d: Diffs, entries: seq<ReviewEntry>, i: nat, f: nat, k: nat, parent: seq<Line>, commit: seq<Line>, taken: seq<bool>)
    requires SoundEntries(entries) && PlacedOneByOne(d, entries).Some?
    requires i < |entries| && entries[i].kind == Suggestion && f < |entries[i].paths| && d.own(entries[i].commit).Some?
    requires var e := entries[i];
             var path, hunks := e.paths[f], ChangesOf(d.own(e.commit).value, e.paths, f);
             && k < |hunks| == |taken| && Script(hunks, parent, commit) && |parent| + |commit| < USIZE_MAX
             && d.known(e.commit + "^") && ChangesTo(d, e.commit + "^", path) == ToParent(hunks, taken)
             && d.known(e.commit) && ChangesTo(d, e.commit, path) == ToCommit(hunks, taken)
    ensures var placed, e := PlacedOneByOne(d, entries).value, entries[i];
            var own := d.own(e.commit).value;
            var at, hunks := LocationsBefore(own, e.paths, f) + k, ChangesOf(own, e.paths, f);
            && |placed| == |entries| && placed[i].entry == e && at < |placed[i].locations|
            && var count := if taken[k] then hunks[k].newCount else hunks[k].oldCount;
               placed[i].locations[at]
               == Location(e.paths[f], Some(StartAfter(Position(hunks, taken, k, 0), count)), count,
                           if taken[k] then Applied else Pending, Some(hunks[k]))
  {
    hide ToParent, ToCommit, PlaceHunk, PlacedOneByOne, LocationsBefore, Position, ScriptFrom;
    var e := entries[i];
    var hunks := ChangesOf(d.own(e.commit).value, e.paths, f);
    FileIsPlaced(d, entries, i, f, k);
    PartialApplicationIsClassified(hunks, taken, parent, commit, e.paths[f], k);
    HunkFacts(hunks, parent, commit, 0, 0, k);
  }

  /** A hunk of a suggestion is unknown when Git cannot diff its commit or its parent, and so is a file without hunks. */
  lemma UnknownSuggestion(d: Diffs, entries: seq<ReviewEntry>, i: nat, f: nat, k: nat)
    requires SoundEntries(entries) && PlacedOneByOne(d, entries).Some?
    requires i < |entries| && entries[i].kind == Suggestion && f < |entries[i].paths| && d.own(entries[i].commit).Some?
    requires var e := entries[i];
             var n := |ChangesOf(d.own(e.commit).value, e.paths, f)|;
             if n == 0 then k == 0 else k < n && !(d.known(e.commit + "^") && d.known(e.commit))
    ensures var placed, e := PlacedOneByOne(d, entries).value, entries[i];
            var at := LocationsBefore(d.own(e.commit).value, e.paths, f) + k;
            && |placed| == |entries| && at < |placed[i].locations|
            && placed[i].locations[at] == Location(e.paths[f], None, 0, Unknown, None)
  {
    hide PlaceHunk, PlacedOneByOne, LocationsBefore;
    FileIsPlaced(d, entries, i, f, k);
  }

  /**
    Each note: one without a source has no location; one from a version that Git cannot
    diff is unknown; and any other one, when Git answers with a script, is current if and
    only if its lines are unchanged and stay together, and has those lines then.
   */
  lemma PlacedNote(d: Diffs, entries: seq<ReviewEntry>, i: nat, text: seq<Line>, target: seq<Line>)
    requires SoundEntries(entries) && PlacedOneByOne(d, entries).Some? && i < |entries| && entries[i].kind == Note
    requires entries[i].source.Some? && d.known(entries[i].source.value.revision) ==>
      var source := entries[i].source.value;
      LinesInText(source, text) && Script(ChangesTo(d, source.revision, source.path), text, target)
    ensures var placed, e := PlacedOneByOne(d, entries).value, entries[i];
            && |placed| == |entries| && placed[i].entry == e
            && (e.source.None? ==> placed[i].locations == [])
            && (e.source.Some? ==>
                  var source := e.source.value;
                  |placed[i].locations| == 1
                  && var loc := placed[i].locations[0];
                     if !d.known(source.revision) then loc == Location(source.path, None, 0, Unknown, None)
                     else
                       var hunks := ChangesTo(d, source.revision, source.path);
                       var first, last := LineAt(hunks, source.first, Old), LineAt(hunks, source.last, Old);
                       && loc.path == source.path && loc.hunk == None && loc.count >= 1
                       && loc.line == Some(if first == 0 then 1 else first)
                       && loc.line.value + loc.count - 1 == (if last == 0 then 1 else last)
                       && loc.status == (
                         if (forall line :: source.first <= line <= source.last ==> Unchanged(hunks, line, Old))
                            && (forall line :: source.first <= line < source.last ==> Joined(hunks, line))
                         then Current else Changed)
                       && (loc.status == Current && text != [] ==>
                             SameLinesAt(loc, target, text, source.first, source.last)))
  {
    hide Script, LineAt, GapAt, Unchanged, PlacedOneByOne, FilesLocations;
    var e := entries[i];
    EachIsPlaced(d, entries, i);
    assert FilesLocations(HunksTo(d), e.commit, []) == [] by { NothingPlaced(d, e.commit); }
    if e.source.Some? && d.known(e.source.value.revision) {
      var source := e.source.value;
      NoteStatus(ChangesTo(d, source.revision, source.path), text, target, source);
      PlacedLinesAreThere(ChangesTo(d, source.revision, source.path), text, target, source);
      NoteCoversItsLines(ChangesTo(d, source.revision, source.path), text, target, source, source.first);
    }
  }

  lemma NothingPlaced(d: Diffs, commit: string)
    ensures FilesLocations(HunksTo(d), commit, []) == []
  {
  }

  /** Placing fails if and only if some suggestion's own changes cannot be read. */
  lemma {:induction false} PlacingFails(d: Diffs, entries: seq<ReviewEntry>)
    requires SoundEntries(entries)
    ensures PlacedOneByOne(d, entries).None?
       <==> exists i :: 0 <= i < |entries| && entries[i].kind == Suggestion && d.own(entries[i].commit).None?
    decreases |entries|
  {
    hide LocationsOf, FilesOf;
    if entries != [] {
      var rest := entries[1..];
      PlacingFails(d, rest);
      if i :| 0 <= i < |rest| && rest[i].kind == Suggestion && d.own(rest[i].commit).None? {
        assert entries[i + 1] == rest[i];
      }
      if i :| 0 <= i < |entries| && entries[i].kind == Suggestion && d.own(entries[i].commit).None? {
        assert i > 0 ==> rest[i - 1] == entries[i];
      }
    }
  }
}

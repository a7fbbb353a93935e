/**
  The order in which the mounts of a sandbox are laid down, and what is then seen where.

  A path is what its components are, as it is for Rust's `Path`: that is how destinations
  are told apart and how deep they are. Where a path leads is another matter, since `..`
  goes up: one path lies inside another when what is left of its components, once each
  `..` is undone, starts with what is left of the other's. Links are not followed.
 */
module MountPlans {
  import opened Wrappers
  import opened Sorting

  datatype Path = Path(absolute: bool, components: seq<string>)

  datatype Access = ReadOnly | ReadWrite

  datatype Mount =
    | Bind(source: Path, destination: Path, access: Access)
    | Temporary(destination: Path)
    | Overlay(source: Path, destination: Path)

  datatype WritableMode = Direct | Overlaid

  datatype MountError = NoHome | NotAbsolute | Conflicting | InvalidSource

  // Validation.

  predicate InHome(p: Path) { !p.absolute && p.components != [] && p.components[0] == "~" }

  function ExpandHome(home: Option<Path>, p: Path): Result<Path, MountError> {
    if !InHome(p) then Success(p)
    else if home.None? then Failure(NoHome)
    else Success(Path(home.value.absolute, home.value.components + p.components[1..]))
  }

  /** The directory that a mount source names, if it is there; `canonical` is the file system's answer. */
  function CanonicalSource(home: Option<Path>, canonical: Path -> Option<Path>, p: Path): Result<Path, MountError> {
    match ExpandHome(home, p)
    case Failure(e) => Failure(e)
    case Success(expanded) => match canonical(expanded) case Some(c) => Success(c) case None => Failure(InvalidSource)
  }

  function ExpandedDestination(home: Option<Path>, m: Mount): Result<Path, MountError> {
    if m.Temporary? then ExpandHome(home, m.destination) else Success(m.destination)
  }

  /** One mount of a request, given the destinations before it. */
  function ValidMount(home: Option<Path>, canonical: Path -> Option<Path>, m: Mount, before: set<Path>): Result<Mount, MountError> {
    match ExpandedDestination(home, m)
    case Failure(e) => Failure(e)
    case Success(destination) =>
      if !destination.absolute then Failure(NotAbsolute)
      else if destination in before then Failure(Conflicting)
      else
        match m
        case Temporary(_) => Success(Temporary(destination))
        case Bind(source, _, access) =>
          (match CanonicalSource(home, canonical, source)
           case Failure(e) => Failure(e)
           case Success(s) => Success(Bind(s, destination, access)))
        case Overlay(source, _) =>
          (match CanonicalSource(home, canonical, source)
           case Failure(e) => Failure(e)
           case Success(s) => Success(Overlay(s, destination)))
  }

  function ValidMounts(home: Option<Path>, canonical: Path -> Option<Path>, mounts: seq<Mount>, before: set<Path>)
    : Result<seq<Mount>, MountError>
    decreases |mounts|
  {
    if mounts == [] then Success([]) else
      match ValidMount(home, canonical, mounts[0], before)
      case Failure(e) => Failure(e)
      case Success(m) =>
        match ValidMounts(home, canonical, mounts[1..], before + {m.destination})
        case Failure(e) => Failure(e)
        case Success(rest) => Success([m] + rest)
  }

  /** The mounts accepted so far, followed by what becomes of the rest. */
  function Then(done: seq<Mount>, rest: Result<seq<Mount>, MountError>): Result<seq<Mount>, MountError> {
    match rest case Failure(e) => Failure(e) case Success(mounts) => Success(done + mounts)
  }

  method ValidateMount(home: Option<Path>, canonical: Path -> Option<Path>, mount: Mount, destinations: set<Path>)
    returns (validated: Result<Mount, MountError>)
    ensures validated == ValidMount(home, canonical, mount, destinations)
  {
    hide ExpandHome, CanonicalSource;
    var m := mount;
    if m.Temporary? {
      var expanded := ExpandHome(home, m.destination);
      if expanded.Failure? { return Failure(expanded.error); }
      m := Temporary(expanded.value);
    }
    if !m.destination.absolute { return Failure(NotAbsolute); }
    if m.destination in destinations { return Failure(Conflicting); }
    if !m.Temporary? {
      var source := CanonicalSource(home, canonical, m.source);
      if source.Failure? { return Failure(source.error); }
      m := m.(source := source.value);
    }
    return Success(m);
  }

  method ValidateMounts(home: Option<Path>, canonical: Path -> Option<Path>, mounts: seq<Mount>)
    returns (validated: Result<seq<Mount>, MountError>)
    ensures validated == ValidMounts(home, canonical, mounts, {})
  {
    hide ValidMount;
    var done := [];
    var destinations := {};
    ThenNothing(ValidMounts(home, canonical, mounts, {}));
    for i := 0 to |mounts|
      invariant Then(done, ValidMounts(home, canonical, mounts[i..], destinations)) == ValidMounts(home, canonical, mounts, {})
    {
      assert mounts[i..][1..] == mounts[i + 1..];
      var m := ValidateMount(home, canonical, mounts[i], destinations);
      if m.Failure? { return Failure(m.error); }
      destinations := destinations + {m.value.destination};
      ThenOne(done, m.value, ValidMounts(home, canonical, mounts[i + 1..], destinations));
      done := done + [m.value];
    }
    assert mounts[|mounts|..] == [] && done + [] == done;
    return Success(done);
  }

  lemma ThenNothing(rest: Result<seq<Mount>, MountError>)
    ensures Then([], rest) == rest
  {
    if rest.Success? { assert [] + rest.value == rest.value; }
  }

  lemma ThenOne(done: seq<Mount>, m: Mount, rest: Result<seq<Mount>, MountError>)
    ensures Then(done + [m], rest) == Then(done, Then([m], rest))
  {
    if rest.Success? { assert done + [m] + rest.value == done + ([m] + rest.value); }
  }

  /** Absolute destinations, no two of them the same. */
  ghost predicate Validated(mounts: seq<Mount>) {
    && (forall k :: 0 <= k < |mounts| ==> mounts[k].destination.absolute)
    && (forall j, k :: 0 <= j < k < |mounts| ==> mounts[j].destination != mounts[k].destination)
  }

  lemma {:induction false} ValidationIsSound(
    home: Option<Path>, canonical: Path -> Option<Path>, mounts: seq<Mount>, before: set<Path>)
    ensures var r := ValidMounts(home, canonical, mounts, before);
            r.Success? ==>
              && Validated(r.value) && |r.value| == |mounts|
              && (forall k :: 0 <= k < |mounts| ==>
                    && r.value[k].destination !in before
                    && ExpandedDestination(home, mounts[k]) == Success(r.value[k].destination)
                    && (mounts[k].Bind? <==> r.value[k].Bind?) && (mounts[k].Overlay? <==> r.value[k].Overlay?)
                    && (mounts[k].Bind? ==> r.value[k].access == mounts[k].access)
                    && (!mounts[k].Temporary? ==> CanonicalSource(home, canonical, mounts[k].source) == Success(r.value[k].source)))
    decreases |mounts|
  {
    hide ExpandHome, CanonicalSource;
    if mounts != [] && ValidMount(home, canonical, mounts[0], before).Success? {
      var m := ValidMount(home, canonical, mounts[0], before).value;
      ValidationIsSound(home, canonical, mounts[1..], before + {m.destination});
    }
  }

  /** What a mount needs by itself to be accepted. */
  predicate Acceptable(home: Option<Path>, canonical: Path -> Option<Path>, m: Mount) {
    && ExpandedDestination(home, m).Success? && ExpandedDestination(home, m).value.absolute
    && (!m.Temporary? ==> CanonicalSource(home, canonical, m.source).Success?)
  }

  /** A request is accepted if and only if each mount is acceptable and no two destinations conflict. */
  lemma {:induction false} ValidationIsComplete(
    home: Option<Path>, canonical: Path -> Option<Path>, mounts: seq<Mount>, before: set<Path>)
    ensures ValidMounts(home, canonical, mounts, before).Success? <==>
              && (forall k :: 0 <= k < |mounts| ==>
                    Acceptable(home, canonical, mounts[k]) && ExpandedDestination(home, mounts[k]).value !in before)
              && (forall j, k :: 0 <= j < k < |mounts| ==>
                    ExpandedDestination(home, mounts[j]) != ExpandedDestination(home, mounts[k]))
    decreases |mounts|
  {
    hide ExpandHome, CanonicalSource;
    if mounts != [] {
      var first := ValidMount(home, canonical, mounts[0], before);
      assert first.Success? <==>
        Acceptable(home, canonical, mounts[0]) && ExpandedDestination(home, mounts[0]).value !in before;
      if first.Success? {
        ValidationIsComplete(home, canonical, mounts[1..], before + {first.value.destination});
        var rest := mounts[1..];
        assert forall k :: 1 <= k < |mounts| ==> mounts[k] == rest[k - 1];
      }
    }
  }

  // The plan.

  function Mode(mode: WritableMode, m: Mount): Mount {
    match m
    case Bind(source, destination, ReadWrite) => if mode == Overlaid then Overlay(source, destination) else m
    case _ => m
  }

  function AllInMode(mode: WritableMode, mounts: seq<Mount>): (r: seq<Mount>)
    ensures |r| == |mounts| && forall k :: 0 <= k < |r| ==> r[k] == Mode(mode, mounts[k])
  {
    seq(|mounts|, k requires 0 <= k < |mounts| => Mode(mode, mounts[k]))
  }

  /** The number of components, the root being one. */
  function Depth(p: Path): nat { |p.components| + (if p.absolute then 1 else 0) }

  predicate NoDeeper(a: Mount, b: Mount) { Depth(a.destination) <= Depth(b.destination) }

  /** The mounts in the order in which they are laid down. */
  function Plan(mode: WritableMode, mounts: seq<Mount>): seq<Mount> { Sort(NoDeeper, AllInMode(mode, mounts)) }

  /** The plan rearranges the mounts of the request, and keeps the order of those of one depth. */
  lemma PlanIsStablePermutation(mode: WritableMode, mounts: seq<Mount>, m: Mount)
    ensures multiset(Plan(mode, mounts)) == multiset(AllInMode(mode, mounts))
    ensures Sorted(NoDeeper, Plan(mode, mounts))
    ensures Ties(NoDeeper, m, Plan(mode, mounts)) == Ties(NoDeeper, m, AllInMode(mode, mounts))
  {
    hide Sort;
    SortSorts(NoDeeper, AllInMode(mode, mounts));
    SortKeepsTies(NoDeeper, m, AllInMode(mode, mounts));
  }

  lemma InPlan(mode: WritableMode, mounts: seq<Mount>, m: Mount)
    ensures m in Plan(mode, mounts) <==> exists k :: 0 <= k < |mounts| && m == Mode(mode, mounts[k])
  {
    hide Plan, Mode;
    PlanIsStablePermutation(mode, mounts, m);
    assert m in Plan(mode, mounts) <==> m in multiset(Plan(mode, mounts));
    assert m in AllInMode(mode, mounts) <==> m in multiset(AllInMode(mode, mounts));
  }

  /** When writable mounts are overlaid, nothing of the host is bound for writing. */
  lemma OverlaidPlanBindsNothingForWriting(mounts: seq<Mount>, m: Mount)
    requires m in Plan(Overlaid, mounts)
    ensures !(m.Bind? && m.access == ReadWrite)
    ensures m in mounts || (m.Overlay? && Bind(m.source, m.destination, ReadWrite) in mounts)
  {
    hide Plan;
    InPlan(Overlaid, mounts, m);
  }

  /** When they are not, the plan is the request itself, rearranged. */
  lemma DirectPlanIsTheRequest(mounts: seq<Mount>)
    ensures multiset(Plan(Direct, mounts)) == multiset(mounts)
  {
    hide Sort;
    SortSorts(NoDeeper, AllInMode(Direct, mounts));
    assert AllInMode(Direct, mounts) == mounts;
  }

  lemma PlanIsValidated(mode: WritableMode, mounts: seq<Mount>)
    requires Validated(mounts)
    ensures Validated(Plan(mode, mounts))
  {
    hide Sort, Mode;
    var all, plan := AllInMode(mode, mounts), Plan(mode, mounts);
    ModeKeepsDestinations(mode, mounts);
    SortSorts(NoDeeper, all);
    RearrangedIsDistinct(all, plan);
    forall k | 0 <= k < |plan| ensures plan[k].destination.absolute { assert plan[k] in all; }
    forall j, k | 0 <= j < k < |plan| ensures plan[j].destination != plan[k].destination {
      assert plan[j] in all && plan[k] in all;
    }
  }

  lemma ModeKeepsDestinations(mode: WritableMode, mounts: seq<Mount>)
    requires Validated(mounts)
    ensures Validated(AllInMode(mode, mounts))
  {
    assert forall k :: 0 <= k < |mounts| ==> AllInMode(mode, mounts)[k].destination == mounts[k].destination;
  }

  // Laying the mounts down.

  /** One operation of Bubblewrap. */
  datatype Operation = RoBind(from: Path, at: Path) | RwBind(from: Path, at: Path) | TmpOverlay(from: Path, at: Path)

  /** `isFile` and `copyOf` tell which sources are files, and where the private copy for a destination is. */
  function OperationOf(isFile: Path -> bool, copyOf: Path -> Path, m: Mount): seq<Operation> {
    match m
    case Bind(source, destination, access) =>
      [if access == ReadOnly then RoBind(source, destination) else RwBind(source, destination)]
    case Overlay(source, destination) =>
      if isFile(source) then [RwBind(copyOf(destination), destination)] else [TmpOverlay(source, destination)]
    case Temporary(_) => []
  }

  function Operations(isFile: Path -> bool, copyOf: Path -> Path, mounts: seq<Mount>): seq<Operation>
    decreases |mounts|
  {
    if mounts == [] then [] else
      OperationOf(isFile, copyOf, mounts[0]) + Operations(isFile, copyOf, mounts[1..])
  }

  method AppendMount(isFile: Path -> bool, copyOf: Path -> Path, mount: Mount) returns (arguments: seq<Operation>)
    ensures arguments == OperationOf(isFile, copyOf, mount)
  {
    match mount {
      case Bind(source, destination, access) =>
        return [if access == ReadOnly then RoBind(source, destination) else RwBind(source, destination)];
      case Overlay(source, destination) =>
        if isFile(source) { return [RwBind(copyOf(destination), destination)]; }
        return [TmpOverlay(source, destination)];
      case Temporary(_) => return [];
    }
  }

  method AppendMounts(isFile: Path -> bool, copyOf: Path -> Path, mounts: seq<Mount>) returns (command: seq<Operation>)
    ensures command == Operations(isFile, copyOf, mounts)
  {
    hide OperationOf;
    command := [];
    for i := 0 to |mounts|
      invariant command + Operations(isFile, copyOf, mounts[i..]) == Operations(isFile, copyOf, mounts)
    {
      assert mounts[i..][1..] == mounts[i + 1..];
      var arguments := AppendMount(isFile, copyOf, mounts[i]);
      command := command + arguments;
    }
    assert mounts[|mounts|..] == [] && command + [] == command;
  }

  /** What is left of the components once each `..` has gone up; there is nothing above the root. */
  function Resolved(components: seq<string>): seq<string> {
    if components == [] then [] else
      var front, last := Resolved(components[..|components| - 1]), components[|components| - 1];
      if last != ".." then front + [last] else if front == [] then [] else front[..|front| - 1]
  }

  predicate NeverUp(p: Path) { ".." !in p.components }

  lemma {:induction false} NothingToResolve(components: seq<string>)
    requires ".." !in components
    ensures Resolved(components) == components
  {
    if components != [] {
      NothingToResolve(components[..|components| - 1]);
    }
  }

  /** `p` leads to where `d` does, or inside. */
  predicate Contains(d: Path, p: Path) { d.absolute == p.absolute && Resolved(d.components) <= Resolved(p.components) }

  /** What is seen at `p` once the operations are done in order: each one hides what was there before. */
  function SeenAt(operations: seq<Operation>, p: Path): Option<Operation> {
    if operations == [] then None else
      var last := operations[|operations| - 1];
      if Contains(last.at, p) then Some(last) else SeenAt(operations[..|operations| - 1], p)
  }

  /** The same, told from the mounts: the last bind or overlay around `p`. */
  function LastAround(mounts: seq<Mount>, p: Path): (r: Option<nat>)
    ensures r.Some? ==> r.value < |mounts| && Covering(mounts[r.value], p)
    ensures forall k :: 0 <= k < |mounts| && Covering(mounts[k], p) ==> r.Some? && k <= r.value
  {
    if mounts == [] then None
    else if Covering(mounts[|mounts| - 1], p) then Some(|mounts| - 1)
    else LastAround(mounts[..|mounts| - 1], p)
  }

  /** A mount that is laid down around `p`. */
  predicate Covering(m: Mount, p: Path) { !m.Temporary? && Contains(m.destination, p) }

  lemma {:induction false} OperationsSnoc(isFile: Path -> bool, copyOf: Path -> Path, mounts: seq<Mount>, m: Mount)
    ensures Operations(isFile, copyOf, mounts + [m])
         == Operations(isFile, copyOf, mounts) + OperationOf(isFile, copyOf, m)
    decreases |mounts|
  {
    hide OperationOf;
    if mounts == [] {
      assert (mounts + [m])[1..] == [] && [] + OperationOf(isFile, copyOf, m) == OperationOf(isFile, copyOf, m) + [];
    } else {
      assert (mounts + [m])[1..] == mounts[1..] + [m];
      OperationsSnoc(isFile, copyOf, mounts[1..], m);
    }
  }

  lemma OneOperation(isFile: Path -> bool, copyOf: Path -> Path, m: Mount)
    ensures var operations := OperationOf(isFile, copyOf, m);
            |operations| == (if m.Temporary? then 0 else 1) && (!m.Temporary? ==> operations[0].at == m.destination)
  {
  }

  /** What is seen is the operation of the last mount around. */
  lemma {:induction false} SeenIsLast(isFile: Path -> bool, copyOf: Path -> Path, mounts: seq<Mount>, p: Path)
    ensures var seen, last := SeenAt(Operations(isFile, copyOf, mounts), p), LastAround(mounts, p);
            && (seen.None? <==> last.None?)
            && (seen.Some? ==> OperationOf(isFile, copyOf, mounts[last.value]) == [seen.value])
    decreases |mounts|
  {
    hide OperationOf, Contains;
    if mounts != [] {
      var front, m := mounts[..|mounts| - 1], mounts[|mounts| - 1];
      assert mounts == front + [m];
      SeenIsLast(isFile, copyOf, front, p);
      OperationsSnoc(isFile, copyOf, front, m);
      OneOperation(isFile, copyOf, m);
      var before, all := Operations(isFile, copyOf, front), Operations(isFile, copyOf, mounts);
      if m.Temporary? {
        assert all == before;
      } else {
        assert all[..|all| - 1] == before;
      }
    }
  }

  /** Of two mounts of a request, the `j`th is laid down before the `k`th. */
  predicate LaidBefore(mounts: seq<Mount>, j: nat, k: nat)
    requires j < |mounts| && k < |mounts|
  {
    var d, e := Depth(mounts[j].destination), Depth(mounts[k].destination);
    d < e || (d == e && j < k)
  }

  lemma InDepthOrder(mode: WritableMode, mounts: seq<Mount>, j: nat, k: nat)
    requires Validated(mounts) && j < |mounts| && k < |mounts|
    requires Precedes(Plan(mode, mounts), Mode(mode, mounts[j]), Mode(mode, mounts[k]))
    ensures LaidBefore(mounts, j, k)
  {
    hide Sort, Validated;
    var all, plan := AllInMode(mode, mounts), Plan(mode, mounts);
    SortSorts(NoDeeper, all);
    var a, b :| 0 <= a < b < |plan| && plan[a] == all[j] && plan[b] == all[k];
    assert NoDeeper(plan[a], plan[b]);
    ModeKeepsDestinations(mode, mounts);
    ValidatedAreDistinct(all);
    if NoDeeper(all[k], all[j]) {
      StableOrder(NoDeeper, all, j, k);
    }
  }

  lemma ValidatedAreDistinct(mounts: seq<Mount>)
    requires Validated(mounts)
    ensures Distinct(mounts)
  {
  }

  /** The mount of the request that is around `p` and after which no other one around `p` is laid down. */
  ghost predicate IsSeen(mounts: seq<Mount>, k: nat, p: Path) {
    && k < |mounts| && Covering(mounts[k], p)
    && forall j :: 0 <= j < |mounts| && j != k && Covering(mounts[j], p) ==> LaidBefore(mounts, j, k)
  }

  lemma ModeCovers(mode: WritableMode, m: Mount, p: Path)
    ensures Covering(Mode(mode, m), p) <==> Covering(m, p)
  {
  }

  /** The last mount of the plan around `p` is the one that the request lets be seen there. */
  lemma LastInPlan(mode: WritableMode, mounts: seq<Mount>, p: Path, k: nat)
    requires Validated(mounts) && k < |mounts|
    requires LastAround(Plan(mode, mounts), p).Some?
    requires Plan(mode, mounts)[LastAround(Plan(mode, mounts), p).value] == Mode(mode, mounts[k])
    ensures IsSeen(mounts, k, p)
  {
    hide Plan, Covering, LaidBefore, Mode, LastAround;
    var plan := Plan(mode, mounts);
    var last := LastAround(plan, p).value;
    ModeCovers(mode, mounts[k], p);
    forall j | 0 <= j < |mounts| && j != k && Covering(mounts[j], p) ensures LaidBefore(mounts, j, k) {
      ModeCovers(mode, mounts[j], p);
      InPlan(mode, mounts, Mode(mode, mounts[j]));
      var i :| 0 <= i < |plan| && plan[i] == Mode(mode, mounts[j]);
      assert i <= last;
      ModesDiffer(mode, mounts, j, k);
      assert plan[i] != plan[last];
      assert Precedes(plan, plan[i], plan[last]);
      InDepthOrder(mode, mounts, j, k);
    }
  }

  lemma ModesDiffer(mode: WritableMode, mounts: seq<Mount>, j: nat, k: nat)
    requires Validated(mounts) && j < |mounts| && k < |mounts| && j != k
    ensures Mode(mode, mounts[j]) != Mode(mode, mounts[k])
  {
    assert Mode(mode, mounts[j]).destination == mounts[j].destination;
    assert Mode(mode, mounts[k]).destination == mounts[k].destination;
  }

  lemma PlannedIsRequested(mode: WritableMode, mounts: seq<Mount>, i: nat) returns (k: nat)
    requires i < |Plan(mode, mounts)|
    ensures k < |mounts| && Plan(mode, mounts)[i] == Mode(mode, mounts[k])
  {
    hide Plan, Mode;
    var m := Plan(mode, mounts)[i];
    InPlan(mode, mounts, m);
    k :| 0 <= k < |mounts| && m == Mode(mode, mounts[k]);
  }

  lemma SeenOnlyOne(mounts: seq<Mount>, j: nat, k: nat, p: Path)
    requires IsSeen(mounts, j, p) && IsSeen(mounts, k, p)
    ensures j == k
  {
    hide Covering, Depth;
  }

  /**
    What doing the operations in order shows at any path, wherever `..` leads: nothing,
    if no bind or overlay is around it, and otherwise the one after which no other one
    around it is laid down, the deepest as written and, at one depth, the last of the
    request.
   */
  lemma LastMountIsSeen(
    isFile: Path -> bool, copyOf: Path -> Path, mode: WritableMode, mounts: seq<Mount>, p: Path, k: nat)
    requires Validated(mounts) && k < |mounts|
    ensures var seen := SeenAt(Operations(isFile, copyOf, Plan(mode, mounts)), p);
            && (seen.None? <==> forall j :: 0 <= j < |mounts| ==> !Covering(mounts[j], p))
            && (seen.Some? && OperationOf(isFile, copyOf, Mode(mode, mounts[k])) == [seen.value] <==> IsSeen(mounts, k, p))
  {
    hide Plan, Operations, SeenAt, OperationOf, Covering, LaidBefore, Mode, Validated, LastAround;
    var plan := Plan(mode, mounts);
    SeenIsLast(isFile, copyOf, plan, p);
    forall j | 0 <= j < |mounts| && Covering(mounts[j], p) ensures LastAround(plan, p).Some? {
      ModeCovers(mode, mounts[j], p);
      InPlan(mode, mounts, Mode(mode, mounts[j]));
    }
    if LastAround(plan, p).Some? {
      var last := LastAround(plan, p).value;
      var i := PlannedIsRequested(mode, mounts, last);
      LastInPlan(mode, mounts, p, i);
      if IsSeen(mounts, k, p) {
        SeenOnlyOne(mounts, i, k, p);
      }
      var seen := SeenAt(Operations(isFile, copyOf, plan), p).value;
      if OperationOf(isFile, copyOf, Mode(mode, mounts[k])) == [seen] {
        SameOperationSameMount(isFile, copyOf, mode, mounts, i, k, seen);
      }
    }
  }

  lemma SameOperationSameMount(
    isFile: Path -> bool, copyOf: Path -> Path, mode: WritableMode, mounts: seq<Mount>, i: nat, k: nat, o: Operation)
    requires Validated(mounts) && i < |mounts| && k < |mounts|
    requires OperationOf(isFile, copyOf, Mode(mode, mounts[i])) == [o] == OperationOf(isFile, copyOf, Mode(mode, mounts[k]))
    ensures i == k
  {
    hide OperationOf;
    OneOperation(isFile, copyOf, Mode(mode, mounts[i]));
    OneOperation(isFile, copyOf, Mode(mode, mounts[k]));
    assert mounts[i].destination == mounts[k].destination;
  }

  /** What a bind or overlay that was asked for is seen as, if it is seen. */
  predicate SeenAs(isFile: Path -> bool, copyOf: Path -> Path, m: Mount, seen: Option<Operation>) {
    seen.Some? && OperationOf(isFile, copyOf, m) == [seen.value]
  }

  /**
    A bind or overlay is hidden at its own destination if and only if another one leads
    to the same place or to one around it, and is deeper as written, or as deep and later
    in the request.
   */
  lemma HiddenExactlyWhen(
    isFile: Path -> bool, copyOf: Path -> Path, mode: WritableMode, mounts: seq<Mount>, k: nat)
    requires Validated(mounts) && k < |mounts| && !mounts[k].Temporary?
    ensures var here := mounts[k].destination;
            !SeenAs(isFile, copyOf, Mode(mode, mounts[k]), SeenAt(Operations(isFile, copyOf, Plan(mode, mounts)), here))
            <==> exists j :: 0 <= j < |mounts| && j != k && Covering(mounts[j], here) && LaidBefore(mounts, k, j)
  {
    hide Plan, Operations, SeenAt, OperationOf, Mode, Validated;
    LastMountIsSeen(isFile, copyOf, mode, mounts, mounts[k].destination, k);
    assert Covering(mounts[k], mounts[k].destination);
  }

  /** Two binds that validation accepts, for one place: the second hides the first. */
  lemma UpwardDestinationHides(
    home: Option<Path>, canonical: Path -> Option<Path>, isFile: Path -> bool, copyOf: Path -> Path, source: Path, mounts: seq<Mount>)
    requires source.absolute && canonical(source).Some?
    requires mounts == [Bind(source, Path(true, ["b"]), ReadOnly), Bind(source, Path(true, ["a", "..", "b"]), ReadWrite)]
    ensures ValidMounts(home, canonical, mounts, {}).Success? && Validated(mounts)
    ensures SeenAt(Operations(isFile, copyOf, Plan(Direct, mounts)), Path(true, ["b"]))
         == Some(RwBind(source, Path(true, ["a", "..", "b"])))
  {
    hide Plan, Operations, SeenAt, Resolved, ValidMounts;
    UpAndDown();
    ValidationIsComplete(home, canonical, mounts, {});
    LastMountIsSeen(isFile, copyOf, Direct, mounts, Path(true, ["b"]), 1);
    assert IsSeen(mounts, 1, Path(true, ["b"]));
  }

  lemma UpAndDown()
    ensures Resolved(["b"]) == ["b"] && Resolved(["a", "..", "b"]) == ["b"]
  {
    assert "a" != ".." && "b" != "..";
    NothingToResolve(["b"]);
    NothingToResolve(["a"]);
    assert ["a", "..", "b"][..2] == ["a", ".."] && ["a", ".."][..1] == ["a"];
    assert Resolved(["a", ".."]) == [];
  }

  /** No destination goes up. */
  predicate NoneGoesUp(mounts: seq<Mount>) {
    forall k :: 0 <= k < |mounts| && !mounts[k].Temporary? ==> NeverUp(mounts[k].destination)
  }

  /** Of two destinations around one path, neither of which goes up, one is deeper. */
  lemma AroundOnePath(d: Path, e: Path, p: Path)
    requires NeverUp(d) && NeverUp(e) && Contains(d, p) && Contains(e, p) && d != e
    ensures Depth(d) != Depth(e)
  {
    NothingToResolve(d.components);
    NothingToResolve(e.components);
    var r := Resolved(p.components);
    assert d.components == r[..|d.components|] && e.components == r[..|e.components|];
  }

  /**
    When no destination goes up, every path shows the bind or overlay with the deepest
    destination around it, if there is one.
   */
  lemma DeepestMountIsSeen(
    isFile: Path -> bool, copyOf: Path -> Path, mode: WritableMode, mounts: seq<Mount>, p: Path, k: nat)
    requires Validated(mounts) && NoneGoesUp(mounts) && k < |mounts|
    ensures var seen := SeenAt(Operations(isFile, copyOf, Plan(mode, mounts)), p);
            && (seen.None? <==> forall j :: 0 <= j < |mounts| ==> !Covering(mounts[j], p))
            && (SeenAs(isFile, copyOf, Mode(mode, mounts[k]), seen) <==>
                  && Covering(mounts[k], p)
                  && forall j :: 0 <= j < |mounts| && j != k && Covering(mounts[j], p) ==>
                       Depth(mounts[j].destination) < Depth(mounts[k].destination))
  {
    hide Plan, Operations, SeenAt, OperationOf, Mode, Contains, Depth;
    LastMountIsSeen(isFile, copyOf, mode, mounts, p, k);
    forall j | 0 <= j < |mounts| && j != k && Covering(mounts[j], p) && Covering(mounts[k], p)
      ensures Depth(mounts[j].destination) != Depth(mounts[k].destination)
    {
      AroundOnePath(mounts[j].destination, mounts[k].destination, p);
    }
  }

  lemma DeeperInside(d: Path, p: Path)
    requires NeverUp(d) && NeverUp(p) && Contains(d, p)
    ensures Depth(d) <= Depth(p)
  {
    NothingToResolve(d.components);
    NothingToResolve(p.components);
  }

  lemma ContainsItself(p: Path)
    ensures Contains(p, p)
  {
  }

  /** When no destination goes up, every bind and overlay that was asked for is seen at its own destination. */
  lemma NothingIsHidden(
    isFile: Path -> bool, copyOf: Path -> Path, mode: WritableMode, mounts: seq<Mount>, k: nat)
    requires Validated(mounts) && NoneGoesUp(mounts) && k < |mounts| && !mounts[k].Temporary?
    ensures SeenAs(isFile, copyOf, Mode(mode, mounts[k]),
                   SeenAt(Operations(isFile, copyOf, Plan(mode, mounts)), mounts[k].destination))
  {
    hide Plan, Operations, SeenAt, OperationOf, Mode, Contains, Depth, NeverUp;
    var here := mounts[k].destination;
    DeepestMountIsSeen(isFile, copyOf, mode, mounts, here, k);
    ContainsItself(here);
    forall j | 0 <= j < |mounts| && j != k && Covering(mounts[j], here)
      ensures Depth(mounts[j].destination) < Depth(here)
    {
      DeeperInside(mounts[j].destination, here);
      AroundOnePath(mounts[j].destination, here, here);
    }
  }
}

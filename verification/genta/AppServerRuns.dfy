/** The client of the Codex app-server, when several threads use it at once. */
module AppServerRuns {
  import opened Wrappers
  import opened AppServers

  /** A message as it was submitted, and whether the thread was known then. */
  datatype Submission = Submission(text: string, model: Option<string>, effort: Option<string>, known: bool)

  /**
    The shared state, with the queue that a thread has taken out and is sending, all that
    was submitted, and all requests made, in the order of their locked sections. The last
    three fields tell by their numbers which submissions were sent, are about to be sent,
    and are queued.
   */
  datatype World = World(
    s: State, flushing: seq<string>, submitted: seq<Submission>, actions: seq<Action>,
    sent: seq<nat>, waiting: seq<nat>, queued: seq<nat>)

  function Start(cwd: string): World { World(Fresh(cwd), [], [], [], [], [], []) }

  datatype Occurrence =
    | Submit(text: string, model: Option<string>, effort: Option<string>)
    | Open(thread: string)
    | Flush
    | Ask
    | Turn(turn: Option<string>)
    | Move(cwd: string)

  function Submitting(w: World, text: string, model: Option<string>, effort: Option<string>): World {
    var (s', actions) := Sent(w.s, text, model, effort);
    var n, known := |w.submitted|, w.s.threadId.Some?;
    World(s', w.flushing, w.submitted + [Submission(text, model, effort, known)], w.actions + actions,
          if known then w.sent + [n] else w.sent, w.waiting, if known then w.queued else w.queued + [n])
  }

  function Flushed1(w: World): World
    requires w.flushing != []
  {
    var (s', actions) := Sent(w.s, w.flushing[0], None, None);
    World(s', w.flushing[1..], w.submitted, w.actions + actions,
          if w.waiting == [] then w.sent else w.sent + [w.waiting[0]],
          if w.waiting == [] then [] else w.waiting[1..], w.queued)
  }

  function OpenedBy(w: World, thread: string): World {
    match Opened(w.s, thread)
    case (s', None) => w.(s := s')
    case (s', Some(texts)) => w.(s := s', flushing := w.flushing + texts, waiting := w.waiting + w.queued, queued := [])
  }

  function Asked(w: World): World {
    match Interrupted(w.s)
    case (s', Success(actions)) => w.(s := s', actions := w.actions + actions)
    case (s', Failure(_)) => w.(s := s')
  }

  ghost predicate Step(w: World, e: Occurrence, w': World) {
    match e
    case Submit(text, model, effort) => w' == Submitting(w, text, model, effort)
    case Open(thread) => w' == OpenedBy(w, thread)
    case Flush => w.flushing != [] && w' == Flushed1(w)
    case Ask => w' == Asked(w)
    case Turn(turn) => w' == w.(s := w.s.(activeTurnId := turn))
    case Move(cwd) => w' == w.(s := w.s.(cwd := cwd))
  }

  ghost predicate Run(worlds: seq<World>, events: seq<Occurrence>) {
    && |worlds| == |events| + 1
    && forall i :: 0 <= i < |events| ==> Step(worlds[i], events[i], worlds[i + 1])
  }

  // What a turn carries.

  /** A turn as it was started. */
  datatype StartedTurn = StartedTurn(text: string, model: Option<string>, effort: Option<string>)

  function TurnsOf(a: Action): seq<StartedTurn> {
    match a case Send(TurnStart(_, _, text, _, model, effort)) => [StartedTurn(text, model, effort)] case _ => []
  }

  /** The turns started, in order. */
  function Turns(actions: seq<Action>): seq<StartedTurn> {
    if actions == [] then [] else Turns(actions[..|actions| - 1]) + TurnsOf(actions[|actions| - 1])
  }

  function Texts(submitted: seq<Submission>): (r: seq<string>)
    ensures |r| == |submitted| && forall k :: 0 <= k < |r| ==> r[k] == submitted[k].text
  {
    seq(|submitted|, k requires 0 <= k < |submitted| => submitted[k].text)
  }

  lemma {:induction false} TurnsHaveTexts(actions: seq<Action>)
    ensures |TurnTexts(actions)| == |Turns(actions)|
    ensures forall k :: 0 <= k < |Turns(actions)| ==> TurnTexts(actions)[k] == Turns(actions)[k].text
  {
    if actions != [] {
      TurnsHaveTexts(actions[..|actions| - 1]);
    }
  }

  lemma TurnsSnoc(actions: seq<Action>, a: Action)
    ensures Turns(actions + [a]) == Turns(actions) + TurnsOf(a)
  {
    assert (actions + [a])[..|actions|] == actions;
  }

  // The numbers of the submissions.

  function Upto(n: nat): (r: seq<nat>)
    ensures |r| == n && forall k :: 0 <= k < n ==> r[k] == k
  {
    seq(n, k => k)
  }

  lemma UptoNext(n: nat)
    ensures Upto(n + 1) == Upto(n) + [n]
  {
  }

  /** The submissions in the order in which they are sent, or will be if nothing else is submitted. */
  function Order(w: World): seq<nat> { w.sent + w.waiting + w.queued }

  /** The texts belong to the submissions numbered, which were all made before the thread was known. */
  predicate Numbered(numbers: seq<nat>, texts: seq<string>, submitted: seq<Submission>) {
    && |numbers| == |texts|
    && forall k :: 0 <= k < |numbers| ==>
         numbers[k] < |submitted| && submitted[numbers[k]].text == texts[k] && !submitted[numbers[k]].known
  }

  /** What a submission's turn carries. */
  function Carried(m: Submission): StartedTurn {
    if m.known then StartedTurn(m.text, m.model, m.effort) else StartedTurn(m.text, None, None)
  }

  predicate NumberedTurns(numbers: seq<nat>, turns: seq<StartedTurn>, submitted: seq<Submission>) {
    && |numbers| == |turns|
    && forall k :: 0 <= k < |numbers| ==> numbers[k] < |submitted| && turns[k] == Carried(submitted[numbers[k]])
  }

  ghost predicate Tagged(w: World) {
    && NumberedTurns(w.sent, Turns(w.actions), w.submitted)
    && Numbered(w.waiting, w.flushing, w.submitted)
    && Numbered(w.queued, w.s.pending, w.submitted)
    && multiset(Order(w)) == multiset(Upto(|w.submitted|))
  }

  /** Every turn was started on the thread that is known. */
  ghost predicate OnOneThread(w: World) {
    forall k :: 0 <= k < |w.actions| && w.actions[k].Send? && w.actions[k].request.TurnStart? ==>
      Some(w.actions[k].request.threadId) == w.s.threadId
  }

  ghost predicate Inv(w: World) {
    && Ok(w.s) && (w.flushing != [] ==> w.s.ready)
    && Counts(Ids(w.actions), THREAD_START_ID + 1, w.s.nextRequestId)
    && OnOneThread(w) && Tagged(w)
  }

  // Each kind of step keeps the invariant.

  lemma NumberedMore(numbers: seq<nat>, texts: seq<string>, submitted: seq<Submission>, m: Submission)
    requires Numbered(numbers, texts, submitted)
    ensures Numbered(numbers, texts, submitted + [m])
    ensures !m.known ==> Numbered(numbers + [|submitted|], texts + [m.text], submitted + [m])
  {
  }

  lemma TurnsMore(numbers: seq<nat>, turns: seq<StartedTurn>, submitted: seq<Submission>, m: Submission)
    requires NumberedTurns(numbers, turns, submitted)
    ensures NumberedTurns(numbers, turns, submitted + [m])
    ensures NumberedTurns(numbers + [|submitted|], turns + [Carried(m)], submitted + [m])
  {
    hide Carried;
  }

  lemma OrderCounts(sent: seq<nat>, waiting: seq<nat>, queued: seq<nat>, n: nat)
    requires multiset(sent + waiting + queued) == multiset(Upto(n))
    ensures multiset(sent + [n] + waiting + queued) == multiset(Upto(n + 1))
    ensures multiset(sent + waiting + (queued + [n])) == multiset(Upto(n + 1))
  {
    hide Upto;
    UptoNext(n);
  }

  lemma SubmitTags(w: World, text: string, model: Option<string>, effort: Option<string>)
    requires Ok(w.s) && Tagged(w)
    ensures Tagged(Submitting(w, text, model, effort))
  {
    hide Numbered, NumberedTurns, Turns, Upto, Ok, Order;
    var m := Submission(text, model, effort, w.s.threadId.Some?);
    NumberedMore(w.waiting, w.flushing, w.submitted, m);
    NumberedMore(w.queued, w.s.pending, w.submitted, m);
    SubmitCounts(w, text, model, effort);
    SubmitStarts(w, text, model, effort);
  }

  lemma SubmitCounts(w: World, text: string, model: Option<string>, effort: Option<string>)
    requires multiset(Order(w)) == multiset(Upto(|w.submitted|))
    ensures var w' := Submitting(w, text, model, effort); multiset(Order(w')) == multiset(Upto(|w'.submitted|))
  {
    hide Upto;
    OrderCounts(w.sent, w.waiting, w.queued, |w.submitted|);
  }

  /** A submission starts its own turn, or none. */
  lemma SubmitStarts(w: World, text: string, model: Option<string>, effort: Option<string>)
    requires NumberedTurns(w.sent, Turns(w.actions), w.submitted)
    ensures var w' := Submitting(w, text, model, effort); NumberedTurns(w'.sent, Turns(w'.actions), w'.submitted)
  {
    hide NumberedTurns, Turns;
    var m := Submission(text, model, effort, w.s.threadId.Some?);
    TurnsSnoc(w.actions, Sent(w.s, text, model, effort).1[0]);
    assert Turns(w.actions) + [] == Turns(w.actions);
    TurnsMore(w.sent, Turns(w.actions), w.submitted, m);
  }

  lemma FlushTags(w: World)
    requires Ok(w.s) && Tagged(w) && w.flushing != [] && w.s.ready
    ensures Tagged(Flushed1(w)) && Order(Flushed1(w)) == Order(w)
  {
    hide Turns, Upto, Numbered, NumberedTurns, Carried, Order;
    var w' := Flushed1(w);
    var a := Sent(w.s, w.flushing[0], None, None).1[0];
    assert w'.actions == w.actions + [a];
    TurnsSnoc(w.actions, a);
    FirstWaiting(w.waiting, w.flushing, w.sent, Turns(w.actions), w.submitted);
    SameOrder(w);
  }

  lemma FirstWaiting(
    waiting: seq<nat>, flushing: seq<string>, sent: seq<nat>, turns: seq<StartedTurn>, submitted: seq<Submission>)
    requires Numbered(waiting, flushing, submitted) && flushing != [] && NumberedTurns(sent, turns, submitted)
    ensures waiting != [] && Numbered(waiting[1..], flushing[1..], submitted)
    ensures NumberedTurns(sent + [waiting[0]], turns + [StartedTurn(flushing[0], None, None)], submitted)
  {
    assert Carried(submitted[waiting[0]]) == StartedTurn(flushing[0], None, None);
  }

  lemma SameOrder(w: World)
    requires w.flushing != [] && w.waiting != []
    ensures Order(Flushed1(w)) == Order(w)
  {
    assert w.waiting == [w.waiting[0]] + w.waiting[1..];
  }

  lemma OpenTags(w: World, thread: string)
    requires Tagged(w)
    ensures Tagged(OpenedBy(w, thread)) && Order(OpenedBy(w, thread)) == Order(w)
  {
    hide Turns, Upto;
    var w' := OpenedBy(w, thread);
    assert Order(w') == Order(w);
  }

  lemma AskTags(w: World)
    requires Tagged(w)
    ensures Tagged(Asked(w)) && Order(Asked(w)) == Order(w)
  {
    hide Turns, Upto;
    var r := Interrupted(w.s).1;
    if r.Success? {
      TurnsSnoc(w.actions, r.value[0]);
      assert Turns(w.actions) + [] == Turns(w.actions);
    }
  }

  lemma NextIds(ids: seq<int>, more: seq<int>, next: int, next': int)
    requires Counts(ids, THREAD_START_ID + 1, next) && Counts(more, next, next')
    ensures Counts(ids + more, THREAD_START_ID + 1, next')
  {
  }

  lemma TurnsStayOnThread(w: World, w': World)
    requires OnOneThread(w) && w'.s.threadId == w.s.threadId && w.actions <= w'.actions && |w'.actions| <= |w.actions| + 1
    requires |w'.actions| > |w.actions| ==>
      (var a := w'.actions[|w.actions|]; a.Send? && a.request.TurnStart? ==> Some(a.request.threadId) == w.s.threadId)
    ensures OnOneThread(w')
  {
  }

  /** A locked section that sends or queues a text keeps the state in order. */
  lemma SentKeeps(w: World, text: string, model: Option<string>, effort: Option<string>, w': World)
    requires Ok(w.s) && Counts(Ids(w.actions), THREAD_START_ID + 1, w.s.nextRequestId) && OnOneThread(w)
    requires (w'.s, w'.actions)
          == (Sent(w.s, text, model, effort).0, w.actions + Sent(w.s, text, model, effort).1)
    ensures Ok(w'.s) && w'.s.ready == w.s.ready && w'.s.threadId == w.s.threadId
    ensures Counts(Ids(w'.actions), THREAD_START_ID + 1, w'.s.nextRequestId) && OnOneThread(w')
  {
    hide Ids, TurnTexts, Counts, OnOneThread;
    var (s', actions) := Sent(w.s, text, model, effort);
    SendDelivers(w.s, text, model, effort);
    TextsAndIdsAppend(w.actions, actions);
    NextIds(Ids(w.actions), Ids(actions), w.s.nextRequestId, s'.nextRequestId);
    TurnsStayOnThread(w, w');
  }

  lemma AskKeeps(w: World)
    requires Inv(w)
    ensures Inv(Asked(w)) && Asked(w).s.ready == w.s.ready && Asked(w).s.threadId == w.s.threadId
  {
    hide Ids, TurnTexts, OnOneThread, Tagged;
    AskTags(w);
    var r := Interrupted(w.s).1;
    if r.Success? {
      OneAction(r.value[0]);
      TextsAndIdsAppend(w.actions, r.value);
    }
    TurnsStayOnThread(w, Asked(w));
  }

  lemma OpenKeeps(w: World, thread: string)
    requires Inv(w)
    ensures Inv(OpenedBy(w, thread))
    ensures w.s.ready ==> OpenedBy(w, thread) == w
  {
    hide Ids, Turns, Tagged;
    OpenTags(w, thread);
  }

  lemma StepKeeps(w: World, e: Occurrence, w': World)
    requires Inv(w) && Step(w, e, w')
    ensures Inv(w')
    ensures w.s.ready ==> w'.s.ready && w'.s.threadId == w.s.threadId
  {
    hide Ids, TurnTexts, Sent, Tagged, OnOneThread, Asked, OpenedBy, Counts;
    match e
    case Submit(text, model, effort) =>
      SubmitTags(w, text, model, effort);
      SentKeeps(w, text, model, effort, w');
    case Flush =>
      FlushTags(w);
      SentKeeps(w, w.flushing[0], None, None, w');
    case Ask => AskKeeps(w);
    case Open(thread) => OpenKeeps(w, thread);
    case Turn(turn) => SidewaysKeeps(w, w');
    case Move(cwd) => SidewaysKeeps(w, w');
  }

  lemma SidewaysKeeps(w: World, w': World)
    requires Inv(w) && w' == w.(s := w.s.(cwd := w'.s.cwd, activeTurnId := w'.s.activeTurnId))
    ensures Inv(w')
  {
    hide Ids, Turns;
  }

  lemma {:induction false} RunKeeps(worlds: seq<World>, events: seq<Occurrence>, i: nat, j: nat)
    requires Run(worlds, events) && i <= j < |worlds| && Inv(worlds[i])
    ensures Inv(worlds[j])
    ensures worlds[i].s.ready ==> worlds[j].s.ready && worlds[j].s.threadId == worlds[i].s.threadId
    decreases j - i
  {
    hide Inv, Step;
    if i < j {
      RunKeeps(worlds, events, i, j - 1);
      assert Step(worlds[j - 1], events[j - 1], worlds[j - 1 + 1]);
      StepKeeps(worlds[j - 1], events[j - 1], worlds[j]);
    }
  }

  lemma StartIsOk(cwd: string)
    ensures Inv(Start(cwd))
  {
    assert Turns([]) == [] && Ids([]) == [];
  }

  /**
    In every interleaving, each message submitted is in exactly one place: sent, queued,
    or taken out of the queue and about to be sent. The turns started, the texts about to
    be sent and those queued are those of the submissions numbered. Once the thread is
    known it stays the same and nothing is queued any more, and every request has an id
    of its own, never one of the handshake's.
   */
  lemma EveryMessageIsInOnePlace(cwd: string, worlds: seq<World>, events: seq<Occurrence>, i: nat, j: nat)
    requires Run(worlds, events) && i <= j < |worlds| && worlds[0] == Start(cwd)
    ensures var w := worlds[j];
            && multiset(w.sent + w.waiting + w.queued) == multiset(Upto(|w.submitted|))
            && NumberedTurns(w.sent, Turns(w.actions), w.submitted)
            && Numbered(w.waiting, w.flushing, w.submitted) && Numbered(w.queued, w.s.pending, w.submitted)
            && (w.s.ready <==> w.s.threadId.Some?)
            && (worlds[i].s.ready ==> w.s.threadId == worlds[i].s.threadId && w.s.pending == [])
            && (forall k, l :: 0 <= k < l < |Ids(w.actions)| ==> Ids(w.actions)[k] != Ids(w.actions)[l])
            && (forall k :: 0 <= k < |Ids(w.actions)| ==> Ids(w.actions)[k] > THREAD_START_ID)
  {
    hide Step, Turns, Ids, Numbered, NumberedTurns;
    StartIsOk(cwd);
    RunKeeps(worlds, events, 0, i);
    RunKeeps(worlds, events, i, j);
  }

  function Without<T>(s: seq<T>, i: nat): seq<T>
    requires i < |s|
  {
    s[..i] + s[i + 1..]
  }

  lemma WithoutTakesOne<T>(s: seq<T>, i: nat)
    requires i < |s|
    ensures multiset(s) == multiset(Without(s, i)) + multiset{s[i]} && |Without(s, i)| == |s| - 1
  {
    assert s == s[..i] + [s[i]] + s[i + 1..];
  }

  predicate Picked(numbers: seq<nat>, texts: seq<string>, x: seq<string>) {
    |x| == |numbers| && forall k :: 0 <= k < |x| ==> numbers[k] < |texts| && x[k] == texts[numbers[k]]
  }

  lemma PickedWithout(a: seq<nat>, texts: seq<string>, x: seq<string>, i: nat)
    requires Picked(a, texts, x) && i < |a|
    ensures Picked(Without(a, i), texts, Without(x, i))
    ensures a[i] < |texts| && x[i] == texts[a[i]]
  {
  }

  lemma PickedLengths(a: seq<nat>, b: seq<nat>, texts: seq<string>, x: seq<string>, y: seq<string>)
    requires multiset(a) == multiset(b) && Picked(a, texts, x) && Picked(b, texts, y)
    ensures |a| == |b| == |x| == |y|
  {
    assert |multiset(a)| == |a| && |multiset(b)| == |b|;
  }

  lemma PlaceOf(a: seq<nat>, b: seq<nat>) returns (i: nat)
    requires multiset(a) == multiset(b) && a != []
    ensures i < |b| && b[i] == a[0] && multiset(Without(a, 0)) == multiset(Without(b, i))
  {
    assert a[0] in multiset(b);
    i :| i < |b| && b[i] == a[0];
    WithoutTakesOne(a, 0);
    WithoutTakesOne(b, i);
    var m, n := multiset(Without(a, 0)), multiset(Without(b, i));
    assert m == m + multiset{a[0]} - multiset{a[0]};
    assert n == n + multiset{a[0]} - multiset{a[0]};
  }

  /** Picking the elements at rearranged places rearranges the elements. */
  lemma {:induction false} PickedMultiset(a: seq<nat>, b: seq<nat>, texts: seq<string>, x: seq<string>, y: seq<string>)
    requires multiset(a) == multiset(b) && Picked(a, texts, x) && Picked(b, texts, y)
    ensures multiset(x) == multiset(y)
    decreases |a|
  {
    hide Picked, Without;
    PickedLengths(a, b, texts, x, y);
    if a != [] {
      var i := PlaceOf(a, b);
      PickedWithout(a, texts, x, 0);
      PickedWithout(b, texts, y, i);
      WithoutTakesOne(a, 0);
      PickedMultiset(Without(a, 0), Without(b, i), texts, Without(x, 0), Without(y, i));
      WithoutTakesOne(x, 0);
      WithoutTakesOne(y, i);
    }
  }

  /** As to texts alone: what was submitted is what was sent, is about to be sent, or is queued. */
  lemma TextsAreConserved(cwd: string, worlds: seq<World>, events: seq<Occurrence>, j: nat)
    requires Run(worlds, events) && j < |worlds| && worlds[0] == Start(cwd)
    ensures var w := worlds[j];
            && multiset(Texts(w.submitted)) == multiset(TurnTexts(w.actions)) + multiset(w.flushing) + multiset(w.s.pending)
            && (w.s.ready && w.flushing == [] ==> multiset(Texts(w.submitted)) == multiset(TurnTexts(w.actions)))
  {
    hide Step, Turns, TurnTexts, Ids, Run;
    EveryMessageIsInOnePlace(cwd, worlds, events, j, j);
    var w := worlds[j];
    TextsFollowOrder(w);
    PickedMultiset(Order(w), Upto(|w.submitted|), Texts(w.submitted),
                   TurnTexts(w.actions) + w.flushing + w.s.pending, Texts(w.submitted));
  }

  /** The texts sent, about to be sent and queued are those of the submissions in order. */
  lemma TextsFollowOrder(w: World)
    requires NumberedTurns(w.sent, Turns(w.actions), w.submitted)
    requires Numbered(w.waiting, w.flushing, w.submitted) && Numbered(w.queued, w.s.pending, w.submitted)
    ensures var texts := TurnTexts(w.actions) + w.flushing + w.s.pending;
            |texts| == |Order(w)|
            && forall k :: 0 <= k < |texts| ==> Order(w)[k] < |w.submitted| && texts[k] == w.submitted[Order(w)[k]].text
  {
    hide Turns, TurnTexts;
    TurnsHaveTexts(w.actions);
  }

  // Order.

  /** A submission goes in order unless it is made while the queue is being sent. */
  lemma StepOrder(w: World, e: Occurrence, w': World)
    requires Inv(w) && Step(w, e, w')
    ensures Order(w') == Upto(|w'.submitted|)
       <==> Order(w) == Upto(|w.submitted|) && !(e.Submit? && w.flushing != [])
  {
    hide Turns, TurnTexts, Ids, OnOneThread, Counts, Asked, OpenedBy;
    match e
    case Submit(text, model, effort) => SubmitOrder(w, text, model, effort);
    case Flush => FlushTags(w);
    case Ask =>
      AskTags(w);
      OpenSubmitsNothing(w, "");
    case Open(thread) =>
      OpenTags(w, thread);
      OpenSubmitsNothing(w, thread);
    case _ =>
  }

  lemma OpenSubmitsNothing(w: World, thread: string)
    ensures OpenedBy(w, thread).submitted == w.submitted && Asked(w).submitted == w.submitted
  {
  }

  lemma SubmitOrder(w: World, text: string, model: Option<string>, effort: Option<string>)
    requires Inv(w)
    ensures var w' := Submitting(w, text, model, effort);
            Order(w') == Upto(|w'.submitted|) <==> Order(w) == Upto(|w.submitted|) && w.flushing == []
  {
    hide Turns, Ids, OnOneThread, Counts, NumberedTurns, Upto;
    var w' := Submitting(w, text, model, effort);
    var n := |w.submitted|;
    UptoNext(n);
    OrderLength(w);
    if w.flushing == [] {
      assert w.waiting == [] && (w.s.ready ==> w.queued == []);
      assert Order(w') == Order(w) + [n];
      assert Order(w')[..n] == Order(w) && (Upto(n) + [n])[..n] == Upto(n);
    } else {
      assert w.waiting != [] && w.queued == [];
      var last := w.waiting[|w.waiting| - 1];
      assert Order(w')[|Order(w')| - 1] == last < n;
      assert Upto(n + 1)[n] == n;
    }
  }

  lemma OrderLength(w: World)
    requires multiset(Order(w)) == multiset(Upto(|w.submitted|))
    ensures |Order(w)| == |w.submitted|
  {
    assert |multiset(Order(w))| == |Order(w)|;
  }

  /** Some message was submitted while the queue was being sent. */
  ghost predicate Overlapped(worlds: seq<World>, events: seq<Occurrence>, j: nat)
    requires j < |worlds| == |events| + 1
  {
    exists i :: 0 <= i < j && events[i].Submit? && worlds[i].flushing != []
  }

  lemma {:induction false} OrderFrom(cwd: string, worlds: seq<World>, events: seq<Occurrence>, j: nat)
    requires Run(worlds, events) && j < |worlds| && worlds[0] == Start(cwd)
    ensures Order(worlds[j]) == Upto(|worlds[j].submitted|) <==> !Overlapped(worlds, events, j)
  {
    hide Step, Inv, Upto;
    StartIsOk(cwd);
    if j == 0 {
      assert Order(Start(cwd)) == Upto(0);
    } else {
      OrderFrom(cwd, worlds, events, j - 1);
      RunKeeps(worlds, events, 0, j - 1);
      assert Step(worlds[j - 1], events[j - 1], worlds[j - 1 + 1]);
      StepOrder(worlds[j - 1], events[j - 1], worlds[j]);
    }
  }

  /**
    Messages keep their order, in every interleaving, if and only if none is submitted
    while the queue is being sent. For texts that all differ, the same holds of the texts
    themselves: those sent, then those about to be sent, then those queued.
   */
  lemma OrderIsKeptExactlyWhen(cwd: string, worlds: seq<World>, events: seq<Occurrence>, j: nat)
    requires Run(worlds, events) && j < |worlds| && worlds[0] == Start(cwd)
    ensures var w := worlds[j];
            var texts := TurnTexts(w.actions) + w.flushing + w.s.pending;
            && (w.sent + w.waiting + w.queued == Upto(|w.submitted|) <==> !Overlapped(worlds, events, j))
            && (!Overlapped(worlds, events, j) ==> texts == Texts(w.submitted))
            && ((forall k, l :: 0 <= k < l < |w.submitted| ==> w.submitted[k].text != w.submitted[l].text) ==>
                  (texts == Texts(w.submitted) <==> !Overlapped(worlds, events, j)))
  {
    hide Step, Turns, TurnTexts, Ids, Run, Overlapped, Numbered, NumberedTurns;
    var w := worlds[j];
    EveryMessageIsInOnePlace(cwd, worlds, events, j, j);
    OrderFrom(cwd, worlds, events, j);
    OrderLength(w);
    TextsFollowOrder(w);
    var texts := TurnTexts(w.actions) + w.flushing + w.s.pending;
    if texts == Texts(w.submitted) && (forall k, l :: 0 <= k < l < |w.submitted| ==> w.submitted[k].text != w.submitted[l].text) {
      forall k | 0 <= k < |w.submitted| ensures Order(w)[k] == k {
        assert w.submitted[Order(w)[k]].text == texts[k] == w.submitted[k].text;
      }
      assert Order(w) == Upto(|w.submitted|);
    }
  }

  // Options.

  /**
    A turn carries the text of its submission; and its model and effort if and only if
    the thread was known when it was submitted, or it named neither.
   */
  lemma OptionsArriveExactlyWhen(cwd: string, worlds: seq<World>, events: seq<Occurrence>, j: nat, k: nat)
    requires Run(worlds, events) && j < |worlds| && worlds[0] == Start(cwd)
    requires k < |Turns(worlds[j].actions)|
    ensures var w := worlds[j];
            && |w.sent| == |Turns(w.actions)| && w.sent[k] < |w.submitted|
            && var m, turn := w.submitted[w.sent[k]], Turns(w.actions)[k];
               && turn.text == m.text
               && (turn.model == m.model && turn.effort == m.effort <==> m.known || (m.model == None && m.effort == None))
  {
    hide Step, Turns, Ids, Run, Numbered;
    EveryMessageIsInOnePlace(cwd, worlds, events, j, j);
  }

  /** Whether the thread was known is settled when a message is submitted, and recorded with it. */
  lemma {:induction false} SubmissionsStay(worlds: seq<World>, events: seq<Occurrence>, i: nat, j: nat)
    requires Run(worlds, events) && i <= j < |worlds|
    ensures worlds[i].submitted <= worlds[j].submitted
    ensures i < j && events[i].Submit? ==>
              var n := |worlds[i].submitted|;
              n < |worlds[j].submitted|
              && worlds[j].submitted[n]
                 == Submission(events[i].text, events[i].model, events[i].effort, worlds[i].s.threadId.Some?)
    decreases j - i
  {
    hide Asked, OpenedBy;
    if i < j {
      SubmissionsStay(worlds, events, i + 1, j);
      assert Step(worlds[i], events[i], worlds[i + 1]);
      if events[i].Open? { OpenSubmitsNothing(worlds[i], events[i].thread); }
      if events[i].Ask? { OpenSubmitsNothing(worlds[i], ""); }
    }
  }

  // Two runs.

  const QUEUED: Action := Info("queued message until the app-server session is ready")

  function TurnOf(id: int, thread: string, text: string, cwd: string): Action {
    Send(TurnStart(id, thread, text, cwd, None, None))
  }

  /**
    One message is queued with a model, the thread becomes known, and a second one comes
    before the first is sent.
   */
  function Overtaking(cwd: string, thread: string): seq<World> {
    var first, second := TurnOf(4, thread, "first", cwd), TurnOf(3, thread, "second", cwd);
    var m, n := Submission("first", Some("model"), None, false), Submission("second", None, None, true);
    var open := State(cwd, Some(thread), None, true, 3, []);
    [ Start(cwd),
      World(Fresh(cwd).(pending := ["first"]), [], [m], [QUEUED], [], [], [0]),
      World(open, ["first"], [m], [QUEUED], [], [0], []),
      World(open.(nextRequestId := 4), ["first"], [m, n], [QUEUED, second], [1], [0], []),
      World(open.(nextRequestId := 5), [], [m, n], [QUEUED, second, first], [1, 0], [], []) ]
  }

  function OvertakingEvents(thread: string): seq<Occurrence> {
    [Submit("first", Some("model"), None), Open(thread), Submit("second", None, None), Flush]
  }

  lemma OvertakingRuns(cwd: string, thread: string)
    ensures Run(Overtaking(cwd, thread), OvertakingEvents(thread))
  {
    hide TurnTexts, Ids, Turns;
    var w, e := Overtaking(cwd, thread), OvertakingEvents(thread);
    assert Step(w[0], e[0], w[1]);
    assert Step(w[1], e[1], w[2]);
    assert Step(w[2], e[2], w[3]);
    assert Step(w[3], e[3], w[4]);
  }

  lemma OvertakenTurns(cwd: string, thread: string)
    ensures var actions := Overtaking(cwd, thread)[4].actions;
            && Turns(actions) == [StartedTurn("second", None, None), StartedTurn("first", None, None)]
            && TurnTexts(actions) == ["second", "first"]
  {
    hide TurnTexts, Turns;
    var first, second := TurnOf(4, thread, "first", cwd), TurnOf(3, thread, "second", cwd);
    NoTurns();
    TurnsSnoc([], QUEUED);
    TurnsSnoc([QUEUED], second);
    TurnsSnoc([QUEUED, second], first);
    assert [] + [QUEUED] == [QUEUED];
    assert [QUEUED] + [second] == [QUEUED, second] && [QUEUED, second] + [first] == [QUEUED, second, first];
    TurnsHaveTexts([QUEUED, second, first]);
  }

  lemma NoTurns()
    ensures Turns([]) == []
  {
  }

  /**
    Concurrently, messages can overtake one another: a new one goes ahead of the queue
    being sent. And a message that was queued loses the model it was submitted with.
   */
  lemma QueuedMessageIsOvertakenAndLosesItsModel(cwd: string, thread: string)
    ensures exists worlds: seq<World>, events: seq<Occurrence> ::
              && Run(worlds, events) && worlds[0] == Start(cwd)
              && var w := worlds[|worlds| - 1];
                 && Texts(w.submitted) == ["first", "second"] && TurnTexts(w.actions) == ["second", "first"]
                 && w.submitted[0].model == Some("model")
                 && Turns(w.actions) == [StartedTurn("second", None, None), StartedTurn("first", None, None)]
  {
    hide TurnTexts, Step, Turns;
    OvertakingRuns(cwd, thread);
    OvertakenTurns(cwd, thread);
    assert Run(Overtaking(cwd, thread), OvertakingEvents(thread));
    assert Texts(Overtaking(cwd, thread)[4].submitted) == ["first", "second"];
  }
}

/**
  The client of the Codex app-server: its handshake, the queue of messages sent before
  the handshake is over, and the ids of its requests.
 */
module AppServers {
  import opened Wrappers

  const INIT_ID := 1
  const THREAD_START_ID := 2

  /** The id of a line: none, a value that is no number, or a number. */
  datatype Id = NoId | OtherId(json: string) | Number(value: int)

  /** A message to the app-server. */
  datatype Request =
    | Initialize(id: int)
    | Initialized
    | ThreadStart(id: int, cwd: string)
    | ThreadResume(id: int, threadId: string, cwd: string)
    | TurnStart(id: int, threadId: string, text: string, cwd: string, model: Option<string>, effort: Option<string>)
    | TurnInterrupt(id: int, threadId: string, turnId: string)
    | ToolReply(call: Id)

  /** The first request. */
  const HELLO: Request := Initialize(INIT_ID)

  datatype Action = Send(request: Request) | Event | Info(text: string) | Warn(text: string) | Error(text: string)

  /**
    A line from the app-server, by the fields that are looked at: the thread named in
    its result or its parameters, the turn named in either, and whether the event
    decoder knows it.
   */
  datatype Incoming =
    | NotJson
    | Message(name: Option<string>, id: Id, error: Option<string>, resultThread: Option<string>, paramsThread: Option<string>,
              turn: Option<string>, known: bool)

  datatype State = State(
    cwd: string, threadId: Option<string>, activeTurnId: Option<string>, ready: bool, nextRequestId: int, pending: seq<string>)

  /** The state of a new client. */
  function Fresh(cwd: string): State { State(cwd, None, None, false, THREAD_START_ID + 1, []) }

  // What each locked section does.

  function Sent(s: State, text: string, model: Option<string>, effort: Option<string>): (State, seq<Action>) {
    match s.threadId
    case None => (s.(pending := s.pending + [text]), [Info("queued message until the app-server session is ready")])
    case Some(thread) =>
      (s.(nextRequestId := s.nextRequestId + 1), [Send(TurnStart(s.nextRequestId, thread, text, s.cwd, model, effort))])
  }

  /** The thread becomes known, once; the queue is taken out to be sent. */
  function Opened(s: State, thread: string): (State, Option<seq<string>>) {
    if s.ready then (s, None)
    else (s.(threadId := Some(thread), ready := true, pending := []), Some(s.pending))
  }

  function Interrupted(s: State): (State, Result<seq<Action>, string>) {
    match s.threadId
    case None => (s, Failure("the app-server session is not ready"))
    case Some(thread) =>
      match s.activeTurnId
      case None => (s, Failure("there is no active turn to interrupt"))
      case Some(turn) =>
        (s.(nextRequestId := s.nextRequestId + 1), Success([Send(TurnInterrupt(s.nextRequestId, thread, turn))]))
  }

  function TurnSeen(s: State, turn: Option<string>): State {
    if turn.Some? then s.(activeTurnId := turn) else s
  }

  // Whole operations, with nothing in between.

  function Flushed(s: State, texts: seq<string>): (State, seq<Action>)
    decreases |texts|
  {
    if texts == [] then (s, []) else
      var (s', first) := Sent(s, texts[0], None, None);
      var (s'', rest) := Flushed(s', texts[1..]);
      (s'', first + rest)
  }

  function BecameReady(s: State, thread: string): (State, seq<Action>) {
    match Opened(s, thread)
    case (s', None) => (s', [])
    case (s', Some(texts)) =>
      var (s'', actions) := Flushed(s', texts);
      (s'', [Info("app-server ready; thread " + thread)] + actions)
  }

  function OpenThread(s: State, resume: Option<string>): Request {
    match resume
    case Some(thread) => ThreadResume(THREAD_START_ID, thread, s.cwd)
    case None => ThreadStart(THREAD_START_ID, s.cwd)
  }

  function Notified(s: State, name: string, line: Incoming): (State, seq<Action>)
    requires line.Message?
  {
    var s := if name == "turn/started" then TurnSeen(s, line.turn)
             else if name == "turn/completed" then s.(activeTurnId := None)
             else s;
    var event := if line.known then [Event] else [];
    if name == "thread/started" && line.paramsThread.Some? then
      var (s', actions) := BecameReady(s, line.paramsThread.value);
      if actions == [] then (s', []) else (s', actions + event)
    else (s, event)
  }

  function CouldNotOpen(resume: Option<string>, error: string): string {
    "could not " + (if resume.Some? then "resume" else "start") + " Codex thread: " + error
  }

  function Handled(s: State, resume: Option<string>, line: Incoming): (State, seq<Action>) {
    match line
    case NotJson => (s, [Event])
    case Message(name, id, error, resultThread, _, turn, _) =>
      if name == Some("item/tool/call") && id != NoId then (s, [Send(ToolReply(id))])
      else if name == None && id == Number(INIT_ID) then (s, [Send(Initialized), Send(OpenThread(s, resume))])
      else if name == None && id == Number(THREAD_START_ID) then
        if error.Some? then (s, [Error(CouldNotOpen(resume, error.value))])
        else
          match resultThread
          case None => (s, [])
          case Some(thread) => var (s', actions) := BecameReady(s, thread); (s', actions + [Event])
      else if name == None then (TurnSeen(s, turn), [])
      else if id.Number? then (s, [Warn("unhandled server request: " + name.value)])
      else Notified(s, name.value, line)
  }

  class AppServer {
    var cwd: string
    const resumeThreadId: Option<string>
    var threadId: Option<string>
    var activeTurnId: Option<string>
    var ready: bool
    var nextRequestId: int
    var pending: seq<string>

    constructor (cwd: string, resumeThreadId: Option<string>)
      ensures Now() == Fresh(cwd) && this.resumeThreadId == resumeThreadId
    {
      this.cwd := cwd;
      this.resumeThreadId := resumeThreadId;
      threadId := None;
      activeTurnId := None;
      ready := false;
      nextRequestId := THREAD_START_ID + 1;
      pending := [];
    }

    ghost function Now(): State
      reads this
    {
      State(cwd, threadId, activeTurnId, ready, nextRequestId, pending)
    }

    method Start() returns (actions: seq<Action>)
      ensures actions == [Send(HELLO)]
    {
      actions := [Send(Initialize(INIT_ID))];
    }

    method SendWithOptions(text: string, model: Option<string>, effort: Option<string>) returns (actions: seq<Action>)
      modifies this`pending, this`nextRequestId
      ensures (Now(), actions) == Sent(old(Now()), text, model, effort)
    {
      if threadId.None? {
        pending := pending + [text];
        return [Info("queued message until the app-server session is ready")];
      }
      var id := nextRequestId;
      nextRequestId := nextRequestId + 1;
      return [Send(TurnStart(id, threadId.value, text, cwd, model, effort))];
    }

    method SetCwd(cwd: string)
      modifies this`cwd
      ensures Now() == old(Now()).(cwd := cwd)
    {
      this.cwd := cwd;
    }

    method Interrupt() returns (r: Result<seq<Action>, string>)
      modifies this`nextRequestId
      ensures (Now(), r) == Interrupted(old(Now()))
    {
      if threadId.None? { return Failure("the app-server session is not ready"); }
      if activeTurnId.None? { return Failure("there is no active turn to interrupt"); }
      var id := nextRequestId;
      nextRequestId := nextRequestId + 1;
      return Success([Send(TurnInterrupt(id, threadId.value, activeTurnId.value))]);
    }

    method BecomeReady(thread: string) returns (actions: seq<Action>)
      modifies this`threadId, this`ready, this`pending, this`nextRequestId
      ensures (Now(), actions) == BecameReady(old(Now()), thread)
    {
      hide Sent;
      if ready { return []; }
      threadId := Some(thread);
      ready := true;
      var texts := pending;
      pending := [];
      actions := [Info("app-server ready; thread " + thread)];
      ghost var before := Now();
      ghost var said := actions;
      for i := 0 to |texts|
        invariant Flushed(Now(), texts[i..]).0 == Flushed(before, texts).0
        invariant actions + Flushed(Now(), texts[i..]).1 == said + Flushed(before, texts).1
      {
        assert texts[i..][1..] == texts[i + 1..];
        var more := SendWithOptions(texts[i], None, None);
        actions := actions + more;
      }
      assert texts[|texts|..] == [] && actions + [] == actions;
    }

    method HandleLine(line: Incoming) returns (actions: seq<Action>)
      modifies this`threadId, this`activeTurnId, this`ready, this`pending, this`nextRequestId
      ensures (Now(), actions) == Handled(old(Now()), resumeThreadId, line)
    {
      if line.NotJson? { return [Event]; }
      if line.name == Some("item/tool/call") && line.id != NoId { return [Send(ToolReply(line.id))]; }
      match (line.name, line.id) {
        case (None, Number(id)) =>
          if id == INIT_ID {
            var open := if resumeThreadId.Some? then ThreadResume(THREAD_START_ID, resumeThreadId.value, cwd)
                        else ThreadStart(THREAD_START_ID, cwd);
            return [Send(Initialized), Send(open)];
          } else if id == THREAD_START_ID {
            if line.error.Some? {
              var verb := if resumeThreadId.Some? then "resume" else "start";
              return [Error("could not " + verb + " Codex thread: " + line.error.value)];
            }
            if line.resultThread.None? { return []; }
            actions := BecomeReady(line.resultThread.value);
            actions := actions + [Event];
          } else {
            SeeTurn(line.turn);
            return [];
          }
        case (None, _) =>
          SeeTurn(line.turn);
          return [];
        case (Some(name), Number(_)) => return [Warn("unhandled server request: " + name)];
        case (Some(name), _) => actions := HandleNotification(name, line);
      }
    }

    method SeeTurn(turn: Option<string>)
      modifies this`activeTurnId
      ensures Now() == TurnSeen(old(Now()), turn)
    {
      if turn.Some? { activeTurnId := turn; }
    }

    method HandleNotification(name: string, line: Incoming) returns (actions: seq<Action>)
      requires line.Message?
      modifies this`threadId, this`activeTurnId, this`ready, this`pending, this`nextRequestId
      ensures (Now(), actions) == Notified(old(Now()), name, line)
    {
      hide BecameReady;
      actions := [];
      var alreadyStarted := false;
      if name == "turn/started" {
        SeeTurn(line.turn);
      } else if name == "turn/completed" {
        activeTurnId := None;
      }
      if name == "thread/started" && line.paramsThread.Some? {
        actions := BecomeReady(line.paramsThread.value);
        alreadyStarted := actions == [];
      }
      assert actions + [] == actions && [] + [Event] == [Event];
      if !alreadyStarted && line.known {
        actions := actions + [Event];
      }
    }
  }

  // Run sequentially.

  datatype Operation =
    | OpSend(text: string, model: Option<string>, effort: Option<string>)
    | OpLine(line: Incoming)
    | OpSetCwd(cwd: string)
    | OpInterrupt

  function Performed(s: State, resume: Option<string>, op: Operation): (State, seq<Action>) {
    match op
    case OpSend(text, model, effort) => Sent(s, text, model, effort)
    case OpLine(line) => Handled(s, resume, line)
    case OpSetCwd(cwd) => (s.(cwd := cwd), [])
    case OpInterrupt => (match Interrupted(s) case (s', Success(actions)) => (s', actions) case (s', Failure(_)) => (s', []))
  }

  function PerformedAll(s: State, resume: Option<string>, ops: seq<Operation>): (State, seq<Action>)
    decreases |ops|
  {
    if ops == [] then (s, []) else
      var (s', actions) := PerformedAll(s, resume, ops[..|ops| - 1]);
      var (s'', more) := Performed(s', resume, ops[|ops| - 1]);
      (s'', actions + more)
  }

  /** What the operator asked to send. */
  function Submitted(ops: seq<Operation>): seq<string> {
    if ops == [] then [] else
      Submitted(ops[..|ops| - 1]) + (match ops[|ops| - 1] case OpSend(text, _, _) => [text] case _ => [])
  }

  /** The texts of the turns started, in order. */
  function TurnTexts(actions: seq<Action>): seq<string> {
    if actions == [] then [] else
      TurnTexts(actions[..|actions| - 1])
      + (match actions[|actions| - 1] case Send(TurnStart(_, _, text, _, _, _)) => [text] case _ => [])
  }

  /** The ids of the requests made since the handshake, in order. */
  function Ids(actions: seq<Action>): seq<int> {
    if actions == [] then [] else
      Ids(actions[..|actions| - 1])
      + (match actions[|actions| - 1]
         case Send(TurnStart(id, _, _, _, _, _)) => [id]
         case Send(TurnInterrupt(id, _, _)) => [id]
         case _ => [])
  }

  /** From `from` up to `to`, each number once. */
  predicate Counts(ids: seq<int>, from: int, to: int) {
    |ids| == to - from && forall k :: 0 <= k < |ids| ==> ids[k] == from + k
  }

  predicate Ok(s: State) {
    && (s.ready <==> s.threadId.Some?)
    && (s.ready ==> s.pending == [])
    && s.nextRequestId >= THREAD_START_ID + 1
  }

  lemma {:induction false} TextsAndIdsAppend(a: seq<Action>, b: seq<Action>)
    ensures TurnTexts(a + b) == TurnTexts(a) + TurnTexts(b) && Ids(a + b) == Ids(a) + Ids(b)
    decreases |b|
  {
    if b == [] {
      assert a + b == a;
    } else {
      assert (a + b)[..|a + b| - 1] == a + b[..|b| - 1];
      TextsAndIdsAppend(a, b[..|b| - 1]);
    }
  }

  lemma OneAction(a: Action)
    ensures TurnTexts([a]) == (match a case Send(TurnStart(_, _, text, _, _, _)) => [text] case _ => [])
    ensures Ids([a]) == (match a
                         case Send(TurnStart(id, _, _, _, _, _)) => [id]
                         case Send(TurnInterrupt(id, _, _)) => [id]
                         case _ => [])
  {
    assert [a][..0] == [];
    assert TurnTexts([]) == [] && Ids([]) == [];
  }

  /** What an operation owes: every text that was submitted or waiting is sent, in order, or still waiting. */
  predicate Delivers(s: State, submitted: seq<string>, s': State, actions: seq<Action>) {
    && Ok(s')
    && TurnTexts(actions) + s'.pending == s.pending + submitted
    && Counts(Ids(actions), s.nextRequestId, s'.nextRequestId)
    && (s.ready ==> s'.ready && s'.threadId == s.threadId)
  }

  lemma DeliversNothing(s: State, s': State, actions: seq<Action>)
    requires Ok(s) && s' == s.(cwd := s'.cwd, activeTurnId := s'.activeTurnId)
    requires TurnTexts(actions) == [] && Ids(actions) == []
    ensures Delivers(s, [], s', actions)
  {
  }

  lemma DeliversThen(s: State, a: seq<string>, s': State, actions: seq<Action>, b: seq<string>, s'': State, more: seq<Action>)
    requires Delivers(s, a, s', actions) && Delivers(s', b, s'', more)
    ensures Delivers(s, a + b, s'', actions + more)
  {
    TextsAndIdsAppend(actions, more);
    calc {
      TurnTexts(actions + more) + s''.pending;
      TurnTexts(actions) + (TurnTexts(more) + s''.pending);
      (TurnTexts(actions) + s'.pending) + b;
      s.pending + (a + b);
    }
  }

  lemma SendDelivers(s: State, text: string, model: Option<string>, effort: Option<string>)
    requires Ok(s)
    ensures Delivers(s, [text], Sent(s, text, model, effort).0, Sent(s, text, model, effort).1)
  {
    OneAction(Sent(s, text, model, effort).1[0]);
  }

  lemma InterruptDelivers(s: State, resume: Option<string>)
    requires Ok(s)
    ensures Delivers(s, [], Performed(s, resume, OpInterrupt).0, Performed(s, resume, OpInterrupt).1)
  {
    var actions := Performed(s, resume, OpInterrupt).1;
    if actions != [] {
      OneAction(actions[0]);
    }
  }

  lemma {:induction false} FlushDelivers(s: State, texts: seq<string>)
    requires Ok(s) && s.ready
    ensures Delivers(s, texts, Flushed(s, texts).0, Flushed(s, texts).1)
    decreases |texts|
  {
    if texts != [] {
      SendDelivers(s, texts[0], None, None);
      var (s', first) := Sent(s, texts[0], None, None);
      FlushDelivers(s', texts[1..]);
      DeliversThen(s, [texts[0]], s', first, texts[1..], Flushed(s', texts[1..]).0, Flushed(s', texts[1..]).1);
      assert [texts[0]] + texts[1..] == texts;
    }
  }

  lemma ReadyDelivers(s: State, thread: string)
    requires Ok(s)
    ensures Delivers(s, [], BecameReady(s, thread).0, BecameReady(s, thread).1)
  {
    if !s.ready {
      var s' := Opened(s, thread).0;
      var note := Info("app-server ready; thread " + thread);
      FlushDelivers(s', s.pending);
      OneAction(note);
      TextsAndIdsAppend([note], Flushed(s', s.pending).1);
      assert [] + TurnTexts(Flushed(s', s.pending).1) == TurnTexts(Flushed(s', s.pending).1);
    }
  }

  lemma OtherDelivers(s: State, s': State, actions: seq<Action>, event: Action)
    requires Delivers(s, [], s', actions) && event.Event?
    ensures Delivers(s, [], s', actions + [event]) && Delivers(s, [], s', actions + [])
  {
    OneAction(event);
    TextsAndIdsAppend(actions, [event]);
    assert actions + [] == actions;
  }

  lemma LineDelivers(s: State, resume: Option<string>, line: Incoming)
    requires Ok(s)
    ensures Delivers(s, [], Handled(s, resume, line).0, Handled(s, resume, line).1)
  {
    hide Delivers, BecameReady, TurnTexts, Ids;
    var (s', actions) := Handled(s, resume, line);
    if line.Message? && line.name == None && line.id == Number(THREAD_START_ID) && line.error.None? && line.resultThread.Some? {
      ReadyDelivers(s, line.resultThread.value);
      OtherDelivers(s, s', BecameReady(s, line.resultThread.value).1, Event);
    } else if line.Message? && line.name == Some("thread/started") && !line.id.Number? && line.paramsThread.Some? {
      ReadyDelivers(s, line.paramsThread.value);
      OtherDelivers(s, s', BecameReady(s, line.paramsThread.value).1, Event);
    } else {
      QuietLine(s, resume, line);
      DeliversNothing(s, s', actions);
    }
  }

  predicate StartsNothing(a: Action) { a.Send? ==> !a.request.TurnStart? && !a.request.TurnInterrupt? }

  lemma {:induction false} NothingStarted(actions: seq<Action>)
    requires forall k :: 0 <= k < |actions| ==> StartsNothing(actions[k])
    ensures TurnTexts(actions) == [] && Ids(actions) == []
  {
    if actions != [] {
      assert StartsNothing(actions[|actions| - 1]);
      NothingStarted(actions[..|actions| - 1]);
    }
  }

  /** Any other line starts no turn. */
  lemma QuietLine(s: State, resume: Option<string>, line: Incoming)
    requires line.Message? ==>
      !(line.name == None && line.id == Number(THREAD_START_ID) && line.error.None? && line.resultThread.Some?)
      && !(line.name == Some("thread/started") && !line.id.Number? && line.paramsThread.Some?)
    ensures var (s', actions) := Handled(s, resume, line);
            && s' == s.(activeTurnId := s'.activeTurnId)
            && TurnTexts(actions) == [] && Ids(actions) == []
  {
    hide BecameReady, TurnTexts, Ids;
    NothingStarted(Handled(s, resume, line).1);
  }

  /**
    Run sequentially, every message is delivered exactly once and in order: the texts
    of the turns started, followed by those still queued, are the texts submitted. The
    requests since the handshake are numbered from 3 without a gap.
   */
  lemma {:induction false} DeliveryIsInOrder(cwd: string, resume: Option<string>, ops: seq<Operation>)
    ensures var (s, actions) := PerformedAll(Fresh(cwd), resume, ops);
            && Ok(s)
            && TurnTexts(actions) + s.pending == Submitted(ops)
            && Counts(Ids(actions), THREAD_START_ID + 1, s.nextRequestId)
            && (s.ready ==> TurnTexts(actions) == Submitted(ops))
    decreases |ops|
  {
    hide Performed, TurnTexts, Ids, Submitted;
    DeliveryFrom(cwd, resume, ops);
  }

  lemma {:induction false} DeliveryFrom(cwd: string, resume: Option<string>, ops: seq<Operation>)
    ensures Delivers(Fresh(cwd), Submitted(ops), PerformedAll(Fresh(cwd), resume, ops).0, PerformedAll(Fresh(cwd), resume, ops).1)
    decreases |ops|
  {
    hide Performed;
    if ops != [] {
      var front, op := ops[..|ops| - 1], ops[|ops| - 1];
      var (s, actions) := PerformedAll(Fresh(cwd), resume, front);
      DeliveryFrom(cwd, resume, front);
      OperationDelivers(s, resume, op);
      DeliversThen(Fresh(cwd), Submitted(front), s, actions,
                   SubmittedBy(op), Performed(s, resume, op).0, Performed(s, resume, op).1);
    }
  }

  function SubmittedBy(op: Operation): seq<string> { match op case OpSend(text, _, _) => [text] case _ => [] }

  lemma OperationDelivers(s: State, resume: Option<string>, op: Operation)
    requires Ok(s)
    ensures Delivers(s, SubmittedBy(op), Performed(s, resume, op).0, Performed(s, resume, op).1)
  {
    hide Handled, Interrupted, Sent;
    match op
    case OpSend(text, model, effort) => SendDelivers(s, text, model, effort);
    case OpLine(line) => LineDelivers(s, resume, line);
    case OpSetCwd(_) =>
    case OpInterrupt => InterruptDelivers(s, resume);
  }

  /** The thread that an accepted line names, as the answer to opening it or in a notification. */
  function ThreadNamed(line: Incoming): Option<string> {
    if line.NotJson? || (line.name == Some("item/tool/call") && line.id != NoId) then None
    else if line.name == None then (if line.id == Number(THREAD_START_ID) && line.error.None? then line.resultThread else None)
    else if line.name == Some("thread/started") && !line.id.Number? then line.paramsThread
    else None
  }

  /** What a line says of the active turn: the turn that is on, that none is any more, or nothing. */
  function TurnNamed(line: Incoming): Option<Option<string>> {
    if line.NotJson? || (line.name == Some("item/tool/call") && line.id != NoId) then None
    else if line.name == None then
      (if line.id != Number(INIT_ID) && line.id != Number(THREAD_START_ID) && line.turn.Some? then Some(line.turn) else None)
    else if line.id.Number? then None
    else if line.name == Some("turn/started") then (if line.turn.Some? then Some(line.turn) else None)
    else if line.name == Some("turn/completed") then Some(None)
    else None
  }

  function FirstThread(ops: seq<Operation>): Option<string> {
    if ops == [] then None else
      Or(FirstThread(ops[..|ops| - 1]), match ops[|ops| - 1] case OpLine(line) => ThreadNamed(line) case _ => None)
  }

  function LastTurn(ops: seq<Operation>): Option<string> {
    if ops == [] then None else
      match ops[|ops| - 1]
      case OpLine(line) =>
        (match TurnNamed(line) case Some(turn) => turn case None => LastTurn(ops[..|ops| - 1]))
      case _ => LastTurn(ops[..|ops| - 1])
  }

  lemma {:induction false} FlushedKeeps(s: State, texts: seq<string>)
    ensures var s' := Flushed(s, texts).0; s'.threadId == s.threadId && s'.activeTurnId == s.activeTurnId
    decreases |texts|
  {
    if texts != [] {
      FlushedKeeps(Sent(s, texts[0], None, None).0, texts[1..]);
    }
  }

  lemma ReadySets(s: State, thread: string)
    requires Ok(s)
    ensures var s' := BecameReady(s, thread).0;
            s'.threadId == Or(s.threadId, Some(thread)) && s'.activeTurnId == s.activeTurnId
  {
    if !s.ready { FlushedKeeps(Opened(s, thread).0, s.pending); }
  }

  lemma LineSets(s: State, resume: Option<string>, line: Incoming)
    requires Ok(s)
    ensures var s' := Handled(s, resume, line).0;
            && s'.threadId == Or(s.threadId, ThreadNamed(line))
            && s'.activeTurnId == match TurnNamed(line) case Some(turn) => turn case None => s.activeTurnId
  {
    hide BecameReady;
    if line.Message? && line.resultThread.Some? { ReadySets(s, line.resultThread.value); }
    if line.Message? && line.paramsThread.Some? { ReadySets(s, line.paramsThread.value); }
  }

  /** The thread stays the one that was named first, and an interrupt is for the turn that was named last. */
  lemma {:induction false} FirstThreadLastTurn(cwd: string, resume: Option<string>, ops: seq<Operation>)
    ensures var s := PerformedAll(Fresh(cwd), resume, ops).0;
            && s.threadId == FirstThread(ops) && s.activeTurnId == LastTurn(ops)
            && (Interrupted(s).1.Success? <==> FirstThread(ops).Some? && LastTurn(ops).Some?)
            && (Interrupted(s).1.Success? ==>
                  Interrupted(s).1.value
                  == [Send(TurnInterrupt(s.nextRequestId, FirstThread(ops).value, LastTurn(ops).value))])
    decreases |ops|
  {
    hide Handled, ThreadNamed, TurnNamed;
    if ops != [] {
      var front, op := ops[..|ops| - 1], ops[|ops| - 1];
      FirstThreadLastTurn(cwd, resume, front);
      DeliveryFrom(cwd, resume, front);
      if op.OpLine? { LineSets(PerformedAll(Fresh(cwd), resume, front).0, resume, op.line); }
    }
  }

  // The handshake.

  /** The line answers the request: it names its id and no method. */
  predicate Answers(line: Incoming, request: Request)
    requires request.Initialize? || request.ThreadStart? || request.ThreadResume?
  {
    line.Message? && line.name == None && line.id == Number(request.id)
  }

  /** The thread that an answer to opening one gives. */
  function ThreadGiven(answer: Incoming): Option<string>
    requires answer.Message?
  {
    if answer.error.Some? then None else answer.resultThread
  }

  /**
    Whatever was called before, the answer to the first request asks to open the thread, or
    to resume the one given, and changes nothing. The answer to that makes the client ready
    if and only if it gives a thread or one was named before; the first named stays. If it
    makes the client ready, all that was submitted is sent then, in order, on that thread.
   */
  lemma HandshakeDeliversTheQueue(cwd: string, resume: Option<string>, ops: seq<Operation>, hello: Incoming, answer: Incoming)
    requires Answers(hello, HELLO)
    ensures var (s, done) := PerformedAll(Fresh(cwd), resume, ops);
            var open := OpenThread(s, resume);
            && Handled(s, resume, hello) == (s, [Send(Initialized), Send(open)])
            && (resume.Some? ==> open.ThreadResume? && open.threadId == resume.value) && open.cwd == s.cwd
            && (Answers(answer, open) ==>
                  var (s', more) := Handled(s, resume, answer);
                  && s'.threadId == Or(FirstThread(ops), ThreadGiven(answer))
                  && (s'.ready <==> FirstThread(ops).Some? || ThreadGiven(answer).Some?)
                  && TurnTexts(more) == (if FirstThread(ops) == None && s'.ready then Submitted(ops) else [])
                  && s'.pending == (if s'.ready then [] else Submitted(ops))
                  && TurnsAreOn(more, s'.threadId, s.cwd))
  {
    hide Handled, TurnTexts, Ids, Submitted, FirstThread, LastTurn, Interrupted, TurnsAreOn;
    DeliveryIsInOrder(cwd, resume, ops);
    FirstThreadLastTurn(cwd, resume, ops);
    var (s, done) := PerformedAll(Fresh(cwd), resume, ops);
    HelloOpens(s, resume, hello);
    if Answers(answer, OpenThread(s, resume)) {
      NothingBeforeTheThread(cwd, resume, ops);
      assert !s.ready ==> [] + s.pending == Submitted(ops);
      AnswerDelivers(s, resume, answer);
    }
  }

  lemma HelloOpens(s: State, resume: Option<string>, hello: Incoming)
    requires Answers(hello, HELLO)
    ensures Handled(s, resume, hello) == (s, [Send(Initialized), Send(OpenThread(s, resume))])
  {
  }

  lemma AnswerDelivers(s: State, resume: Option<string>, answer: Incoming)
    requires Ok(s) && Answers(answer, OpenThread(s, resume))
    ensures var (s', more) := Handled(s, resume, answer);
            && Ok(s') && s'.threadId == Or(s.threadId, ThreadGiven(answer))
            && TurnTexts(more) == (if !s.ready && s'.ready then s.pending else [])
            && s'.pending == (if s'.ready then [] else s.pending)
            && TurnsAreOn(more, s'.threadId, s.cwd)
  {
    hide TurnTexts, Ids, TurnsAreOn, Flushed;
    var (s', more) := Handled(s, resume, answer);
    LineDelivers(s, resume, answer);
    LineSets(s, resume, answer);
    StartsOnceReady(s, resume, OpLine(answer));
    assert TurnTexts(more) + [] == TurnTexts(more) && s.pending + [] == s.pending;
    if ThreadGiven(answer).Some? {
      var thread := answer.resultThread.value;
      ReadyStartsOnThread(s, thread);
      TurnsAreOnAppend(BecameReady(s, thread).1, [Event], s'.threadId, s.cwd);
    } else {
      TurnsAreOnNothing(more, s'.threadId, s.cwd);
    }
  }

  /** The turns started are on this thread and in this directory. */
  predicate TurnsAreOn(actions: seq<Action>, thread: Option<string>, cwd: string) {
    forall k :: 0 <= k < |actions| && actions[k].Send? && actions[k].request.TurnStart? ==>
      Some(actions[k].request.threadId) == thread && actions[k].request.cwd == cwd
  }

  lemma TurnsAreOnAppend(a: seq<Action>, b: seq<Action>, thread: Option<string>, cwd: string)
    requires TurnsAreOn(a, thread, cwd) && TurnsAreOn(b, thread, cwd)
    ensures TurnsAreOn(a + b, thread, cwd)
  {
  }

  lemma TurnsAreOnNothing(actions: seq<Action>, thread: Option<string>, cwd: string)
    requires forall k :: 0 <= k < |actions| ==> !actions[k].Send?
    ensures TurnsAreOn(actions, thread, cwd)
  {
  }

  /** While no thread is known no turn is started. */
  lemma {:induction false} NothingBeforeTheThread(cwd: string, resume: Option<string>, ops: seq<Operation>)
    ensures var (s, actions) := PerformedAll(Fresh(cwd), resume, ops); !s.ready ==> TurnTexts(actions) == []
    decreases |ops|
  {
    hide Performed;
    if ops != [] {
      var front, op := ops[..|ops| - 1], ops[|ops| - 1];
      var (s, actions) := PerformedAll(Fresh(cwd), resume, front);
      NothingBeforeTheThread(cwd, resume, front);
      DeliveryFrom(cwd, resume, front);
      OperationDelivers(s, resume, op);
      StartsOnceReady(s, resume, op);
      TextsAndIdsAppend(actions, Performed(s, resume, op).1);
    }
  }

  lemma StartsOnceReady(s: State, resume: Option<string>, op: Operation)
    requires Ok(s)
    ensures !Performed(s, resume, op).0.ready ==> TurnTexts(Performed(s, resume, op).1) == []
  {
    hide TurnTexts, BecameReady, Opened;
    var (s', actions) := Performed(s, resume, op);
    if !s'.ready {
      if op.OpLine? && op.line.Message? {
        if op.line.resultThread.Some? { ReadySets(s, op.line.resultThread.value); ReadyIsReady(s, op.line.resultThread.value); }
        if op.line.paramsThread.Some? { ReadyIsReady(s, op.line.paramsThread.value); }
      }
      NothingStarted(actions);
    }
  }

  lemma ReadyIsReady(s: State, thread: string)
    requires Ok(s)
    ensures BecameReady(s, thread).0.ready
  {
    ReadyDelivers(s, thread);
    if !s.ready { FlushDelivers(Opened(s, thread).0, s.pending); }
  }

  lemma {:induction false} FlushStartsOnThread(s: State, texts: seq<string>)
    requires s.threadId.Some?
    ensures TurnsAreOn(Flushed(s, texts).1, s.threadId, s.cwd)
    decreases |texts|
  {
    hide TurnsAreOn;
    if texts == [] {
      TurnsAreOnNothing([], s.threadId, s.cwd);
    } else {
      var (s', first) := Sent(s, texts[0], None, None);
      FlushStartsOnThread(s', texts[1..]);
      OneTurnIsOn(s, texts[0]);
      TurnsAreOnAppend(first, Flushed(s', texts[1..]).1, s.threadId, s.cwd);
    }
  }

  lemma OneTurnIsOn(s: State, text: string)
    requires s.threadId.Some?
    ensures TurnsAreOn(Sent(s, text, None, None).1, s.threadId, s.cwd)
  {
  }

  lemma ReadyStartsOnThread(s: State, thread: string)
    requires Ok(s)
    ensures TurnsAreOn(BecameReady(s, thread).1, Or(s.threadId, Some(thread)), s.cwd)
  {
    hide TurnsAreOn;
    var note := Info("app-server ready; thread " + thread);
    TurnsAreOnNothing([], s.threadId, s.cwd);
    TurnsAreOnNothing([note], Some(thread), s.cwd);
    if !s.ready {
      var s' := Opened(s, thread).0;
      FlushStartsOnThread(s', s.pending);
      TurnsAreOnAppend([note], Flushed(s', s.pending).1, Some(thread), s.cwd);
    }
  }
}

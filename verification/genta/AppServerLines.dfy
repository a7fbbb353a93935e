/** What the client of the Codex app-server makes of each line, and what its turns carry. */
module AppServerLines {
  import opened Wrappers
  import opened AppServers

  // Kinds of lines.

  /** A call of a tool that the host executes. */
  predicate IsToolCall(line: Incoming) { line.Message? && line.name == Some("item/tool/call") && line.id != NoId }

  /** Another request of the app-server's. */
  predicate IsRequest(line: Incoming) { line.Message? && line.name.Some? && line.id.Number? && !IsToolCall(line) }

  predicate IsNotification(line: Incoming) { line.Message? && line.name.Some? && !line.id.Number? && !IsToolCall(line) }

  predicate IsAnswerTo(line: Incoming, id: int) { line.Message? && line.name == None && line.id == Number(id) }

  /** The answer that opens the thread. */
  predicate Opens(line: Incoming) { IsAnswerTo(line, 2) && line.error == None && line.resultThread.Some? }

  /** A notification that names the thread. */
  predicate Announces(line: Incoming) {
    IsNotification(line) && line.name == Some("thread/started") && line.paramsThread.Some?
  }

  /** The line is also an event to show. */
  predicate Shows(s: State, line: Incoming) {
    || line == NotJson
    || Opens(line)
    || (IsNotification(line) && line.known && !(Announces(line) && s.ready))
  }

  function Events(actions: seq<Action>): nat {
    if actions == [] then 0 else Events(actions[..|actions| - 1]) + (if actions[|actions| - 1].Event? then 1 else 0)
  }

  lemma {:induction false} NoEvents(actions: seq<Action>)
    requires forall k :: 0 <= k < |actions| ==> !actions[k].Event?
    ensures Events(actions) == 0
  {
    if actions != [] { NoEvents(actions[..|actions| - 1]); }
  }

  lemma EventsSnoc(actions: seq<Action>, a: Action)
    ensures Events(actions + [a]) == Events(actions) + (if a.Event? then 1 else 0)
  {
    assert (actions + [a])[..|actions|] == actions;
  }

  lemma {:induction false} FlushShowsNothing(s: State, texts: seq<string>)
    ensures forall a :: a in Flushed(s, texts).1 ==> a.Send? || a.Info?
    ensures forall a :: a in Flushed(s, texts).1 && a.Send? ==> a.request.TurnStart?
    decreases |texts|
  {
    if texts != [] { FlushShowsNothing(Sent(s, texts[0], None, None).0, texts[1..]); }
  }

  lemma ReadyShowsNothing(s: State, thread: string)
    ensures forall a :: a in BecameReady(s, thread).1 ==> (a.Send? && a.request.TurnStart?) || a.Info?
    ensures s.ready <==> BecameReady(s, thread).1 == []
    ensures Events(BecameReady(s, thread).1) == 0
  {
    if !s.ready { FlushShowsNothing(Opened(s, thread).0, s.pending); }
    var actions := BecameReady(s, thread).1;
    forall k | 0 <= k < |actions| ensures !actions[k].Event? { assert actions[k] in actions; }
    NoEvents(actions);
  }

  /** Each event is shown once, after what the line leads to; and nothing else is shown as one. */
  lemma ShownOnce(s: State, resume: Option<string>, line: Incoming)
    ensures var actions := Handled(s, resume, line).1;
            && Events(actions) == (if Shows(s, line) then 1 else 0)
            && (Shows(s, line) ==> actions != [] && actions[|actions| - 1] == Event)
  {
    hide BecameReady;
    var actions := Handled(s, resume, line).1;
    if Opens(line) {
      ReadyShowsNothing(s, line.resultThread.value);
      EventsSnoc(BecameReady(s, line.resultThread.value).1, Event);
    } else if Announces(line) {
      ReadyShowsNothing(s, line.paramsThread.value);
      EventsSnoc(BecameReady(s, line.paramsThread.value).1, Event);
      assert BecameReady(s, line.paramsThread.value).1 + [] == BecameReady(s, line.paramsThread.value).1;
    } else if Shows(s, line) {
      assert actions == [] + [Event];
      EventsSnoc([], Event);
    } else {
      NoEvents(actions);
    }
  }

  /**
    What else a line leads to: a tool's call is replied to under its own id; another
    request is warned of; a failure to open the thread is an error, which says why; an
    answer to anything but the handshake, or one without a thread, leads to nothing.
   */
  lemma LinesAreAnswered(s: State, resume: Option<string>, line: Incoming)
    ensures var actions := Handled(s, resume, line).1;
            && (IsToolCall(line) ==> actions == [Send(ToolReply(line.id))])
            && (IsRequest(line) ==> actions == [Warn("unhandled server request: " + line.name.value)])
            && (IsAnswerTo(line, 2) && line.error.Some? ==>
                  actions == [Error("could not " + (if resume.Some? then "resume" else "start") + " Codex thread: " + line.error.value)])
            && (line.Message? && line.name == None && line.id != Number(1) && !Opens(line) && !(IsAnswerTo(line, 2) && line.error.Some?)
                ==> actions == [])
            && (IsNotification(line) && !Announces(line) ==> actions == (if line.known then [Event] else []))
  {
    hide BecameReady;
  }

  /** Replies are to tools' calls only, warnings of requests, and errors of the handshake's failure. */
  lemma NothingElseIsAnswered(s: State, resume: Option<string>, line: Incoming, a: Action)
    requires a in Handled(s, resume, line).1
    ensures a.Send? && a.request.ToolReply? ==> IsToolCall(line)
    ensures a.Warn? ==> IsRequest(line)
    ensures a.Error? ==> IsAnswerTo(line, 2) && line.error.Some?
    ensures a.Send? && (a.request.Initialized? || a.request.ThreadStart? || a.request.ThreadResume?) ==> IsAnswerTo(line, 1)
  {
    hide BecameReady;
    if Opens(line) { ReadyShowsNothing(s, line.resultThread.value); }
    if Announces(line) { ReadyShowsNothing(s, line.paramsThread.value); }
  }

  /** The line that makes the client ready is announced, with the thread, before what is sent then. */
  lemma ReadyIsAnnounced(s: State, resume: Option<string>, line: Incoming)
    requires !s.ready && (Opens(line) || Announces(line))
    ensures var thread := if Opens(line) then line.resultThread.value else line.paramsThread.value;
            var (s', actions) := Handled(s, resume, line);
            && s'.ready && s'.threadId == Some(thread)
            && actions != [] && actions[0] == Info("app-server ready; thread " + thread)
  {
    hide Flushed;
    var thread := if Opens(line) then line.resultThread.value else line.paramsThread.value;
    FlushKeepsReady(Opened(s, thread).0, s.pending);
  }

  lemma {:induction false} FlushKeepsReady(s: State, texts: seq<string>)
    ensures Flushed(s, texts).0.ready == s.ready && Flushed(s, texts).0.threadId == s.threadId
    decreases |texts|
  {
    if texts != [] { FlushKeepsReady(Sent(s, texts[0], None, None).0, texts[1..]); }
  }

  // What a turn carries.

  /** The directory set last. */
  function Directory(cwd: string, ops: seq<Operation>): string {
    if ops == [] then cwd else
      match ops[|ops| - 1] case OpSetCwd(d) => d case _ => Directory(cwd, ops[..|ops| - 1])
  }

  lemma {:induction false} DirectoryIsSet(cwd: string, resume: Option<string>, ops: seq<Operation>)
    ensures PerformedAll(Fresh(cwd), resume, ops).0.cwd == Directory(cwd, ops)
    decreases |ops|
  {
    hide Handled;
    if ops != [] {
      var front, op := ops[..|ops| - 1], ops[|ops| - 1];
      DirectoryIsSet(cwd, resume, front);
      if op.OpLine? { LineKeepsDirectory(PerformedAll(Fresh(cwd), resume, front).0, resume, op.line); }
    }
  }

  lemma {:induction false} FlushKeepsDirectory(s: State, texts: seq<string>)
    ensures Flushed(s, texts).0.cwd == s.cwd
    decreases |texts|
  {
    if texts != [] { FlushKeepsDirectory(Sent(s, texts[0], None, None).0, texts[1..]); }
  }

  lemma LineKeepsDirectory(s: State, resume: Option<string>, line: Incoming)
    ensures Handled(s, resume, line).0.cwd == s.cwd
  {
    hide Flushed;
    FlushKeepsDirectory(s.(threadId := if line.Message? then line.resultThread else None, ready := true, pending := []), s.pending);
    FlushKeepsDirectory(s.(threadId := if line.Message? then line.paramsThread else None, ready := true, pending := []), s.pending);
    TurnKeepsDirectory(s, line);
  }

  lemma TurnKeepsDirectory(s: State, line: Incoming)
    ensures forall thread, turn :: BecameReady(s.(activeTurnId := turn), thread).0.cwd == s.cwd
  {
    hide Flushed;
    forall thread, turn ensures BecameReady(s.(activeTurnId := turn), thread).0.cwd == s.cwd {
      FlushKeepsDirectory(Opened(s.(activeTurnId := turn), thread).0, s.pending);
    }
  }

  /**
    After any calls, a message goes to the thread that was named first, with its own text
    and options, in the directory set last; or, if no thread was named, it is queued.
   */
  lemma TurnCarriesItsMessage(
    cwd: string, resume: Option<string>, ops: seq<Operation>, text: string, model: Option<string>, effort: Option<string>)
    ensures var s := PerformedAll(Fresh(cwd), resume, ops).0;
            var actions := Performed(s, resume, OpSend(text, model, effort)).1;
            if FirstThread(ops).Some? then
              actions == [Send(TurnStart(s.nextRequestId, FirstThread(ops).value, text, Directory(cwd, ops), model, effort))]
            else actions == [Info("queued message until the app-server session is ready")]
  {
    hide PerformedAll, FirstThread, Directory;
    DirectoryIsSet(cwd, resume, ops);
    FirstThreadLastTurn(cwd, resume, ops);
  }
}

/**
  The client of Claude Code's stream protocol: turns are held back until the model
  change they asked for is acknowledged.
 */
module ClaudeStreams {
  import opened Wrappers
  import opened Text

  datatype Message = UserTurn(text: string) | SetModel(id: string, model: string) | Interrupt(id: string)

  datatype Action = Send(message: Message) | TurnCompleted | Info(text: string) | Warn(text: string)

  /** A model change that was asked for, and the turn held back for it, if any. */
  datatype PendingTurn = PendingTurn(text: Option<string>, model: string)

  datatype State = State(
    model: string, nextRequestId: nat, pending: map<string, PendingTurn>, pendingInterrupts: set<string>)

  /** A line from Claude: a response to the request `id`, or something for the event decoder. */
  datatype Incoming = Other | Response(id: string, errored: bool, error: string)

  function Fresh(model: string): State { State(model, 1, map[], {}) }

  function ModelId(n: nat): string { "styra_model_" + Decimal(n) }

  function InterruptId(n: nat): string { "styra_interrupt_" + Decimal(n) }

  function Requested(s: State, model: string, text: Option<string>): (State, seq<Action>) {
    var id := ModelId(s.nextRequestId);
    (s.(nextRequestId := s.nextRequestId + 1, pending := s.pending[id := PendingTurn(text, model)]),
     [Send(SetModel(id, model))])
  }

  /** `id` is a change to `model` with no turn waiting for it. */
  predicate IsBareSwitch(s: State, id: string, model: string) {
    id in s.pending && s.pending[id] == PendingTurn(None, model)
  }

  /** What `send` may do; which of several bare switches a turn waits for is left open. */
  ghost predicate Sends(s: State, text: string, model: Option<string>, s': State, actions: seq<Action>) {
    if model.None? || model.value == s.model then s' == s && actions == [Send(UserTurn(text))]
    else if exists id :: IsBareSwitch(s, id, model.value) then
      && actions == []
      && exists id :: IsBareSwitch(s, id, model.value)
                      && s' == s.(pending := s.pending[id := PendingTurn(Some(text), model.value)])
    else (s', actions) == Requested(s, model.value, Some(text))
  }

  function Switched(s: State, model: string): (State, seq<Action>) {
    if model == s.model then (s, []) else Requested(s, model, None)
  }

  function Interrupted(s: State): (State, seq<Action>) {
    var id := InterruptId(s.nextRequestId);
    (s.(nextRequestId := s.nextRequestId + 1, pendingInterrupts := s.pendingInterrupts + {id}), [Send(Interrupt(id))])
  }

  function Answered(s: State, line: Incoming): (State, Option<seq<Action>>) {
    match line
    case Other => (s, None)
    case Response(id, errored, error) =>
      if id in s.pendingInterrupts then
        (s.(pendingInterrupts := s.pendingInterrupts - {id}),
         Some(if errored then [Warn("Claude interrupt failed: " + error)]
              else [Info("Claude interrupted the active turn"), TurnCompleted]))
      else if id !in s.pending then (s, None)
      else
        var turn := s.pending[id];
        var s' := s.(pending := s.pending - {id});
        if errored then
          (s', Some(if turn.text.Some?
                    then [Warn("Claude rejected model change to " + turn.model + ": " + error + "; message was not sent"), TurnCompleted]
                    else [Warn("Claude rejected model change to " + turn.model + ": " + error)]))
        else
          (s'.(model := turn.model),
           Some([Info("Claude model changed to " + turn.model)]
                + (if turn.text.Some? then [Send(UserTurn(turn.text.value))] else [])))
  }

  class ClaudeStream {
    var model: string
    var nextRequestId: nat
    var pending: map<string, PendingTurn>
    var pendingInterrupts: set<string>

    constructor (model: string)
      ensures Now() == Fresh(model)
    {
      this.model := model;
      nextRequestId := 1;
      pending := map[];
      pendingInterrupts := {};
    }

    ghost function Now(): State
      reads this
    {
      State(model, nextRequestId, pending, pendingInterrupts)
    }

    method SendTurn(text: string, model: Option<string>) returns (actions: seq<Action>)
      modifies this`pending, this`nextRequestId
      ensures Sends(old(Now()), text, model, Now(), actions)
    {
      hide ModelId;
      if model.None? || model.value == this.model { return [Send(UserTurn(text))]; }
      ghost var before := Now();
      if id :| id in pending && pending[id].model == model.value && pending[id].text.None? {
        assert IsBareSwitch(before, id, model.value);
        pending := pending[id := pending[id].(text := Some(text))];
        return [];
      }
      assert forall id :: !IsBareSwitch(before, id, model.value);
      actions := RequestModel(model.value, Some(text));
    }

    method ChooseModel(model: string) returns (actions: seq<Action>)
      modifies this`pending, this`nextRequestId
      ensures (Now(), actions) == Switched(old(Now()), model)
    {
      if model == this.model { return []; }
      actions := RequestModel(model, None);
    }

    method RequestModel(model: string, text: Option<string>) returns (actions: seq<Action>)
      modifies this`pending, this`nextRequestId
      ensures (Now(), actions) == Requested(old(Now()), model, text)
    {
      var id := ModelId(nextRequestId);
      nextRequestId := nextRequestId + 1;
      pending := pending[id := PendingTurn(text, model)];
      return [Send(SetModel(id, model))];
    }

    method InterruptTurn() returns (actions: seq<Action>)
      modifies this`pendingInterrupts, this`nextRequestId
      ensures (Now(), actions) == Interrupted(old(Now()))
    {
      var id := InterruptId(nextRequestId);
      nextRequestId := nextRequestId + 1;
      pendingInterrupts := pendingInterrupts + {id};
      return [Send(Interrupt(id))];
    }

    method HandleLine(line: Incoming) returns (actions: Option<seq<Action>>)
      modifies this`model, this`pending, this`pendingInterrupts
      ensures (Now(), actions) == Answered(old(Now()), line)
    {
      if line.Other? { return None; }
      if line.id in pendingInterrupts {
        pendingInterrupts := pendingInterrupts - {line.id};
        if line.errored { return Some([Warn("Claude interrupt failed: " + line.error)]); }
        return Some([Info("Claude interrupted the active turn"), TurnCompleted]);
      }
      if line.id !in pending { return None; }
      var turn := pending[line.id];
      pending := pending - {line.id};
      if line.errored {
        var rejected := "Claude rejected model change to " + turn.model + ": " + line.error;
        if turn.text.Some? { return Some([Warn(rejected + "; message was not sent"), TurnCompleted]); }
        return Some([Warn(rejected)]);
      }
      model := turn.model;
      var said := [Info("Claude model changed to " + turn.model)];
      assert said + [] == said;
      if turn.text.Some? { said := said + [Send(UserTurn(turn.text.value))]; }
      return Some(said);
    }
  }

  // Runs.

  /** A text, and the model it was submitted with. */
  datatype Submission = Submission(text: string, model: Option<string>)

  /** A submission as it was sent, and the model recorded at that time. */
  datatype Sending = Sending(submission: Submission, model: string)

  /** A client, all that it was given and did, and how many interrupts were acknowledged. */
  datatype World = World(
    s: State, actions: seq<Action>, submitted: multiset<Submission>, sent: seq<Sending>,
    rejected: multiset<Submission>, interrupted: nat)

  datatype Event =
    | Submit(text: string, model: Option<string>)
    | Choose(chosen: string)
    | Stop
    | Receive(line: Incoming)

  /** The held submission that a response releases, if it releases one. */
  function Released(s: State, line: Incoming): Option<Submission> {
    if line.Response? && line.id !in s.pendingInterrupts && line.id in s.pending && s.pending[line.id].text.Some?
    then Some(Submission(s.pending[line.id].text.value, Some(s.pending[line.id].model)))
    else None
  }

  ghost predicate Step(w: World, e: Event, w': World) {
    match e
    case Submit(text, model) =>
      var sent := model.None? || model.value == w.s.model;
      exists actions ::
        && Sends(w.s, text, model, w'.s, actions)
        && w' == w.(s := w'.s, actions := w.actions + actions, submitted := w.submitted + multiset{Submission(text, model)},
                    sent := if sent then w.sent + [Sending(Submission(text, model), w'.s.model)] else w.sent)
    case Choose(model) =>
      var (s', actions) := Switched(w.s, model);
      w' == w.(s := s', actions := w.actions + actions)
    case Stop =>
      var (s', actions) := Interrupted(w.s);
      w' == w.(s := s', actions := w.actions + actions)
    case Receive(line) =>
      var (s', answer) := Answered(w.s, line);
      var actions := if answer.Some? then answer.value else [];
      var released := Released(w.s, line);
      w' == w.(s := s', actions := w.actions + actions,
               sent := if released.Some? && !line.errored then w.sent + [Sending(released.value, s'.model)] else w.sent,
               rejected := if released.Some? && line.errored then w.rejected + multiset{released.value} else w.rejected,
               interrupted := if line.Response? && line.id in w.s.pendingInterrupts && !line.errored
                              then w.interrupted + 1 else w.interrupted)
  }

  /** The submission held back for the request numbered `n`, if there is one. */
  function HeldAt(pending: map<string, PendingTurn>, n: nat): multiset<Submission> {
    if ModelId(n) in pending && pending[ModelId(n)].text.Some?
    then multiset{Submission(pending[ModelId(n)].text.value, Some(pending[ModelId(n)].model))}
    else multiset{}
  }

  /** The submissions held back, over the requests numbered from 1 to `n`. */
  function Held(pending: map<string, PendingTurn>, n: nat): multiset<Submission> {
    if n == 0 then multiset{} else Held(pending, n - 1) + HeldAt(pending, n)
  }

  function Submissions(sent: seq<Sending>): multiset<Submission> {
    if sent == [] then multiset{} else Submissions(sent[..|sent| - 1]) + multiset{sent[|sent| - 1].submission}
  }

  /** The texts of the turns sent, in order. */
  function TurnTexts(actions: seq<Action>): seq<string> {
    if actions == [] then [] else
      TurnTexts(actions[..|actions| - 1]) + TurnText(actions[|actions| - 1])
  }

  function TurnText(a: Action): seq<string> { match a case Send(UserTurn(text)) => [text] case _ => [] }

  function Texts(sent: seq<Sending>): (r: seq<string>)
    ensures |r| == |sent| && forall k :: 0 <= k < |r| ==> r[k] == sent[k].submission.text
  {
    seq(|sent|, k requires 0 <= k < |sent| => sent[k].submission.text)
  }

  /** How many turns were completed. */
  function Completions(actions: seq<Action>): nat {
    if actions == [] then 0 else
      Completions(actions[..|actions| - 1]) + (if actions[|actions| - 1].TurnCompleted? then 1 else 0)
  }

  /** The ids of the requests made, in order. */
  function Issued(actions: seq<Action>): seq<string> {
    if actions == [] then [] else Issued(actions[..|actions| - 1]) + IssuedBy(actions[|actions| - 1])
  }

  function IssuedBy(a: Action): seq<string> {
    match a
    case Send(SetModel(id, _)) => [id]
    case Send(Interrupt(id)) => [id]
    case _ => []
  }

  /** The `k`th id issued has the number `k` in it, counting from 1. */
  predicate Numbered(ids: seq<string>, next: nat) {
    |ids| + 1 == next && forall k :: 0 <= k < |ids| ==> ids[k] == ModelId(k + 1) || ids[k] == InterruptId(k + 1)
  }

  /** The tables hold only ids of requests that were made, each of its own kind. */
  ghost predicate TablesOk(s: State) {
    && s.nextRequestId >= 1
    && (forall id :: id in s.pending ==> exists k :: 1 <= k < s.nextRequestId && id == ModelId(k))
    && (forall id :: id in s.pendingInterrupts ==> exists k :: 1 <= k < s.nextRequestId && id == InterruptId(k))
  }

  ghost predicate Inv(w: World) {
    && TablesOk(w.s)
    && w.submitted == Submissions(w.sent) + Held(w.s.pending, w.s.nextRequestId - 1) + w.rejected
    && TurnTexts(w.actions) == Texts(w.sent)
    && Completions(w.actions) == |w.rejected| + w.interrupted
    && Numbered(Issued(w.actions), w.s.nextRequestId)
    && (forall k :: 0 <= k < |w.sent| && w.sent[k].submission.model.Some? ==> w.sent[k].submission.model.value == w.sent[k].model)
  }

  lemma IdsAreDistinct(j: nat, k: nat)
    ensures ModelId(j) != InterruptId(k)
    ensures j != k ==> ModelId(j) != ModelId(k) && InterruptId(j) != InterruptId(k)
  {
    hide Decimal;
    assert DigitsValue(Decimal(j)) == j && DigitsValue(Decimal(k)) == k;
    assert ModelId(j)[6] == 'm' && InterruptId(k)[6] == 'i';
    assert ModelId(j)[12..] == Decimal(j) && ModelId(k)[12..] == Decimal(k);
    assert InterruptId(j)[16..] == Decimal(j) && InterruptId(k)[16..] == Decimal(k);
  }

  /** Changing what one request holds changes the submissions held by just that. */
  lemma {:induction false} HeldChanges(p: map<string, PendingTurn>, p': map<string, PendingTurn>, k: nat, n: nat)
    requires forall id :: id != ModelId(k) ==> (id in p <==> id in p') && (id in p ==> p'[id] == p[id])
    ensures if 1 <= k <= n then Held(p', n) + HeldAt(p, k) == Held(p, n) + HeldAt(p', k) else Held(p', n) == Held(p, n)
  {
    hide HeldAt, ModelId;
    if n > 0 {
      HeldChanges(p, p', k, n - 1);
      if n == k {
        assert Held(p', n) + HeldAt(p, k) == Held(p, n - 1) + HeldAt(p', k) + HeldAt(p, k);
      } else {
        SameHeldAt(p, p', k, n);
        if 1 <= k < n {
          assert Held(p', n) + HeldAt(p, k) == (Held(p', n - 1) + HeldAt(p, k)) + HeldAt(p, n);
          assert Held(p, n) + HeldAt(p', k) == (Held(p, n - 1) + HeldAt(p', k)) + HeldAt(p, n);
        }
      }
    }
  }

  lemma SameHeldAt(p: map<string, PendingTurn>, p': map<string, PendingTurn>, k: nat, n: nat)
    requires forall id :: id != ModelId(k) ==> (id in p <==> id in p') && (id in p ==> p'[id] == p[id])
    requires n != k
    ensures HeldAt(p', n) == HeldAt(p, n)
  {
    hide ModelId;
    IdsAreDistinct(n, k);
  }

  lemma {:induction false} TextsAppend(a: seq<Action>, b: seq<Action>)
    ensures TurnTexts(a + b) == TurnTexts(a) + TurnTexts(b)
    decreases |b|
  {
    hide TurnText, IssuedBy;
    if b == [] {
      assert a + b == a;
    } else {
      assert (a + b)[..|a + b| - 1] == a + b[..|b| - 1];
      TextsAppend(a, b[..|b| - 1]);
    }
  }

  lemma {:induction false} CompletionsAppend(a: seq<Action>, b: seq<Action>)
    ensures Completions(a + b) == Completions(a) + Completions(b)
    decreases |b|
  {
    hide TurnText, IssuedBy;
    if b == [] {
      assert a + b == a;
    } else {
      assert (a + b)[..|a + b| - 1] == a + b[..|b| - 1];
      CompletionsAppend(a, b[..|b| - 1]);
    }
  }

  lemma {:induction false} IssuedAppend(a: seq<Action>, b: seq<Action>)
    ensures Issued(a + b) == Issued(a) + Issued(b)
    decreases |b|
  {
    hide TurnText, IssuedBy;
    if b == [] {
      assert a + b == a;
    } else {
      assert (a + b)[..|a + b| - 1] == a + b[..|b| - 1];
      IssuedAppend(a, b[..|b| - 1]);
    }
  }

  lemma ListsAppend(a: seq<Action>, b: seq<Action>)
    ensures TurnTexts(a + b) == TurnTexts(a) + TurnTexts(b)
    ensures Completions(a + b) == Completions(a) + Completions(b)
    ensures Issued(a + b) == Issued(a) + Issued(b)
  {
    TextsAppend(a, b);
    CompletionsAppend(a, b);
    IssuedAppend(a, b);
  }

  lemma OneAction(a: Action)
    ensures TurnTexts([a]) == TurnText(a) && Issued([a]) == IssuedBy(a)
    ensures Completions([a]) == if a.TurnCompleted? then 1 else 0
  {
    assert [a][..0] == [];
    assert TurnTexts([]) == [] && Issued([]) == [];
    assert [] + TurnText(a) == TurnText(a) && [] + IssuedBy(a) == IssuedBy(a);
  }

  lemma TwoActions(a: Action, b: Action)
    ensures TurnTexts([a, b]) == TurnText(a) + TurnText(b) && Issued([a, b]) == IssuedBy(a) + IssuedBy(b)
    ensures Completions([a, b]) == Completions([a]) + Completions([b])
  {
    hide TurnTexts, Issued, Completions;
    OneAction(a);
    OneAction(b);
    ListsAppend([a], [b]);
    assert [a] + [b] == [a, b];
  }

  lemma NoActions(a: seq<Action>)
    ensures a + [] == a && TurnTexts([]) == [] && Issued([]) == [] && Completions([]) == 0
  {
  }

  lemma SubmissionsSnoc(sent: seq<Sending>, s: Sending)
    ensures Submissions(sent + [s]) == Submissions(sent) + multiset{s.submission}
    ensures Texts(sent + [s]) == Texts(sent) + [s.submission.text]
  {
    assert (sent + [s])[..|sent|] == sent;
  }

  // Requests.

  lemma ModelIdIsNew(s: State)
    requires TablesOk(s)
    ensures ModelId(s.nextRequestId) !in s.pending
  {
    hide ModelId;
    if ModelId(s.nextRequestId) in s.pending {
      var k :| 1 <= k < s.nextRequestId && ModelId(s.nextRequestId) == ModelId(k);
      IdsAreDistinct(s.nextRequestId, k);
      assert false;
    }
  }

  lemma RequestKeeps(s: State, model: string, text: Option<string>)
    requires TablesOk(s)
    ensures var (s', actions) := Requested(s, model, text);
            && TablesOk(s')
            && Held(s'.pending, s'.nextRequestId - 1)
               == Held(s.pending, s.nextRequestId - 1)
                  + (if text.Some? then multiset{Submission(text.value, Some(model))} else multiset{})
            && TurnTexts(actions) == [] && Completions(actions) == 0 && Issued(actions) == [ModelId(s.nextRequestId)]
  {
    hide ModelId, Held;
    var n := s.nextRequestId;
    var (s', actions) := Requested(s, model, text);
    ModelIdIsNew(s);
    HeldChanges(s.pending, s'.pending, n, n - 1);
    HeldStep(s'.pending, n);
    OneAction(actions[0]);
    RequestTables(s, model, text);
  }

  lemma HeldStep(pending: map<string, PendingTurn>, n: nat)
    requires n > 0
    ensures Held(pending, n) == Held(pending, n - 1) + HeldAt(pending, n)
  {
  }

  lemma RequestTables(s: State, model: string, text: Option<string>)
    requires TablesOk(s)
    ensures TablesOk(Requested(s, model, text).0)
  {
    hide ModelId, InterruptId;
  }

  lemma InterruptTables(s: State)
    requires TablesOk(s)
    ensures TablesOk(Interrupted(s).0)
  {
    hide ModelId, InterruptId;
  }

  lemma FewerTables(s: State, s': State)
    requires TablesOk(s) && s'.nextRequestId == s.nextRequestId
    requires s'.pending.Keys <= s.pending.Keys && s'.pendingInterrupts <= s.pendingInterrupts
    ensures TablesOk(s')
  {
    hide ModelId, InterruptId;
    forall id | id in s'.pending ensures exists k :: 1 <= k < s.nextRequestId && id == ModelId(k) {
      assert id in s.pending;
    }
  }

  lemma NumberedNext(ids: seq<string>, next: nat, id: string)
    requires Numbered(ids, next) && (id == ModelId(next) || id == InterruptId(next))
    ensures Numbered(ids + [id], next + 1)
  {
    hide ModelId, InterruptId;
  }

  // Each kind of event keeps the invariant.

  lemma SubmitKeeps(w: World, text: string, model: Option<string>, w': World)
    requires Inv(w) && Step(w, Submit(text, model), w')
    ensures Inv(w')
  {
    hide TablesOk, Numbered, Held, TurnTexts, Completions, Issued, Submissions, ModelId, Texts;
    if model.None? || model.value == w.s.model {
      var a := Send(UserTurn(text));
      OneAction(a);
      ListsAppend(w.actions, [a]);
      assert w'.actions == w.actions + [a];
      SubmissionsSnoc(w.sent, Sending(Submission(text, model), w'.s.model));
      assert Issued(w.actions) + [] == Issued(w.actions);
    } else if exists id :: IsBareSwitch(w.s, id, model.value) {
      RideKeeps(w, text, model.value, w');
    } else {
      var actions := Requested(w.s, model.value, Some(text)).1;
      RequestKeeps(w.s, model.value, Some(text));
      ListsAppend(w.actions, actions);
      assert w'.actions == w.actions + actions;
      assert TurnTexts(w.actions) + [] == TurnTexts(w.actions);
      NumberedNext(Issued(w.actions), w.s.nextRequestId, ModelId(w.s.nextRequestId));
    }
  }

  lemma RideKeeps(w: World, text: string, model: string, w': World)
    requires Inv(w) && Step(w, Submit(text, Some(model)), w') && model != w.s.model
    requires exists id :: IsBareSwitch(w.s, id, model)
    ensures Inv(w')
  {
    hide Numbered, Held, TurnTexts, Completions, Issued, Submissions, ModelId, InterruptId, Texts;
    var id :| IsBareSwitch(w.s, id, model) && w'.s == w.s.(pending := w.s.pending[id := PendingTurn(Some(text), model)]);
    var k :| 1 <= k < w.s.nextRequestId && id == ModelId(k);
    var n := w.s.nextRequestId - 1;
    HeldChanges(w.s.pending, w'.s.pending, k, n);
    assert HeldAt(w.s.pending, k) == multiset{};
    assert Held(w'.s.pending, n) == Held(w.s.pending, n) + multiset{Submission(text, Some(model))};
    NoActions(w.actions);
    FewerTables(w.s, w'.s);
  }

  lemma ChooseKeeps(w: World, model: string, w': World)
    requires Inv(w) && Step(w, Choose(model), w')
    ensures Inv(w')
  {
    hide TablesOk, Numbered, Held, TurnTexts, Completions, Issued, Submissions, ModelId, Texts;
    var (s', actions) := Switched(w.s, model);
    if model == w.s.model {
      NoActions(w.actions);
    } else {
      RequestKeeps(w.s, model, None);
      ListsAppend(w.actions, actions);
      assert TurnTexts(w.actions) + [] == TurnTexts(w.actions);
      NumberedNext(Issued(w.actions), w.s.nextRequestId, ModelId(w.s.nextRequestId));
    }
  }

  lemma StopKeeps(w: World, w': World)
    requires Inv(w) && Step(w, Stop, w')
    ensures Inv(w')
  {
    hide TablesOk, Numbered, Held, TurnTexts, Completions, Issued, Submissions, InterruptId, ModelId, Texts;
    var (s', actions) := Interrupted(w.s);
    var n := w.s.nextRequestId;
    OneAction(actions[0]);
    ListsAppend(w.actions, actions);
    assert TurnTexts(w.actions) + [] == TurnTexts(w.actions);
    NumberedNext(Issued(w.actions), n, InterruptId(n));
    InterruptTables(w.s);
    NothingHeldByInterrupt(w.s);
  }

  lemma NothingHeldByInterrupt(s: State)
    requires TablesOk(s)
    ensures s.nextRequestId >= 1 && Held(s.pending, s.nextRequestId) == Held(s.pending, s.nextRequestId - 1)
  {
    hide ModelId;
    ModelIdIsNew(s);
  }

  lemma ReceiveKeeps(w: World, line: Incoming, w': World)
    requires Inv(w) && Step(w, Receive(line), w')
    ensures Inv(w')
  {
    hide TablesOk, Numbered, Held, TurnTexts, Completions, Issued, Submissions, Texts;
    if line.Response? && line.id in w.s.pendingInterrupts {
      InterruptAnswered(w, line, w');
    } else if line.Response? && line.id in w.s.pending {
      if line.errored {
        ChangeRejected(w, line, w');
      } else {
        ChangeAccepted(w, line, w');
      }
    } else {
      NoActions(w.actions);
    }
  }

  lemma InterruptAnswered(w: World, line: Incoming, w': World)
    requires Inv(w) && Step(w, Receive(line), w') && line.Response? && line.id in w.s.pendingInterrupts
    ensures Inv(w')
  {
    hide TablesOk, Numbered, Held, TurnTexts, Completions, Issued, Submissions, Texts;
    var actions := Answered(w.s, line).1.value;
    ListsAppend(w.actions, actions);
    FewerTables(w.s, w'.s);
    OneAction(actions[0]);
    if !line.errored {
      OneAction(actions[1]);
      TwoActions(actions[0], actions[1]);
    }
    assert TurnTexts(w.actions) + [] == TurnTexts(w.actions) && Issued(w.actions) + [] == Issued(w.actions);
  }

  /** An answered request holds nothing any more. */
  lemma ReleaseChangesHeld(s: State, id: string, pending': map<string, PendingTurn>)
    requires TablesOk(s) && id in s.pending && pending' == s.pending - {id}
    ensures s.nextRequestId >= 1
    ensures var turn := s.pending[id];
            Held(s.pending, s.nextRequestId - 1)
            == Held(pending', s.nextRequestId - 1)
               + (if turn.text.Some? then multiset{Submission(turn.text.value, Some(turn.model))} else multiset{})
  {
    hide ModelId, InterruptId, Held;
    var k :| 1 <= k < s.nextRequestId && id == ModelId(k);
    HeldChanges(s.pending, pending', k, s.nextRequestId - 1);
  }

  lemma ChangeRejected(w: World, line: Incoming, w': World)
    requires Inv(w) && Step(w, Receive(line), w')
    requires line.Response? && line.id !in w.s.pendingInterrupts && line.id in w.s.pending && line.errored
    ensures Inv(w')
  {
    hide TablesOk, Numbered, Held, TurnTexts, Completions, Issued, Submissions, Texts;
    var actions := Answered(w.s, line).1.value;
    ReleaseChangesHeld(w.s, line.id, w'.s.pending);
    FewerTables(w.s, w'.s);
    ListsAppend(w.actions, actions);
    OneAction(actions[0]);
    if w.s.pending[line.id].text.Some? {
      OneAction(actions[1]);
      TwoActions(actions[0], actions[1]);
    }
    assert TurnTexts(w.actions) + [] == TurnTexts(w.actions) && Issued(w.actions) + [] == Issued(w.actions);
  }

  lemma ChangeAccepted(w: World, line: Incoming, w': World)
    requires Inv(w) && Step(w, Receive(line), w')
    requires line.Response? && line.id !in w.s.pendingInterrupts && line.id in w.s.pending && !line.errored
    ensures Inv(w')
  {
    hide TablesOk, Numbered, Held, TurnTexts, Completions, Issued, Submissions, Texts;
    var actions := Answered(w.s, line).1.value;
    var turn := w.s.pending[line.id];
    ReleaseChangesHeld(w.s, line.id, w'.s.pending);
    FewerTables(w.s, w'.s);
    ListsAppend(w.actions, actions);
    OneAction(actions[0]);
    if turn.text.Some? {
      assert actions == [actions[0], Send(UserTurn(turn.text.value))];
      TwoActions(actions[0], Send(UserTurn(turn.text.value)));
      OneAction(actions[1]);
      SubmissionsSnoc(w.sent, Sending(Submission(turn.text.value, Some(turn.model)), turn.model));
    } else {
      assert actions == [actions[0]];
    }
    assert TurnTexts(w.actions) + [] == TurnTexts(w.actions) && Issued(w.actions) + [] == Issued(w.actions);
  }

  lemma StepKeeps(w: World, e: Event, w': World)
    requires Inv(w) && Step(w, e, w')
    ensures Inv(w')
  {
    hide Inv, Step;
    match e
    case Submit(text, model) => SubmitKeeps(w, text, model, w');
    case Choose(model) => ChooseKeeps(w, model, w');
    case Stop => StopKeeps(w, w');
    case Receive(line) => ReceiveKeeps(w, line, w');
  }

  ghost predicate Run(worlds: seq<World>, events: seq<Event>) {
    && |worlds| == |events| + 1
    && forall i :: 0 <= i < |events| ==> Step(worlds[i], events[i], worlds[i + 1])
  }

  lemma {:induction false} RunKeeps(worlds: seq<World>, events: seq<Event>, i: nat)
    requires Run(worlds, events) && i < |worlds| && Inv(worlds[0])
    ensures Inv(worlds[i])
  {
    hide Inv, Step;
    if i > 0 {
      RunKeeps(worlds, events, i - 1);
      assert Step(worlds[i - 1], events[i - 1], worlds[i - 1 + 1]);
      StepKeeps(worlds[i - 1], events[i - 1], worlds[i]);
    }
  }

  /**
    Turns are conserved: whatever Claude answers, in whatever order and however often,
    every submission is in exactly one of three places, sent, held or rejected. A turn
    submitted with a model is sent only while that model is the recorded one. Each
    rejection of a held turn, and each interrupt, completes exactly one turn. No request
    id is ever used twice.
   */
  lemma TurnsAreConserved(model: string, worlds: seq<World>, events: seq<Event>, i: nat)
    requires Run(worlds, events) && i < |worlds|
    requires worlds[0] == World(Fresh(model), [], multiset{}, [], multiset{}, 0)
    ensures var w := worlds[i];
            && w.s.nextRequestId >= 1
            && w.submitted == Submissions(w.sent) + Held(w.s.pending, w.s.nextRequestId - 1) + w.rejected
            && TurnTexts(w.actions) == Texts(w.sent)
            && (forall k :: 0 <= k < |w.sent| && w.sent[k].submission.model.Some? ==>
                  w.sent[k].submission.model.value == w.sent[k].model)
            && Completions(w.actions) == |w.rejected| + w.interrupted
            && (forall j, k :: 0 <= j < k < |Issued(w.actions)| ==> Issued(w.actions)[j] != Issued(w.actions)[k])
  {
    hide Step, ModelId, InterruptId;
    InitiallyOk(worlds[0], model);
    RunKeeps(worlds, events, i);
    NumberedDiffer(Issued(worlds[i].actions), worlds[i].s.nextRequestId);
  }

  lemma InitiallyOk(w: World, model: string)
    requires w == World(Fresh(model), [], multiset{}, [], multiset{}, 0)
    ensures Inv(w)
  {
    hide ModelId, InterruptId;
    NoActions([]);
  }

  lemma NumberedDiffer(ids: seq<string>, next: nat)
    requires Numbered(ids, next)
    ensures forall j, k :: 0 <= j < k < |ids| ==> ids[j] != ids[k]
  {
    hide ModelId, InterruptId;
    forall j, k | 0 <= j < k < |ids| ensures ids[j] != ids[k] {
      IdsAreDistinct(j + 1, k + 1);
      IdsAreDistinct(k + 1, j + 1);
    }
  }

  /** A held turn stays held, unless the request it waits for is answered. */
  lemma HeldUntilAnswered(w: World, e: Event, w': World, id: string)
    requires Inv(w) && Step(w, e, w') && id in w.s.pending && w.s.pending[id].text.Some?
    ensures (id in w'.s.pending && w'.s.pending[id] == w.s.pending[id])
            || (e.Receive? && e.line.Response? && e.line.id == id && id !in w'.s.pending
                && (if e.line.errored then w'.rejected == w.rejected + multiset{Released(w.s, e.line).value}
                    else w'.s.model == w.s.pending[id].model
                         && w'.sent == w.sent + [Sending(Released(w.s, e.line).value, w'.s.model)]))
  {
    hide Held, TurnTexts, Completions, Issued, Submissions, Texts, Numbered, ModelId, InterruptId;
    ModelIdIsNew(w.s);
    if e.Receive? && e.line.Response? && e.line.id == id && id in w.s.pendingInterrupts {
      var j :| 1 <= j < w.s.nextRequestId && id == ModelId(j);
      var k :| 1 <= k < w.s.nextRequestId && id == InterruptId(k);
      IdsAreDistinct(j, k);
    }
  }

  // Which model the client settles on.

  /** Of the requests numbered up to `n`, the model of the last one pending; the recorded one, if there is none. */
  function SettlesOn(s: State, n: nat): string {
    if n == 0 then s.model
    else if ModelId(n) in s.pending then s.pending[ModelId(n)].model
    else SettlesOn(s, n - 1)
  }

  /** The model that is recorded once every pending change was acknowledged, in order. */
  function Settled(s: State): string
    requires s.nextRequestId >= 1
  {
    SettlesOn(s, s.nextRequestId - 1)
  }

  /** The model that an event chooses. */
  function Chosen(e: Event): Option<string> {
    match e case Submit(_, model) => model case Choose(model) => Some(model) case _ => None
  }

  /** A pending change is acknowledged before later ones, and none is rejected. */
  ghost predicate Orderly(s: State, e: Event) {
    e.Receive? && e.line.Response? && e.line.id !in s.pendingInterrupts && e.line.id in s.pending ==>
      && !e.line.errored
      && exists k :: 1 <= k < s.nextRequestId && e.line.id == ModelId(k) && forall j :: 1 <= j < k ==> ModelId(j) !in s.pending
  }

  /**
    A choice is followed if it makes a request, and not if it is of the recorded model or
    rides along with an earlier change; unless the client settles on that model anyway.
   */
  ghost predicate Followed(s: State, e: Event)
    requires Chosen(e).Some? && s.nextRequestId >= 1
  {
    var model := Chosen(e).value;
    || (model != s.model && (e.Choose? || !exists id :: IsBareSwitch(s, id, model)))
    || Settled(s) == model
  }

  lemma {:induction false} SettlesAlike(s: State, s': State, n: nat)
    requires s'.model == s.model
    requires forall k :: 1 <= k <= n ==>
               (ModelId(k) in s'.pending <==> ModelId(k) in s.pending)
               && (ModelId(k) in s.pending ==> s'.pending[ModelId(k)].model == s.pending[ModelId(k)].model)
    ensures SettlesOn(s', n) == SettlesOn(s, n)
  {
    hide ModelId;
    if n > 0 { SettlesAlike(s, s', n - 1); }
  }

  lemma RequestSettles(s: State, model: string, text: Option<string>)
    requires s.nextRequestId >= 1
    ensures Settled(Requested(s, model, text).0) == model
  {
    hide ModelId;
  }

  /** Acknowledging the first change pending leaves what the client settles on. */
  lemma {:induction false} AcknowledgedSettles(s: State, k: nat, s': State, n: nat)
    requires ModelId(k) in s.pending && 1 <= k <= n && forall j :: 1 <= j < k ==> ModelId(j) !in s.pending
    requires s'.pending == s.pending - {ModelId(k)} && s'.model == s.pending[ModelId(k)].model
    ensures SettlesOn(s', n) == SettlesOn(s, n)
  {
    hide ModelId;
    if n == k {
      NothingPending(s', n);
    } else {
      IdsAreDistinct(n, k);
      AcknowledgedSettles(s, k, s', n - 1);
    }
  }

  lemma {:induction false} NothingPending(s: State, n: nat)
    requires forall j :: 1 <= j <= n ==> ModelId(j) !in s.pending
    ensures SettlesOn(s, n) == s.model
  {
    hide ModelId;
    if n > 0 { NothingPending(s, n - 1); }
  }

  /** A choice that is followed is what the client settles on; nothing else changes that, in order. */
  lemma StepSettles(w: World, e: Event, w': World)
    requires Inv(w) && Step(w, e, w') && Orderly(w.s, e)
    ensures w.s.nextRequestId >= 1 && w'.s.nextRequestId >= 1
    ensures Chosen(e).Some? ==> (Settled(w'.s) == Chosen(e).value <==> Followed(w.s, e))
    ensures Chosen(e).None? ==> Settled(w'.s) == Settled(w.s)
  {
    hide Held, TurnTexts, Completions, Issued, Submissions, Texts, Numbered, ModelId, InterruptId, Followed;
    match e
    case Submit(text, model) => SubmitSettles(w, text, model, w');
    case Choose(model) => ChooseSettles(w, model, w');
    case Stop => StopSettles(w.s);
    case Receive(line) => ReceiveSettles(w, line, w');
  }

  lemma StopSettles(s: State)
    requires s.nextRequestId >= 1 && TablesOk(s)
    ensures Settled(Interrupted(s).0) == Settled(s)
  {
    hide ModelId, InterruptId;
    ModelIdIsNew(s);
    SettlesAlike(s, Interrupted(s).0, s.nextRequestId - 1);
  }

  lemma ChooseSettles(w: World, model: string, w': World)
    requires Inv(w) && Step(w, Choose(model), w')
    ensures w.s.nextRequestId >= 1 && w'.s.nextRequestId >= 1
    ensures Settled(w'.s) == model <==> Followed(w.s, Choose(model))
  {
    hide Held, TurnTexts, Completions, Issued, Submissions, Texts, Numbered, ModelId, InterruptId, Settled, Requested;
    if model != w.s.model {
      RequestSettles(w.s, model, None);
      RequestCounts(w.s, model, None);
    }
  }

  lemma RequestCounts(s: State, model: string, text: Option<string>)
    ensures Requested(s, model, text).0.nextRequestId == s.nextRequestId + 1
  {
  }

  lemma SubmitSettles(w: World, text: string, model: Option<string>, w': World)
    requires Inv(w) && Step(w, Submit(text, model), w')
    ensures w.s.nextRequestId >= 1 && w'.s.nextRequestId >= 1
    ensures model.Some? ==> (Settled(w'.s) == model.value <==> Followed(w.s, Submit(text, model)))
    ensures model.None? ==> Settled(w'.s) == Settled(w.s)
  {
    hide Held, TurnTexts, Completions, Issued, Submissions, Texts, Numbered, ModelId, InterruptId;
    if model.Some? && model.value != w.s.model {
      if exists id :: IsBareSwitch(w.s, id, model.value) {
        SettlesAlike(w.s, w'.s, w.s.nextRequestId - 1);
      } else {
        RequestSettles(w.s, model.value, Some(text));
      }
    }
  }

  lemma ReceiveSettles(w: World, line: Incoming, w': World)
    requires Inv(w) && Step(w, Receive(line), w') && Orderly(w.s, Receive(line))
    ensures w.s.nextRequestId >= 1 && w'.s.nextRequestId >= 1
    ensures Settled(w'.s) == Settled(w.s)
  {
    hide Held, TurnTexts, Completions, Issued, Submissions, Texts, Numbered, ModelId, InterruptId;
    if line.Response? && line.id !in w.s.pendingInterrupts && line.id in w.s.pending {
      var k :| 1 <= k < w.s.nextRequestId && line.id == ModelId(k) && forall j :: 1 <= j < k ==> ModelId(j) !in w.s.pending;
      AcknowledgedSettles(w.s, k, w'.s, w.s.nextRequestId - 1);
    } else {
      SettlesAlike(w.s, w'.s, w.s.nextRequestId - 1);
    }
  }

  /** Without further choices, the client goes on settling on the same model. */
  lemma {:induction false} SettledStays(worlds: seq<World>, events: seq<Event>, i: nat, j: nat)
    requires Run(worlds, events) && i <= j < |worlds| && Inv(worlds[0])
    requires forall k :: i <= k < j ==> Chosen(events[k]).None? && Orderly(worlds[k].s, events[k])
    ensures worlds[i].s.nextRequestId >= 1 && worlds[j].s.nextRequestId >= 1
    ensures Settled(worlds[j].s) == Settled(worlds[i].s)
  {
    hide Step, Settled, Orderly;
    RunKeeps(worlds, events, j);
    if i < j {
      SettledStays(worlds, events, i, j - 1);
      RunKeeps(worlds, events, j - 1);
      assert Step(worlds[j - 1], events[j - 1], worlds[j - 1 + 1]);
      StepSettles(worlds[j - 1], events[j - 1], worlds[j]);
    }
  }

  /**
    In every run, and for every choice of a model with no other one after it: when the
    changes pending since are acknowledged in order, the recorded model is at last the one
    that was chosen if and only if the choice was followed.
   */
  lemma LastChoiceIsRecordedExactlyWhen(model: string, worlds: seq<World>, events: seq<Event>, i: nat, j: nat)
    requires Run(worlds, events) && i < j < |worlds|
    requires worlds[0] == World(Fresh(model), [], multiset{}, [], multiset{}, 0)
    requires Chosen(events[i]).Some? && forall k :: i < k < j ==> Chosen(events[k]).None? && Orderly(worlds[k].s, events[k])
    requires worlds[j].s.pending == map[]
    ensures worlds[i].s.nextRequestId >= 1
    ensures worlds[j].s.model == Chosen(events[i]).value <==> Followed(worlds[i].s, events[i])
  {
    hide Step, Inv, Settled, Followed;
    InitiallyOk(worlds[0], model);
    RunKeeps(worlds, events, i);
    assert Step(worlds[i], events[i], worlds[i + 1]);
    assert Orderly(worlds[i].s, events[i]);
    StepSettles(worlds[i], events[i], worlds[i + 1]);
    SettledStays(worlds, events, i + 1, j);
    SettledAlone(worlds[j].s);
  }

  lemma SettledAlone(s: State)
    requires s.nextRequestId >= 1 && s.pending == map[]
    ensures Settled(s) == s.model
  {
    NothingPending(s, s.nextRequestId - 1);
  }

  /** Back to the recorded model while another change is pending: the change is made all the same. */
  lemma ReturningIsIgnored(a: string, b: string)
    requires a != b
    ensures exists worlds: seq<World>, events: seq<Event> ::
              && Run(worlds, events) && worlds[0] == World(Fresh(a), [], multiset{}, [], multiset{}, 0)
              && events == [Choose(b), Choose(a), Receive(Response(ModelId(1), false, ""))]
              && worlds[3].s.pending == map[] && worlds[3].s.model == b
  {
    hide ModelId;
    var w := World(Fresh(a), [], multiset{}, [], multiset{}, 0);
    var asked := w.(s := Requested(w.s, b, None).0, actions := [Send(SetModel(ModelId(1), b))]);
    var settled := asked.(s := State(b, 2, map[], {}), actions := asked.actions + [Info("Claude model changed to " + b)]);
    var worlds := [w, asked, asked, settled];
    var events := [Choose(b), Choose(a), Receive(Response(ModelId(1), false, ""))];
    assert Step(worlds[0], events[0], worlds[1]);
    assert Step(worlds[1], events[1], worlds[2]);
    assert asked.s.pending - {ModelId(1)} == map[];
    assert [Info("Claude model changed to " + b)] + [] == [Info("Claude model changed to " + b)];
    assert Step(worlds[2], events[2], worlds[3]);
    assert Run(worlds, events);
  }
}

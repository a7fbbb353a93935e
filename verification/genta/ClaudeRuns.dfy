/**
  The client of Claude Code's stream together with a Claude that reads its messages and
  answers them, each side at its own pace.
 */
module ClaudeRuns {
  import opened Wrappers
  import opened ClaudeStreams

  /** Claude's answer to a request. */
  datatype Reply = Reply(id: string, ok: bool, error: string)

  /** A turn as Claude ran it: its text, and the model that Claude was on. */
  datatype Ran = Ran(text: string, model: string)

  /**
    The client; the messages that Claude has read, and those that it has not; the answers
    that the client has not heard; the model that Claude is on; and the turns it ran.
   */
  datatype System = System(
    w: World, read: seq<Message>, inbox: seq<Message>, outbox: seq<Reply>, on: string, ran: seq<Ran>)

  /** The messages among the client's actions, in order. */
  function Messages(actions: seq<Action>): seq<Message> {
    if actions == [] then [] else Messages(actions[..|actions| - 1]) + MessageOf(actions[|actions| - 1])
  }

  function MessageOf(a: Action): seq<Message> { match a case Send(m) => [m] case _ => [] }

  /** The operator does something, Claude reads its next message, or the client hears the next answer. */
  datatype Move = Operate(e: Event) | Work(ok: bool, error: string) | Hear

  /** The client takes a step, and Claude gets what it sends. */
  ghost predicate Client(s: System, e: Event, s': System) {
    && Step(s.w, e, s'.w) && s.w.actions <= s'.w.actions
    && s'.read == s.read && s'.inbox == s.inbox + Messages(s'.w.actions[|s.w.actions|..])
    && s'.on == s.on && s'.ran == s.ran
  }

  /** Claude switches to the model that a request names, unless it refuses to; it answers each request once. */
  ghost predicate Moves(s: System, m: Move, s': System) {
    match m
    case Operate(e) => (e.Receive? ==> e.line.Other?) && Client(s, e, s') && s'.outbox == s.outbox
    case Hear =>
      && s.outbox != [] && s'.outbox == s.outbox[1..]
      && Client(s, Receive(Response(s.outbox[0].id, !s.outbox[0].ok, s.outbox[0].error)), s')
    case Work(ok, error) =>
      && s.inbox != []
      && s' == Worked(s, ok, error)
  }

  function Worked(s: System, ok: bool, error: string): System
    requires s.inbox != []
  {
    var s' := s.(read := s.read + [s.inbox[0]], inbox := s.inbox[1..]);
    match s.inbox[0]
    case UserTurn(text) => s'.(ran := s.ran + [Ran(text, s.on)])
    case SetModel(id, model) => s'.(outbox := s.outbox + [Reply(id, ok, error)], on := if ok then model else s.on)
    case Interrupt(id) => s'.(outbox := s.outbox + [Reply(id, ok, error)])
  }

  ghost predicate Runs(systems: seq<System>, moves: seq<Move>) {
    && |systems| == |moves| + 1
    && forall i :: 0 <= i < |moves| ==> Moves(systems[i], moves[i], systems[i + 1])
  }

  /** A new client of a Claude that is on the model given. */
  function Beginning(model: string): System {
    System(World(Fresh(model), [], multiset{}, [], multiset{}, 0), [], [], [], model, [])
  }

  // What is under way.

  /** The models that pending changes would record. */
  function Models(pending: map<string, PendingTurn>): map<string, string> { map id | id in pending :: pending[id].model }

  function IdsOf(m: Message): seq<string> {
    match m case SetModel(id, _) => [id] case Interrupt(id) => [id] case UserTurn(_) => []
  }

  function IdsIn(ms: seq<Message>): seq<string> { if ms == [] then [] else IdsOf(ms[0]) + IdsIn(ms[1..]) }

  function ReplyIds(replies: seq<Reply>): (r: seq<string>)
    ensures |r| == |replies| && forall k :: 0 <= k < |r| ==> r[k] == replies[k].id
  {
    seq(|replies|, k requires 0 <= k < |replies| => replies[k].id)
  }

  /** The requests that the client has no answer to, in order. */
  function Unanswered(s: System): seq<string> { ReplyIds(s.outbox) + IdsIn(s.inbox) }

  /** The model that the client records once it has heard the answers. */
  function Heard(model: string, models: map<string, string>, replies: seq<Reply>): string
    decreases |replies|
  {
    if replies == [] then model else
      Heard(if replies[0].ok && replies[0].id in models then models[replies[0].id] else model, models, replies[1..])
  }

  predicate Different(ids: seq<string>) { forall j, k :: 0 <= j < k < |ids| ==> ids[j] != ids[k] }

  /** A request is pending at the client, with the model that it names. */
  predicate Matches(m: Message, models: map<string, string>, interrupts: set<string>) {
    match m
    case SetModel(id, model) => id in models && models[id] == model
    case Interrupt(id) => id in interrupts
    case UserTurn(_) => true
  }

  ghost predicate Linked(s: System) {
    var models, interrupts := Models(s.w.s.pending), s.w.s.pendingInterrupts;
    && (forall id :: id in models ==> id !in interrupts)
    && Different(Unanswered(s))
    && (forall k :: 0 <= k < |s.inbox| ==> Matches(s.inbox[k], models, interrupts))
    && (forall k :: 0 <= k < |s.outbox| ==> s.outbox[k].id in models || s.outbox[k].id in interrupts)
    && (forall id :: id in models ==> id in Unanswered(s))
    && s.on == Heard(s.w.s.model, models, s.outbox)
  }

  // What a step of the client comes to.

  /** The client asks for a change, interrupts, sends a turn, or does none of these. */
  ghost predicate ClientSends(w: World, w': World, more: seq<Message>) {
    var models, models' := Models(w.s.pending), Models(w'.s.pending);
    && w'.s.model == w.s.model
    && ((models' == models && w'.s.pendingInterrupts == w.s.pendingInterrupts && IdsIn(more) == []
         && forall k :: 0 <= k < |more| ==> more[k].UserTurn?)
        || (exists id, model ::
              && more == [SetModel(id, model)] && id !in models && id !in w.s.pendingInterrupts
              && models' == models[id := model] && w'.s.pendingInterrupts == w.s.pendingInterrupts)
        || (exists id ::
              && more == [Interrupt(id)] && id !in models && id !in w.s.pendingInterrupts
              && models' == models && w'.s.pendingInterrupts == w.s.pendingInterrupts + {id}))
  }

  lemma OneMessage(a: Action)
    ensures Messages([a]) == MessageOf(a)
  {
    assert [a][..0] == [];
    assert Messages([]) == [];
  }

  lemma NoMessages()
    ensures Messages([]) == [] && IdsIn([]) == []
  {
  }

  lemma NewActions(w: World, more: seq<Action>, w': World)
    requires w'.actions == w.actions + more
    ensures w'.actions[|w.actions|..] == more
  {
  }

  lemma IdIsNew(s: State)
    requires TablesOk(s)
    ensures var id, id' := ModelId(s.nextRequestId), InterruptId(s.nextRequestId);
            id !in s.pending && id !in s.pendingInterrupts && id' !in s.pending && id' !in s.pendingInterrupts
  {
    hide ModelId, InterruptId;
    ModelIdIsNew(s);
    var n := s.nextRequestId;
    if ModelId(n) in s.pendingInterrupts {
      var k :| 1 <= k < n && ModelId(n) == InterruptId(k);
      IdsAreDistinct(n, k);
      assert false;
    }
    if InterruptId(n) in s.pending {
      var k :| 1 <= k < n && InterruptId(n) == ModelId(k);
      IdsAreDistinct(k, n);
      assert false;
    }
    if InterruptId(n) in s.pendingInterrupts {
      var k :| 1 <= k < n && InterruptId(n) == InterruptId(k);
      IdsAreDistinct(n, k);
      assert false;
    }
  }

  lemma RequestSends(w: World, model: string, text: Option<string>, w': World)
    requires TablesOk(w.s)
    requires w'.s == Requested(w.s, model, text).0 && w'.actions == w.actions + Requested(w.s, model, text).1
    ensures ClientSends(w, w', Messages(w'.actions[|w.actions|..]))
  {
    hide ModelId, Messages;
    IdIsNew(w.s);
    var id := ModelId(w.s.nextRequestId);
    NewActions(w, Requested(w.s, model, text).1, w');
    OneMessage(Send(SetModel(id, model)));
    assert Models(w'.s.pending) == Models(w.s.pending)[id := model];
  }

  lemma InterruptSends(w: World, w': World)
    requires TablesOk(w.s)
    requires w'.s == Interrupted(w.s).0 && w'.actions == w.actions + Interrupted(w.s).1
    ensures ClientSends(w, w', Messages(w'.actions[|w.actions|..]))
  {
    hide ModelId, InterruptId, Messages;
    IdIsNew(w.s);
    NewActions(w, Interrupted(w.s).1, w');
    OneMessage(Send(Interrupt(InterruptId(w.s.nextRequestId))));
  }

  lemma SubmitSends(w: World, text: string, model: Option<string>, w': World)
    requires TablesOk(w.s) && Step(w, Submit(text, model), w')
    ensures w.actions <= w'.actions && ClientSends(w, w', Messages(w'.actions[|w.actions|..]))
  {
    hide ModelId, Messages, Requested;
    var more := w'.actions[|w.actions|..];
    assert w'.actions == w.actions + more;
    NoMessages();
    if model.None? || model.value == w.s.model {
      OneMessage(Send(UserTurn(text)));
      assert more == [Send(UserTurn(text))];
      assert [UserTurn(text)][1..] == [] && IdsIn([UserTurn(text)]) == [];
    } else if exists id :: IsBareSwitch(w.s, id, model.value) {
      assert more == [];
      assert Models(w'.s.pending) == Models(w.s.pending);
    } else {
      RequestSends(w, model.value, Some(text), w');
    }
  }

  lemma OperateSends(w: World, e: Event, w': World)
    requires TablesOk(w.s) && Step(w, e, w') && (e.Receive? ==> e.line.Other?)
    ensures w.actions <= w'.actions && ClientSends(w, w', Messages(w'.actions[|w.actions|..]))
  {
    hide ModelId, InterruptId, Messages, Requested, Interrupted, Sends;
    NoMessages();
    match e
    case Submit(text, model) => SubmitSends(w, text, model, w');
    case Choose(model) =>
      if model == w.s.model {
        NewActions(w, [], w');
      } else {
        RequestSends(w, model, None, w');
      }
    case Stop => InterruptSends(w, w');
    case Receive(_) => NewActions(w, [], w');
  }

  /** An answer settles its own request. */
  lemma HearSettles(w: World, r: Reply, w': World)
    requires Step(w, Receive(Response(r.id, !r.ok, r.error)), w')
    requires r.id in w.s.pending ==> r.id !in w.s.pendingInterrupts
    ensures Models(w'.s.pending) == Models(w.s.pending) - {r.id} && w'.s.pendingInterrupts == w.s.pendingInterrupts - {r.id}
    ensures w'.s.model == if r.ok && r.id in Models(w.s.pending) then Models(w.s.pending)[r.id] else w.s.model
  {
  }

  /** An answer sends at most a turn. */
  lemma HearSends(w: World, r: Reply, w': World)
    requires Step(w, Receive(Response(r.id, !r.ok, r.error)), w')
    ensures w.actions <= w'.actions
    ensures var more := Messages(w'.actions[|w.actions|..]); IdsIn(more) == [] && forall k :: 0 <= k < |more| ==> more[k].UserTurn?
  {
    hide Messages, Answered, Released;
    var answer := Answered(w.s, Response(r.id, !r.ok, r.error)).1;
    var more := if answer.Some? then answer.value else [];
    NewActions(w, more, w');
    AnswerSends(w.s, Response(r.id, !r.ok, r.error));
  }

  lemma AnswerSends(s: State, line: Incoming)
    ensures var answer := Answered(s, line).1;
            var more := Messages(if answer.Some? then answer.value else []);
            IdsIn(more) == [] && forall k :: 0 <= k < |more| ==> more[k].UserTurn?
  {
    hide Messages;
    NoMessages();
    var answer := Answered(s, line).1;
    if answer.Some? {
      var more := answer.value;
      OneMessage(more[0]);
      if |more| == 2 {
        TwoMessages(more[0], more[1]);
        assert more == [more[0], more[1]];
      } else {
        assert more == [more[0]];
      }
    }
    assert forall text :: [UserTurn(text)][1..] == [];
  }

  lemma TwoMessages(a: Action, b: Action)
    ensures Messages([a, b]) == MessageOf(a) + MessageOf(b)
  {
    OneMessage(a);
    assert [a, b][..1] == [a];
  }

  // Each move keeps client and Claude linked.

  lemma {:induction false} HeardSnoc(model: string, models: map<string, string>, replies: seq<Reply>, r: Reply)
    ensures Heard(model, models, replies + [r])
         == if r.ok && r.id in models then models[r.id] else Heard(model, models, replies)
    decreases |replies|
  {
    if replies == [] {
      assert replies + [r] == [r] && [r][1..] == [];
    } else {
      assert (replies + [r])[1..] == replies[1..] + [r];
      HeardSnoc(if replies[0].ok && replies[0].id in models then models[replies[0].id] else model, models, replies[1..], r);
    }
  }

  lemma {:induction false} HeardAlike(model: string, models: map<string, string>, models': map<string, string>, replies: seq<Reply>)
    requires forall k :: 0 <= k < |replies| ==>
               var id := replies[k].id; (id in models <==> id in models') && (id in models ==> models[id] == models'[id])
    ensures Heard(model, models, replies) == Heard(model, models', replies)
    decreases |replies|
  {
    if replies != [] {
      var r := replies[0];
      assert forall k :: 0 <= k < |replies[1..]| ==> replies[1..][k] == replies[k + 1];
      HeardAlike(if r.ok && r.id in models then models[r.id] else model, models, models', replies[1..]);
    }
  }

  lemma {:induction false} IdsInAppend(a: seq<Message>, b: seq<Message>)
    ensures IdsIn(a + b) == IdsIn(a) + IdsIn(b)
  {
    if a == [] {
      assert a + b == b;
    } else {
      assert (a + b)[1..] == a[1..] + b;
      IdsInAppend(a[1..], b);
    }
  }

  lemma {:induction false} IdsMatch(ms: seq<Message>, models: map<string, string>, interrupts: set<string>, id: string)
    requires (forall k :: 0 <= k < |ms| ==> Matches(ms[k], models, interrupts)) && id in IdsIn(ms)
    ensures id in models || id in interrupts
  {
    if ms != [] && id in IdsIn(ms[1..]) {
      assert forall k :: 0 <= k < |ms[1..]| ==> ms[1..][k] == ms[k + 1];
      IdsMatch(ms[1..], models, interrupts, id);
    }
  }

  /** Every request that has no answer is pending. */
  lemma UnansweredArePending(s: System, id: string)
    requires Linked(s) && id in Unanswered(s)
    ensures id in Models(s.w.s.pending) || id in s.w.s.pendingInterrupts
  {
    if id in IdsIn(s.inbox) { IdsMatch(s.inbox, Models(s.w.s.pending), s.w.s.pendingInterrupts, id); }
  }

  lemma OperateLinks(s: System, e: Event, s': System)
    requires Linked(s) && TablesOk(s.w.s) && Moves(s, Operate(e), s')
    ensures Linked(s')
  {
    hide Step, Messages, Models, TablesOk, IdsIn;
    OperateSends(s.w, e, s'.w);
    var more := Messages(s'.w.actions[|s.w.actions|..]);
    IdsInAppend(s.inbox, more);
    NewLinks(s, more, s');
  }

  lemma NewLinks(s: System, more: seq<Message>, s': System)
    requires Linked(s) && ClientSends(s.w, s'.w, more) && IdsIn(s'.inbox) == IdsIn(s.inbox) + IdsIn(more)
    requires s'.inbox == s.inbox + more && s'.outbox == s.outbox && s'.on == s.on
    ensures Linked(s')
  {
    hide Linked, IdsIn, ClientSends;
    assert s'.w.s.model == s.w.s.model by { SameModel(s.w, s'.w, more); }
    if IdsIn(more) == [] {
      TurnsOnly(s.w, s'.w, more);
      TurnsLink(s, more, s');
    } else {
      var id := RequestsOnly(s.w, s'.w, more);
      RequestLinks(s, more, id, s');
    }
  }

  lemma SameModel(w: World, w': World, more: seq<Message>)
    requires ClientSends(w, w', more)
    ensures w'.s.model == w.s.model
  {
  }

  lemma TurnsLink(s: System, more: seq<Message>, s': System)
    requires Linked(s) && IdsIn(s'.inbox) == IdsIn(s.inbox)
    requires s'.inbox == s.inbox + more && s'.outbox == s.outbox && s'.on == s.on && s'.w.s.model == s.w.s.model
    requires Models(s'.w.s.pending) == Models(s.w.s.pending) && s'.w.s.pendingInterrupts == s.w.s.pendingInterrupts
    requires forall k :: 0 <= k < |more| ==> more[k].UserTurn?
    ensures Linked(s')
  {
    hide Heard, Models, Different;
    assert Unanswered(s') == Unanswered(s);
  }

  lemma RequestLinks(s: System, more: seq<Message>, id: string, s': System)
    requires Linked(s) && IdsIn(s'.inbox) == IdsIn(s.inbox) + [id]
    requires s'.inbox == s.inbox + more && s'.outbox == s.outbox && s'.on == s.on && s'.w.s.model == s.w.s.model
    requires |more| == 1 && id !in Models(s.w.s.pending) && id !in s.w.s.pendingInterrupts
    requires OnlyAdds(s.w.s, id, s'.w.s) && Matches(more[0], Models(s'.w.s.pending), s'.w.s.pendingInterrupts)
    ensures Linked(s')
  {
    hide Heard, Models, Different;
    var models, models' := Models(s.w.s.pending), Models(s'.w.s.pending);
    assert Unanswered(s') == Unanswered(s) + [id];
    if id in Unanswered(s) { UnansweredArePending(s, id); }
    DifferentSnoc(Unanswered(s), id);
    forall k | 0 <= k < |s.outbox| ensures s.outbox[k].id != id { OutboxUnanswered(s, k); }
    HeardAlike(s.w.s.model, models, models', s.outbox);
  }

  /** Nothing but the request `id` is new. */
  ghost predicate OnlyAdds(s: State, id: string, s': State) {
    && (forall other :: other != id ==>
          && (other in Models(s'.pending) <==> other in Models(s.pending))
          && (other in Models(s.pending) ==> Models(s'.pending)[other] == Models(s.pending)[other])
          && (other in s'.pendingInterrupts <==> other in s.pendingInterrupts))
    && !(id in Models(s'.pending) && id in s'.pendingInterrupts)
  }

  lemma TurnsOnly(w: World, w': World, more: seq<Message>)
    requires ClientSends(w, w', more) && IdsIn(more) == []
    ensures Models(w'.s.pending) == Models(w.s.pending) && w'.s.pendingInterrupts == w.s.pendingInterrupts
    ensures forall k :: 0 <= k < |more| ==> more[k].UserTurn?
  {
    hide Models;
    assert forall id, model :: [SetModel(id, model)][1..] == [];
    assert forall id :: [Interrupt(id)][1..] == [];
  }

  lemma RequestsOnly(w: World, w': World, more: seq<Message>) returns (id: string)
    requires ClientSends(w, w', more) && IdsIn(more) != []
    ensures |more| == 1 && IdsIn(more) == [id] && id !in Models(w.s.pending) && id !in w.s.pendingInterrupts
    ensures Matches(more[0], Models(w'.s.pending), w'.s.pendingInterrupts)
    ensures OnlyAdds(w.s, id, w'.s)
  {
    hide Models;
    assert more[1..] == [];
    id := IdsIn(more)[0];
  }

  lemma DifferentSnoc(ids: seq<string>, id: string)
    requires Different(ids) && id !in ids
    ensures Different(ids + [id])
  {
  }

  lemma WorkLinks(s: System, ok: bool, error: string)
    requires Linked(s) && s.inbox != []
    ensures Linked(Worked(s, ok, error))
  {
    hide Models, Heard;
    var s' := Worked(s, ok, error);
    var m := s.inbox[0];
    assert forall k :: 0 <= k < |s'.inbox| ==> s'.inbox[k] == s.inbox[k + 1];
    assert Unanswered(s') == Unanswered(s);
    if !m.UserTurn? {
      HeardSnoc(s.w.s.model, Models(s.w.s.pending), s.outbox, Reply(m.id, ok, error));
    }
  }

  lemma HearLinks(s: System, s': System)
    requires Linked(s) && Moves(s, Hear, s')
    ensures Linked(s')
  {
    hide Step, Messages, Models, Linked, Unanswered, IdsIn;
    var r := s.outbox[0];
    NotBoth(s, r.id);
    HearSettles(s.w, r, s'.w);
    HearSends(s.w, r, s'.w);
    var more := Messages(s'.w.actions[|s.w.actions|..]);
    IdsInAppend(s.inbox, more);
    FirstAnswered(s, s');
    HeardLinks(s, r, s', more);
  }

  lemma NotBoth(s: System, id: string)
    requires Linked(s)
    ensures id in s.w.s.pending ==> id !in s.w.s.pendingInterrupts
  {
    hide Heard, Different, Unanswered, Matches;
    assert id in Models(s.w.s.pending) <==> id in s.w.s.pending;
  }

  lemma FirstAnswered(s: System, s': System)
    requires s.outbox != [] && s'.outbox == s.outbox[1..] && IdsIn(s'.inbox) == IdsIn(s.inbox)
    ensures Unanswered(s) == [s.outbox[0].id] + Unanswered(s')
  {
    hide IdsIn;
  }

  lemma HeardLinks(s: System, r: Reply, s': System, more: seq<Message>)
    requires Linked(s) && s.outbox != [] && r == s.outbox[0] && s'.outbox == s.outbox[1..]
    requires Unanswered(s) == [r.id] + Unanswered(s')
    requires var models := Models(s.w.s.pending);
             && Models(s'.w.s.pending) == models - {r.id} && s'.w.s.pendingInterrupts == s.w.s.pendingInterrupts - {r.id}
             && s'.w.s.model == (if r.ok && r.id in models then models[r.id] else s.w.s.model)
    requires s'.inbox == s.inbox + more && s'.on == s.on && forall k :: 0 <= k < |more| ==> more[k].UserTurn?
    ensures Linked(s')
  {
    hide Models, Unanswered;
    var models, models' := Models(s.w.s.pending), Models(s'.w.s.pending);
    assert r.id !in Unanswered(s') by { FirstIsAlone(r.id, Unanswered(s')); }
    forall k | 0 <= k < |s'.outbox| ensures s'.outbox[k].id != r.id && s'.outbox[k] == s.outbox[k + 1] {
      OutboxUnanswered(s', k);
    }
    HeardAlike(s'.w.s.model, models, models', s'.outbox);
    forall k | 0 <= k < |s'.inbox| ensures Matches(s'.inbox[k], models', s'.w.s.pendingInterrupts) {
      InboxUnanswered(s', k);
    }
    assert Different(Unanswered(s')) by { DifferentRest([r.id] + Unanswered(s')); }
  }

  lemma FirstIsAlone(id: string, ids: seq<string>)
    requires Different([id] + ids)
    ensures id !in ids
  {
    var all := [id] + ids;
    assert all[0] == id && forall k :: 0 <= k < |ids| ==> ids[k] == all[k + 1];
  }

  lemma DifferentRest(ids: seq<string>)
    requires Different(ids) && ids != []
    ensures Different(ids[1..])
  {
  }

  lemma OutboxUnanswered(s: System, k: nat)
    requires k < |s.outbox|
    ensures s.outbox[k].id in Unanswered(s)
  {
    assert Unanswered(s)[k] == s.outbox[k].id;
  }

  lemma {:induction false} IdIsIn(ms: seq<Message>, k: nat)
    requires k < |ms| && !ms[k].UserTurn?
    ensures ms[k].id in IdsIn(ms)
  {
    if k > 0 { IdIsIn(ms[1..], k - 1); }
  }

  lemma InboxUnanswered(s: System, k: nat)
    requires k < |s.inbox|
    ensures !s.inbox[k].UserTurn? ==> s.inbox[k].id in Unanswered(s)
  {
    if !s.inbox[k].UserTurn? { IdIsIn(s.inbox, k); }
  }

  // Runs.

  lemma MoveKeeps(s: System, m: Move, s': System)
    requires Linked(s) && Inv(s.w) && Moves(s, m, s')
    ensures Linked(s') && Inv(s'.w)
  {
    hide Linked, Inv, Step, Messages;
    match m
    case Operate(e) =>
      StepKeeps(s.w, e, s'.w);
      assert TablesOk(s.w.s) by { InvTables(s.w); }
      OperateLinks(s, e, s');
    case Hear =>
      StepKeeps(s.w, Receive(Response(s.outbox[0].id, !s.outbox[0].ok, s.outbox[0].error)), s'.w);
      HearLinks(s, s');
    case Work(ok, error) => WorkLinks(s, ok, error);
  }

  lemma InvTables(w: World)
    requires Inv(w)
    ensures TablesOk(w.s)
  {
  }

  lemma {:induction false} AllLinked(model: string, systems: seq<System>, moves: seq<Move>, i: nat)
    requires Runs(systems, moves) && systems[0] == Beginning(model) && i < |systems|
    ensures Linked(systems[i]) && Inv(systems[i].w)
  {
    hide Linked, Inv, Moves;
    if i == 0 {
      InitiallyOk(systems[0].w, model);
      InitiallyLinked(model);
    } else {
      AllLinked(model, systems, moves, i - 1);
      assert Moves(systems[i - 1], moves[i - 1], systems[i - 1 + 1]);
      MoveKeeps(systems[i - 1], moves[i - 1], systems[i]);
    }
  }

  lemma InitiallyLinked(model: string)
    ensures Linked(Beginning(model))
  {
  }

  /**
    In every run, the model that Claude is on is the one that the client records once it
    has heard the answers that are on their way; and so the recorded one, when no change
    is answered by these.
   */
  lemma RecordedIsWhatClaudeIsOn(model: string, systems: seq<System>, moves: seq<Move>, i: nat)
    requires Runs(systems, moves) && systems[0] == Beginning(model) && i < |systems|
    ensures var s := systems[i];
            && s.on == Heard(s.w.s.model, Models(s.w.s.pending), s.outbox)
            && ((forall k :: 0 <= k < |s.outbox| ==> s.outbox[k].id !in s.w.s.pending) ==> s.on == s.w.s.model)
            && (s.w.s.pending == map[] ==> s.on == s.w.s.model)
  {
    hide Runs, Models;
    AllLinked(model, systems, moves, i);
    var s := systems[i];
    if forall k :: 0 <= k < |s.outbox| ==> s.outbox[k].id !in s.w.s.pending {
      assert forall id :: id in Models(s.w.s.pending) <==> id in s.w.s.pending by { AllInModels(s.w.s.pending); }
      NoneHeard(s.w.s.model, Models(s.w.s.pending), s.outbox);
    }
  }

  lemma AllInModels(pending: map<string, PendingTurn>)
    ensures forall id :: id in Models(pending) <==> id in pending
  {
  }

  lemma {:induction false} NoneHeard(model: string, models: map<string, string>, replies: seq<Reply>)
    requires forall k :: 0 <= k < |replies| ==> replies[k].id !in models
    ensures Heard(model, models, replies) == model
    decreases |replies|
  {
    if replies != [] {
      assert forall k :: 0 <= k < |replies[1..]| ==> replies[1..][k] == replies[k + 1];
      NoneHeard(model, models, replies[1..]);
    }
  }

  /** A turn that was submitted with a model is sent while that is the recorded one, and Claude's if no answer is on its way. */
  lemma TurnIsSentOnItsModel(model: string, systems: seq<System>, moves: seq<Move>, i: nat, x: Sending)
    requires Runs(systems, moves) && systems[0] == Beginning(model) && i + 1 < |systems|
    requires systems[i + 1].w.sent == systems[i].w.sent + [x] && x.submission.model.Some?
    ensures var s := systems[i + 1];
            && s.w.s.model == x.submission.model.value
            && ((forall k :: 0 <= k < |s.outbox| ==> s.outbox[k].id !in s.w.s.pending) ==> s.on == x.submission.model.value)
  {
    hide Linked, Models, Held, TurnTexts, Completions, Issued, Submissions, Texts, Numbered, TablesOk, Sends, Answered, Messages;
    AllLinked(model, systems, moves, i + 1);
    RecordedIsWhatClaudeIsOn(model, systems, moves, i + 1);
    assert Moves(systems[i], moves[i], systems[i + 1]);
    var w, w' := systems[i].w, systems[i + 1].w;
    assert w'.sent[|w.sent|] == x && x.submission.model.value == x.model;
    assert x.model == w'.s.model by { SentWith(systems[i], moves[i], systems[i + 1], x); }
  }

  lemma SentWith(s: System, m: Move, s': System, x: Sending)
    requires Moves(s, m, s') && s'.w.sent == s.w.sent + [x]
    ensures x.model == s'.w.s.model
  {
    hide Sends, Answered, Messages, Switched, Interrupted;
    assert s'.w.sent[|s.w.sent|] == x && |s'.w.sent| == |s.w.sent| + 1;
  }

  // The model that a request names.

  /** Every pending change was asked for under its id, with its model; and no id was used for two models. */
  ghost predicate Named(w: World) {
    && (forall id :: id in w.s.pending ==> Send(SetModel(id, w.s.pending[id].model)) in w.actions)
    && (forall id, m, m' :: Send(SetModel(id, m)) in w.actions && Send(SetModel(id, m')) in w.actions ==> m == m')
    && (forall id, m :: Send(SetModel(id, m)) in w.actions ==> exists k :: 1 <= k < w.s.nextRequestId && id == ModelId(k))
  }

  /** Steps that ask for nothing. */
  lemma StillNamed(w: World, w': World)
    requires Named(w) && w.actions <= w'.actions && w'.s.nextRequestId >= w.s.nextRequestId
    requires forall k :: |w.actions| <= k < |w'.actions| ==> !(w'.actions[k].Send? && w'.actions[k].message.SetModel?)
    requires forall id :: id in w'.s.pending ==> id in w.s.pending && w'.s.pending[id].model == w.s.pending[id].model
    ensures Named(w')
  {
    hide ModelId;
    forall id, m | Send(SetModel(id, m)) in w'.actions ensures Send(SetModel(id, m)) in w.actions {
      var k :| 0 <= k < |w'.actions| && w'.actions[k] == Send(SetModel(id, m));
    }
    forall id | id in w'.s.pending ensures Send(SetModel(id, w'.s.pending[id].model)) in w'.actions {
      var a := Send(SetModel(id, w.s.pending[id].model));
      var k :| 0 <= k < |w.actions| && w.actions[k] == a;
      assert w'.actions[k] == a;
    }
  }

  lemma RequestNamed(w: World, model: string, text: Option<string>, w': World)
    requires Named(w) && w.s.nextRequestId >= 1
    requires w'.s == Requested(w.s, model, text).0 && w'.actions == w.actions + Requested(w.s, model, text).1
    ensures Named(w')
  {
    hide ModelId;
    var n := w.s.nextRequestId;
    var a := Send(SetModel(ModelId(n), model));
    assert w'.actions == w.actions + [a];
    assert a in w'.actions;
    forall m | Send(SetModel(ModelId(n), m)) in w.actions ensures false {
      var k :| 1 <= k < n && ModelId(n) == ModelId(k);
      IdsAreDistinct(n, k);
    }
  }

  lemma StepNamed(w: World, e: Event, w': World)
    requires Named(w) && Inv(w) && Step(w, e, w')
    ensures Named(w')
  {
    hide Named, Requested, Held, TurnTexts, Completions, Issued, Submissions, Texts, Numbered, TablesOk;
    match e
    case Submit(text, model) =>
      if model.Some? && model.value != w.s.model && !exists id :: IsBareSwitch(w.s, id, model.value) {
        assert w.s.nextRequestId >= 1 by { InvTables(w); TablesCount(w.s); }
        RequestNamed(w, model.value, Some(text), w');
      } else {
        StillNamed(w, w');
      }
    case Choose(model) =>
      if model != w.s.model {
        assert w.s.nextRequestId >= 1 by { InvTables(w); TablesCount(w.s); }
        RequestNamed(w, model, None, w');
      } else {
        StillNamed(w, w');
      }
    case Stop => StillNamed(w, w');
    case Receive(line) => StillNamed(w, w');
  }

  lemma TablesCount(s: State)
    requires TablesOk(s)
    ensures s.nextRequestId >= 1
  {
  }

  lemma {:induction false} AllNamed(model: string, worlds: seq<World>, events: seq<Event>, i: nat)
    requires Run(worlds, events) && i < |worlds| && worlds[0] == Beginning(model).w
    ensures Named(worlds[i])
  {
    hide Named, Step, Inv;
    if i == 0 {
      NothingNamed(model);
    } else {
      AllNamed(model, worlds, events, i - 1);
      InitiallyOk(worlds[0], model);
      RunKeeps(worlds, events, i - 1);
      assert Step(worlds[i - 1], events[i - 1], worlds[i - 1 + 1]);
      StepNamed(worlds[i - 1], events[i - 1], worlds[i]);
    }
  }

  lemma NothingNamed(model: string)
    ensures Named(Beginning(model).w)
  {
  }

  /** Over every run of the client, what a pending change would record is the model that Claude was asked for under its id. */
  lemma PendingModelIsTheOneNamed(model: string, worlds: seq<World>, events: seq<Event>, i: nat, id: string)
    requires Run(worlds, events) && i < |worlds| && worlds[0] == Beginning(model).w
    requires id in worlds[i].s.pending
    ensures forall m :: Send(SetModel(id, m)) in worlds[i].actions <==> m == worlds[i].s.pending[id].model
  {
    hide Run, ModelId;
    AllNamed(model, worlds, events, i);
  }

  // The model that a turn runs on.

  /** The model named last. */
  function LastNamed(model: string, ms: seq<Message>): string {
    if ms == [] then model else
      match ms[|ms| - 1] case SetModel(_, named) => named case _ => LastNamed(model, ms[..|ms| - 1])
  }

  /** The turns among the messages, each with the model that was named last before it. */
  function TurnsOn(model: string, ms: seq<Message>): seq<Ran> {
    if ms == [] then [] else
      var front := ms[..|ms| - 1];
      TurnsOn(model, front)
      + (match ms[|ms| - 1] case UserTurn(text) => [Ran(text, LastNamed(model, front))] case _ => [])
  }

  ghost predicate NoneRefused(moves: seq<Move>, i: nat)
    requires i <= |moves|
  {
    forall k :: 0 <= k < i && moves[k].Work? ==> moves[k].ok
  }

  /** Claude has read the messages up to those that it has not, and has run their turns. */
  ghost predicate InStep(model: string, s: System) {
    s.read + s.inbox == Messages(s.w.actions) && s.ran == TurnsOn(model, s.read) && s.on == LastNamed(model, s.read)
  }

  lemma {:induction false} MessagesAppend(a: seq<Action>, b: seq<Action>)
    ensures Messages(a + b) == Messages(a) + Messages(b)
    decreases |b|
  {
    hide MessageOf;
    if b == [] {
      assert a + b == a;
    } else {
      assert (a + b)[..|a + b| - 1] == a + b[..|b| - 1];
      MessagesAppend(a, b[..|b| - 1]);
    }
  }

  lemma MoveInStep(model: string, s: System, m: Move, s': System)
    requires InStep(model, s) && Moves(s, m, s') && (m.Work? ==> m.ok)
    ensures InStep(model, s')
  {
    hide Step, Messages, Client, LastNamed, TurnsOn;
    if m.Work? {
      ReadInStep(model, s, s', m.error);
    } else {
      ClientInStep(model, s, if m.Hear? then Receive(Response(s.outbox[0].id, !s.outbox[0].ok, s.outbox[0].error)) else m.e, s');
    }
  }

  lemma ReadInStep(model: string, s: System, s': System, error: string)
    requires InStep(model, s) && s.inbox != [] && s' == Worked(s, true, error)
    ensures InStep(model, s')
  {
    hide Messages, TurnsOn, LastNamed;
    assert s'.read + s'.inbox == s.read + s.inbox;
    OneMore(model, s.read, s.inbox[0]);
  }

  lemma OneMore(model: string, ms: seq<Message>, m: Message)
    ensures LastNamed(model, ms + [m]) == if m.SetModel? then m.model else LastNamed(model, ms)
    ensures TurnsOn(model, ms + [m])
         == TurnsOn(model, ms) + (if m.UserTurn? then [Ran(m.text, LastNamed(model, ms))] else [])
  {
    assert (ms + [m])[..|ms|] == ms;
  }

  lemma ClientInStep(model: string, s: System, e: Event, s': System)
    requires InStep(model, s) && Client(s, e, s')
    ensures InStep(model, s')
  {
    hide Step, Messages, LastNamed, TurnsOn;
    var more := s'.w.actions[|s.w.actions|..];
    assert s'.w.actions == s.w.actions + more;
    MessagesAppend(s.w.actions, more);
  }

  lemma {:induction false} AllInStep(model: string, systems: seq<System>, moves: seq<Move>, i: nat)
    requires Runs(systems, moves) && systems[0] == Beginning(model) && i < |systems| && NoneRefused(moves, i)
    ensures InStep(model, systems[i])
  {
    hide InStep, Moves;
    if i == 0 {
      NothingRead(model);
    } else {
      AllInStep(model, systems, moves, i - 1);
      assert Moves(systems[i - 1], moves[i - 1], systems[i - 1 + 1]);
      MoveInStep(model, systems[i - 1], moves[i - 1], systems[i]);
    }
  }

  lemma NothingRead(model: string)
    ensures InStep(model, Beginning(model))
  {
    assert [] + [] == Messages([]);
  }

  lemma {:induction false} TurnsOnAppend(model: string, a: seq<Message>, b: seq<Message>)
    ensures TurnsOn(model, a) <= TurnsOn(model, a + b)
    ensures (forall k :: 0 <= k < |b| ==> !b[k].SetModel?) ==> LastNamed(model, a + b) == LastNamed(model, a)
    decreases |b|
  {
    if b == [] {
      assert a + b == a;
    } else {
      assert (a + b)[..|a + b| - 1] == a + b[..|b| - 1];
      TurnsOnAppend(model, a, b[..|b| - 1]);
    }
  }

  lemma NoTurns(model: string)
    ensures TurnsOn(model, Messages([])) == [] && TurnTexts([]) == []
  {
  }

  lemma {:induction false} TurnsHaveTexts(model: string, actions: seq<Action>)
    ensures var turns := TurnsOn(model, Messages(actions));
            |turns| == |TurnTexts(actions)| && forall k :: 0 <= k < |turns| ==> turns[k].text == TurnTexts(actions)[k]
  {
    hide TurnsOn, LastNamed;
    if actions == [] {
      NoTurns(model);
    } else {
      var front, last := actions[..|actions| - 1], actions[|actions| - 1];
      TurnsHaveTexts(model, front);
      if last.Send? {
        OneMore(model, Messages(front), last.message);
      } else {
        assert Messages(front) + [] == Messages(front);
      }
    }
  }

  /**
    When Claude refuses no change: the turns that it ran are the first ones that were sent,
    in order, and each ran on the model that was named last before it was sent. So a turn
    runs on the model that it was submitted with if and only if that is the one.
   */
  lemma TurnsRunOnTheModelNamedLast(model: string, systems: seq<System>, moves: seq<Move>, i: nat)
    requires Runs(systems, moves) && systems[0] == Beginning(model) && i < |systems| && NoneRefused(moves, i)
    ensures var s := systems[i];
            && s.ran <= TurnsOn(model, Messages(s.w.actions))
            && |s.ran| <= |s.w.sent| == |TurnsOn(model, Messages(s.w.actions))|
            && forall k :: 0 <= k < |s.ran| ==> s.ran[k].text == s.w.sent[k].submission.text
  {
    hide Runs, Messages, TurnsOn, TurnTexts, Linked, Submissions, Held, Completions, Issued, TablesOk;
    var s := systems[i];
    AllInStep(model, systems, moves, i);
    TurnsOnAppend(model, s.read, s.inbox);
    TurnsHaveTexts(model, s.w.actions);
    AllLinked(model, systems, moves, i);
    assert TurnTexts(s.w.actions) == Texts(s.w.sent);
  }

  /** When a turn is sent with its model and no change is pending, it is run on that model. */
  lemma SettledTurnRunsOnItsModel(
    model: string, systems: seq<System>, moves: seq<Move>, i: nat, j: nat, text: string, chosen: string)
    requires Runs(systems, moves) && systems[0] == Beginning(model) && i < j < |systems| && NoneRefused(moves, j)
    requires moves[i] == Operate(Submit(text, Some(chosen)))
    requires systems[i].w.s.pending == map[] && systems[i].w.s.model == chosen
    ensures var k := |systems[i].w.sent|; k < |systems[j].ran| ==> systems[j].ran[k] == Ran(text, chosen)
  {
    hide Moves, Messages, TurnsOn, Linked, InStep, LastNamed;
    assert Moves(systems[i], moves[i], systems[i + 1]);
    AllInStep(model, systems, moves, i);
    AllInStep(model, systems, moves, i + 1);
    AllInStep(model, systems, moves, j);
    AllLinked(model, systems, moves, i);
    RecordedIsWhatClaudeIsOn(model, systems, moves, i);
    TurnsRunOnTheModelNamedLast(model, systems, moves, i);
    TurnsRunOnTheModelNamedLast(model, systems, moves, j);
    SentAtOnce(model, systems[i], text, chosen, systems[i + 1]);
    ActionsGrow(systems, moves, i + 1, j);
    var more := systems[j].w.actions[|systems[i + 1].w.actions|..];
    assert systems[j].w.actions == systems[i + 1].w.actions + more;
    MessagesAppend(systems[i + 1].w.actions, more);
    TurnsOnAppend(model, Messages(systems[i + 1].w.actions), Messages(more));
  }

  lemma SentAtOnce(model: string, s: System, text: string, chosen: string, s': System)
    requires InStep(model, s) && Linked(s) && Moves(s, Operate(Submit(text, Some(chosen))), s')
    requires s.w.s.pending == map[] && s.w.s.model == chosen == s.on
    requires |s.w.sent| == |TurnsOn(model, Messages(s.w.actions))|
    ensures var turns := TurnsOn(model, Messages(s'.w.actions)); |s.w.sent| < |turns| && turns[|s.w.sent|] == Ran(text, chosen)
  {
    hide Messages, Linked, TurnsOn, LastNamed;
    assert s'.w.actions == s.w.actions + [Send(UserTurn(text))];
    MessagesAppend(s.w.actions, [Send(UserTurn(text))]);
    OneMessage(Send(UserTurn(text)));
    OneMore(model, Messages(s.w.actions), UserTurn(text));
    NoChangeUnread(s);
    TurnsOnAppend(model, s.read, s.inbox);
  }

  lemma NoChangeUnread(s: System)
    requires Linked(s) && s.w.s.pending == map[]
    ensures forall k :: 0 <= k < |s.inbox| ==> !s.inbox[k].SetModel?
  {
    hide Heard, Different, Unanswered;
    forall k | 0 <= k < |s.inbox| ensures !s.inbox[k].SetModel? {
      assert Matches(s.inbox[k], Models(s.w.s.pending), s.w.s.pendingInterrupts);
    }
  }

  lemma {:induction false} ActionsGrow(systems: seq<System>, moves: seq<Move>, i: nat, j: nat)
    requires Runs(systems, moves) && i <= j < |systems|
    ensures systems[i].w.actions <= systems[j].w.actions
  {
    hide Step, Messages;
    if i < j {
      ActionsGrow(systems, moves, i, j - 1);
      assert Moves(systems[j - 1], moves[j - 1], systems[j - 1 + 1]);
    }
  }

  /**
    A turn that is submitted with the recorded model while a change to another one is
    pending is sent at once, behind the change, and runs on the other model.
   */
  lemma TurnRunsOnAnotherModel(a: string, b: string)
    requires a != b
    ensures exists systems: seq<System>, moves: seq<Move> ::
              && Runs(systems, moves) && systems[0] == Beginning(a)
              && moves == [Operate(Choose(b)), Operate(Submit("text", Some(a))), Work(true, ""), Work(true, "")]
              && systems[4].ran == [Ran("text", b)]
              && systems[4].w.sent == [Sending(Submission("text", Some(a)), a)]
  {
    hide Moves, ByAnother, ByAnotherMoves;
    ByAnotherRuns(a, b);
    assert Runs(ByAnother(a, b), ByAnotherMoves(a, b));
    ByAnotherEnds(a, b);
  }

  function Asked(a: string, b: string): World {
    var w := Beginning(a).w;
    w.(s := Requested(w.s, b, None).0, actions := [Send(SetModel(ModelId(1), b))])
  }

  function Sent(a: string, b: string): World {
    Asked(a, b).(actions := [Send(SetModel(ModelId(1), b)), Send(UserTurn("text"))],
                 submitted := multiset{Submission("text", Some(a))}, sent := [Sending(Submission("text", Some(a)), a)])
  }

  function ByAnother(a: string, b: string): seq<System> {
    var ask, turn, reply := SetModel(ModelId(1), b), UserTurn("text"), Reply(ModelId(1), true, "");
    [ Beginning(a), System(Asked(a, b), [], [ask], [], a, []), System(Sent(a, b), [], [ask, turn], [], a, []),
      System(Sent(a, b), [ask], [turn], [reply], b, []), System(Sent(a, b), [ask, turn], [], [reply], b, [Ran("text", b)]) ]
  }

  function ByAnotherMoves(a: string, b: string): seq<Move> {
    [Operate(Choose(b)), Operate(Submit("text", Some(a))), Work(true, ""), Work(true, "")]
  }

  lemma ByAnotherEnds(a: string, b: string)
    ensures ByAnother(a, b)[0] == Beginning(a) && ByAnother(a, b)[4].ran == [Ran("text", b)]
    ensures ByAnother(a, b)[4].w.sent == [Sending(Submission("text", Some(a)), a)]
    ensures ByAnotherMoves(a, b) == [Operate(Choose(b)), Operate(Submit("text", Some(a))), Work(true, ""), Work(true, "")]
  {
  }

  lemma ByAnotherRuns(a: string, b: string)
    requires a != b
    ensures Runs(ByAnother(a, b), ByAnotherMoves(a, b))
  {
    hide Moves;
    FirstMove(a, b);
    SecondMove(a, b);
    WorkMoves(a, b);
  }

  lemma FirstMove(a: string, b: string)
    requires a != b
    ensures Moves(ByAnother(a, b)[0], ByAnotherMoves(a, b)[0], ByAnother(a, b)[1])
  {
    hide ModelId, Messages;
    var ask := Send(SetModel(ModelId(1), b));
    OneMessage(ask);
    assert Asked(a, b).actions[0..] == [ask] && [] + [ask] == [ask];
    assert Step(Beginning(a).w, Choose(b), Asked(a, b));
  }

  lemma SecondMove(a: string, b: string)
    requires a != b
    ensures Moves(ByAnother(a, b)[1], ByAnotherMoves(a, b)[1], ByAnother(a, b)[2])
  {
    hide ModelId, Messages;
    var turn := Send(UserTurn("text"));
    OneMessage(turn);
    assert Sent(a, b).actions == Asked(a, b).actions + [turn] && Sent(a, b).actions[1..] == [turn];
    assert Sends(Asked(a, b).s, "text", Some(a), Sent(a, b).s, [turn]);
    assert Step(Asked(a, b), Submit("text", Some(a)), Sent(a, b));
  }

  lemma WorkMoves(a: string, b: string)
    ensures Moves(ByAnother(a, b)[2], ByAnotherMoves(a, b)[2], ByAnother(a, b)[3])
    ensures Moves(ByAnother(a, b)[3], ByAnotherMoves(a, b)[3], ByAnother(a, b)[4])
  {
    hide ModelId, Messages, Asked, Sent;
    assert [SetModel(ModelId(1), b), UserTurn("text")][1..] == [UserTurn("text")];
  }
}

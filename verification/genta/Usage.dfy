/**
  What turns and threads spend, when the provider states only one of the two.

  Counters are 64-bit. Adding wraps around, as in a build without overflow checks.
 */
module Usage {
  import opened Wrappers

  const WIDTH: nat := 0x1_0000_0000_0000_0000

  datatype TokenUsage = TokenUsage(input: nat, cached: nat, output: nat, reasoning: nat) {
    /** What was spent between `earlier` and here; never negative. */
    function Since(earlier: Option<TokenUsage>): TokenUsage {
      match earlier
      case None => this
      case Some(e) => TokenUsage(Less(input, e.input), Less(cached, e.cached), Less(output, e.output), Less(reasoning, e.reasoning))
    }

    function Plus(other: TokenUsage): TokenUsage { Added(this, other).Wrapped() }

    function Wrapped(): TokenUsage { TokenUsage(Wrap(input), Wrap(cached), Wrap(output), Wrap(reasoning)) }

    /** Within 64 bits. */
    predicate Fits() { input < WIDTH && cached < WIDTH && output < WIDTH && reasoning < WIDTH }

    /** No counter is higher than in `other`. */
    predicate AtMost(other: TokenUsage) {
      input <= other.input && cached <= other.cached && output <= other.output && reasoning <= other.reasoning
    }
  }

  function Wrap(n: nat): (r: nat)
    ensures r < WIDTH && (n < WIDTH ==> r == n)
  {
    n % WIDTH
  }

  const ZERO := TokenUsage(0, 0, 0, 0)

  function Less(a: nat, b: nat): nat { if a >= b then a - b else 0 }

  /** The exact sum, without a limit. */
  function Added(a: TokenUsage, b: TokenUsage): TokenUsage {
    TokenUsage(a.input + b.input, a.cached + b.cached, a.output + b.output, a.reasoning + b.reasoning)
  }

  datatype Event =
    | ThreadStarted
    | TurnStarted
    | UsageUpdated(usage: TokenUsage)
    | TurnCompleted(turn: Option<TokenUsage>, total: Option<TokenUsage>)
    | OtherEvent

  datatype Tracker = Tracker(running: Option<TokenUsage>, turnStart: Option<TokenUsage>, accumulated: Option<TokenUsage>)

  const NEW := Tracker(None, None, None)

  function AddTurn(total: Option<TokenUsage>, turn: TokenUsage): TokenUsage {
    match total case Some(t) => t.Plus(turn) case None => turn
  }

  function Observed(t: Tracker, event: Event): (Tracker, Event) {
    match event
    case ThreadStarted => (NEW, event)
    case TurnStarted => (t.(turnStart := t.running), event)
    case UsageUpdated(usage) => (t.(running := Some(usage)), event)
    case TurnCompleted(turn, total) =>
      var derived := if t.running.Some? then Some(t.running.value.Since(t.turnStart)) else None;
      var turn' := Or(turn, derived);
      var accumulated := if turn'.Some? then Some(AddTurn(t.accumulated, turn'.value)) else t.accumulated;
      (Tracker(t.running, t.running, accumulated), TurnCompleted(turn', Or(total, Or(t.running, accumulated))))
    case OtherEvent => (t, event)
  }

  class UsageTracker {
    var running: Option<TokenUsage>
    var turnStart: Option<TokenUsage>
    var accumulated: Option<TokenUsage>

    constructor ()
      ensures Now() == NEW
    {
      running, turnStart, accumulated := None, None, None;
    }

    ghost function Now(): Tracker
      reads this
    {
      Tracker(running, turnStart, accumulated)
    }

    /** Note what the event says, and fill in what a turn's end leaves out. */
    method Observe(event: Event) returns (filled: Event)
      modifies this
      ensures (Now(), filled) == Observed(old(Now()), event)
    {
      filled := event;
      match event {
        case ThreadStarted => running, turnStart, accumulated := None, None, None;
        case TurnStarted => turnStart := running;
        case UsageUpdated(usage) => running := Some(usage);
        case TurnCompleted(_, _) =>
          if filled.turn.None? && running.Some? {
            filled := filled.(turn := Some(running.value.Since(turnStart)));
          }
          if filled.turn.Some? {
            accumulated := Some(match accumulated case Some(total) => total.Plus(filled.turn.value) case None => filled.turn.value);
          }
          if filled.total.None? {
            filled := filled.(total := if running.Some? then running else accumulated);
          }
          turnStart := running;
        case OtherEvent =>
      }
    }
  }

  /** A stream of events, observed in order by a new tracker. */
  function ObservedAll(events: seq<Event>): (Tracker, seq<Event>) {
    if events == [] then (NEW, []) else
      var (t, filled) := ObservedAll(events[..|events| - 1]);
      var (t', last) := Observed(t, events[|events| - 1]);
      (t', filled + [last])
  }

  /** The spends that turns state, since the last thread started. */
  function Spends(events: seq<Event>): seq<TokenUsage> {
    if events == [] then [] else
      var front := Spends(events[..|events| - 1]);
      match events[|events| - 1]
      case ThreadStarted => []
      case TurnCompleted(Some(turn), _) => front + [turn]
      case _ => front
  }

  function Sum(spends: seq<TokenUsage>): TokenUsage {
    if spends == [] then ZERO else Added(Sum(spends[..|spends| - 1]), spends[|spends| - 1])
  }

  /** The sum as the tracker can hold it; none, if nothing was spent. */
  function Total(spends: seq<TokenUsage>): Option<TokenUsage> {
    if spends == [] then None else Some(Sum(spends).Wrapped())
  }

  predicate AllFit(events: seq<Event>) {
    forall k :: 0 <= k < |events| ==>
      match events[k]
      case UsageUpdated(usage) => usage.Fits()
      case TurnCompleted(Some(turn), _) => turn.Fits()
      case _ => true
  }

  lemma WrapsOnce(a: TokenUsage, b: TokenUsage)
    requires b.Fits()
    ensures a.Wrapped().Plus(b) == Added(a, b).Wrapped()
    ensures b.Wrapped() == b
  {
    hide Wrap;
    ModAdds(a.input, b.input);
    ModAdds(a.cached, b.cached);
    ModAdds(a.output, b.output);
    ModAdds(a.reasoning, b.reasoning);
  }

  lemma ModAdds(a: nat, b: nat)
    ensures Wrap(Wrap(a) + b) == Wrap(a + b)
  {
    var q := a / WIDTH;
    assert a == q * WIDTH + a % WIDTH;
  }

  lemma TotalOfMore(spends: seq<TokenUsage>, turn: TokenUsage)
    requires turn.Fits()
    ensures Total(spends + [turn]) == Some(AddTurn(Total(spends), turn))
  {
    assert (spends + [turn])[..|spends|] == spends;
    WrapsOnce(Sum(spends), turn);
  }

  ghost predicate TrackerFits(t: Tracker) {
    (t.running.Some? ==> t.running.value.Fits()) && (t.turnStart.Some? ==> t.turnStart.value.Fits())
  }

  /**
    Whatever the provider states, the accumulated total is the sum of the spends that
    turns end up with, since the last thread started.
   */
  lemma {:induction false} AccumulatedIsTheSum(events: seq<Event>)
    requires AllFit(events)
    ensures var (t, filled) := ObservedAll(events);
            |filled| == |events| && TrackerFits(t) && t.accumulated == Total(Spends(filled))
  {
    hide Total, Sum;
    if events != [] {
      var front, event := events[..|events| - 1], events[|events| - 1];
      AccumulatedIsTheSum(front);
      var (t, filled) := ObservedAll(front);
      var (t', last) := Observed(t, event);
      assert (filled + [last])[..|filled|] == filled;
      if event.TurnCompleted? && last.turn.Some? {
        assert last.turn.value.Fits();
        TotalOfMore(Spends(filled), last.turn.value);
      }
      NothingSpent();
    } else {
      NothingSpent();
    }
  }

  lemma NothingSpent()
    ensures Total([]) == None && Spends([]) == []
  {
  }

  // Providers that state only what each turn spent.

  predicate OnlyPerTurn(events: seq<Event>) {
    forall k :: 0 <= k < |events| ==> !events[k].UsageUpdated? && (events[k].TurnCompleted? ==> events[k].total.None?)
  }

  /**
    With only per-turn spends, each turn's own spend is left as it was stated, and its
    total is the componentwise sum, modulo 64 bits, of the spends stated since the
    last thread started, this one included.
   */
  lemma {:induction false} PerTurnTotalsAreSums(events: seq<Event>, k: nat)
    requires AllFit(events) && OnlyPerTurn(events) && k < |events|
    ensures var (t, filled) := ObservedAll(events);
            && |filled| == |events| && t.running == None && t.turnStart == None
            && filled[k] == if events[k].TurnCompleted?
                            then TurnCompleted(events[k].turn, Total(Spends(events[..k + 1])))
                            else events[k]
    decreases |events|
  {
    hide Total, Sum, TokenUsage.Fits;
    var front, event := events[..|events| - 1], events[|events| - 1];
    NeverRunning(front);
    AccumulatedIsTheSum(front);
    AccumulatedIsTheSum(events);
    SameSpends(front);
    SameSpends(events);
    if k == |events| - 1 {
      assert events[..k + 1] == events;
    } else {
      PerTurnTotalsAreSums(front, k);
      assert events[..k + 1] == front[..k + 1];
    }
  }

  lemma {:induction false} NeverRunning(events: seq<Event>)
    requires OnlyPerTurn(events)
    ensures ObservedAll(events).0.running == None && ObservedAll(events).0.turnStart == None
  {
    if events != [] {
      NeverRunning(events[..|events| - 1]);
    }
  }

  lemma {:induction false} SameSpends(events: seq<Event>)
    requires OnlyPerTurn(events)
    ensures Spends(ObservedAll(events).1) == Spends(events)
  {
    if events != [] {
      var front := events[..|events| - 1];
      SameSpends(front);
      NeverRunning(front);
      var (t, filled) := ObservedAll(front);
      var last := Observed(t, events[|events| - 1]).1;
      assert (filled + [last])[..|filled|] == filled;
    }
  }

  // Providers that state only running totals.

  /** The running total last stated in this thread, or nothing. */
  function Running(events: seq<Event>): TokenUsage {
    if events == [] then ZERO else
      match events[|events| - 1]
      case ThreadStarted => ZERO
      case UsageUpdated(usage) => usage
      case _ => Running(events[..|events| - 1])
  }

  /** Within a thread, running totals never go down, and nothing else is stated. */
  predicate OnlyRunning(events: seq<Event>) {
    events == [] || (
      && OnlyRunning(events[..|events| - 1])
      && match events[|events| - 1]
         case UsageUpdated(usage) => usage.Fits() && Running(events[..|events| - 1]).AtMost(usage)
         case TurnCompleted(turn, total) => turn == None && total == None
         case _ => true)
  }

  /** The running total at the last start or end of a turn in this thread. */
  function Baseline(events: seq<Event>): TokenUsage {
    if events == [] then ZERO else
      match events[|events| - 1]
      case ThreadStarted => ZERO
      case TurnStarted => Running(events)
      case TurnCompleted(_, _) => Running(events)
      case _ => Baseline(events[..|events| - 1])
  }

  /** What the running total grew by from the end of a turn to the start of the next, over the thread. */
  function BetweenTurns(events: seq<Event>): TokenUsage {
    if events == [] then ZERO else
      var front := events[..|events| - 1];
      match events[|events| - 1]
      case ThreadStarted => ZERO
      case TurnStarted => Added(BetweenTurns(front), Running(front).Since(Some(Baseline(front))))
      case _ => BetweenTurns(front)
  }

  function OrZero(u: Option<TokenUsage>): TokenUsage { match u case Some(v) => v case None => ZERO }

  lemma {:induction false} BaselineIsBelow(events: seq<Event>)
    requires OnlyRunning(events)
    ensures Baseline(events).AtMost(Running(events)) && Running(events).Fits()
  {
    if events != [] {
      BaselineIsBelow(events[..|events| - 1]);
    }
  }

  /** The tracker knows the running total and the baseline. */
  lemma {:induction false} TrackerFollows(events: seq<Event>)
    requires OnlyRunning(events)
    ensures var t := ObservedAll(events).0;
            && OrZero(t.running) == Running(events) && OrZero(t.turnStart) == Baseline(events)
            && (t.running.None? ==> t.turnStart.None?)
  {
    if events != [] {
      TrackerFollows(events[..|events| - 1]);
    }
  }

  lemma SinceAddsBack(earlier: TokenUsage, now: TokenUsage)
    requires earlier.AtMost(now)
    ensures Added(earlier, now.Since(Some(earlier))) == now && Added(ZERO, now.Since(None)) == now
  {
  }

  lemma Regroup(a: TokenUsage, b: TokenUsage, c: TokenUsage)
    ensures Added(Added(a, c), b) == Added(Added(a, b), c) == Added(a, Added(b, c))
  {
  }

  lemma SumSnoc(spends: seq<TokenUsage>, last: TokenUsage)
    ensures Sum(spends + [last]) == Added(Sum(spends), last)
  {
    assert (spends + [last])[..|spends|] == spends;
  }

  lemma SpendsSnoc(events: seq<Event>, event: Event)
    ensures Spends(events + [event])
         == if event.ThreadStarted? then []
            else if event.TurnCompleted? && event.turn.Some? then Spends(events) + [event.turn.value]
            else Spends(events)
  {
    assert (events + [event])[..|events|] == events;
  }

  /** The spend that the end of a turn derives leads from the baseline to the running total. */
  lemma TurnSpend(events: seq<Event>)
    requires OnlyRunning(events)
    ensures var t := ObservedAll(events).0;
            var turn := Observed(t, TurnCompleted(None, None)).1.turn;
            Added(Baseline(events), OrZero(turn)) == Running(events)
  {
    hide Added, TokenUsage.Since, TokenUsage.Plus, Baseline, Running, TokenUsage.AtMost, ObservedAll;
    TrackerFollows(events);
    BaselineIsBelow(events);
    var t := ObservedAll(events).0;
    if t.running.Some? {
      SinceAddsBack(OrZero(t.turnStart), t.running.value);
    } else {
      AddNothing(ZERO);
    }
  }

  lemma AddNothing(a: TokenUsage)
    ensures Added(a, ZERO) == a
  {
  }

  /** What the turns spent and what was spent between them make up the running total at the baseline. */
  lemma {:induction false} SpendsAddUp(events: seq<Event>)
    requires OnlyRunning(events)
    ensures Added(Sum(Spends(ObservedAll(events).1)), BetweenTurns(events)) == Baseline(events)
  {
    if events == [] {
      AddNothing(ZERO);
    } else {
      var front, event := events[..|events| - 1], events[|events| - 1];
      SpendsAddUp(front);
      SpendsAddUpStep(events, front, event);
    }
  }

  lemma SpendsAddUpStep(events: seq<Event>, front: seq<Event>, event: Event)
    requires events != [] && front == events[..|events| - 1] && event == events[|events| - 1]
    requires OnlyRunning(events) && OnlyRunning(front)
    requires Added(Sum(Spends(ObservedAll(front).1)), BetweenTurns(front)) == Baseline(front)
    ensures Added(Sum(Spends(ObservedAll(events).1)), BetweenTurns(events)) == Baseline(events)
  {
    hide Added, TokenUsage.Since, TokenUsage.Plus, TokenUsage.AtMost, Sum, Spends;
    BaselineIsBelow(front);
    AddNothing(ZERO);
    var (t, filled) := ObservedAll(front);
    var last := Observed(t, event).1;
    SpendsSnoc(filled, last);
    match event
    case ThreadStarted => EmptySum();
    case TurnStarted =>
      SinceAddsBack(Baseline(front), Running(front));
      Regroup(Sum(Spends(filled)), BetweenTurns(front), Running(front).Since(Some(Baseline(front))));
    case TurnCompleted(_, _) =>
      TurnSpend(front);
      AddNothing(Baseline(front));
      if last.turn.Some? {
        SumSnoc(Spends(filled), last.turn.value);
        Regroup(Sum(Spends(filled)), BetweenTurns(front), last.turn.value);
      }
    case _ =>
  }

  lemma EmptySum()
    ensures Sum([]) == ZERO
  {
  }

  lemma OnlyRunningFits(events: seq<Event>)
    requires OnlyRunning(events)
    ensures AllFit(events)
  {
    if events != [] {
      var front := events[..|events| - 1];
      OnlyRunningFits(front);
      assert forall k :: 0 <= k < |front| ==> front[k] == events[k];
    }
  }

  lemma SmallSumIsExact(sum: TokenUsage, limit: TokenUsage)
    requires sum.AtMost(limit) && limit.Fits()
    ensures sum.Wrapped() == sum
  {
    hide Wrap;
  }

  /**
    With only running totals, the spends derived for the turns of a thread never add up
    to more than its running total, so that adding them never overflows. At the end of a
    turn, what they miss is exactly what the total grew by between turns: they add up to
    the running total if and only if that is nothing.
   */
  lemma DerivedSpendsAddUp(events: seq<Event>)
    requires OnlyRunning(events) && events != [] && events[|events| - 1].TurnCompleted?
    ensures var (t, filled) := ObservedAll(events);
            var sum := Sum(Spends(filled));
            && Added(sum, BetweenTurns(events)) == Running(events)
            && sum.AtMost(Running(events)) && Running(events).Fits()
            && (sum == Running(events) <==> BetweenTurns(events) == ZERO)
            && OrZero(t.accumulated) == sum
            && OrZero(filled[|filled| - 1].total) == Running(events)
  {
    hide Sum, Spends, BetweenTurns, OnlyRunning, AllFit, TokenUsage.Wrapped, TokenUsage.AtMost, TokenUsage.Fits,
         Added, ObservedAll, Running, Baseline, Total;
    var sum := Sum(Spends(ObservedAll(events).1));
    SpendsAddUp(events);
    BaselineIsBelow(events);
    EndIsBaseline(events);
    OnlyRunningFits(events);
    AccumulatedIsTheSum(events);
    LastTotal(events);
    Remainder(sum, BetweenTurns(events), Running(events));
    SmallSumIsExact(sum, Running(events));
    TotalOrZero(Spends(ObservedAll(events).1));
  }

  lemma EndIsBaseline(events: seq<Event>)
    requires events != [] && events[|events| - 1].TurnCompleted?
    ensures Baseline(events) == Running(events)
  {
  }

  lemma Remainder(sum: TokenUsage, rest: TokenUsage, whole: TokenUsage)
    requires Added(sum, rest) == whole
    ensures sum.AtMost(whole) && (sum == whole <==> rest == ZERO)
  {
  }

  lemma TotalOrZero(spends: seq<TokenUsage>)
    ensures OrZero(Total(spends)) == Sum(spends).Wrapped()
  {
  }

  /** With a running total, or nothing at all, that is what the end of a turn reports. */
  lemma LastTotal(events: seq<Event>)
    requires OnlyRunning(events) && events != [] && events[|events| - 1].TurnCompleted?
    ensures var filled := ObservedAll(events).1;
            filled != [] && filled[|filled| - 1].TurnCompleted? && OrZero(filled[|filled| - 1].total) == Running(events)
  {
    hide Sum, Spends, BetweenTurns, AllFit, TokenUsage.Since, TokenUsage.Plus, TokenUsage.Wrapped;
    var front := events[..|events| - 1];
    TrackerFollows(front);
    NoSpendWithoutTotal(front);
  }

  /** As long as no running total is known in this thread, no turn has a known spend. */
  lemma {:induction false} NoSpendWithoutTotal(events: seq<Event>)
    requires OnlyRunning(events)
    ensures var t := ObservedAll(events).0; t.running.None? ==> t.accumulated.None?
  {
    hide TokenUsage.Since, TokenUsage.Plus;
    if events != [] {
      NoSpendWithoutTotal(events[..|events| - 1]);
    }
  }

  /** Whether a turn is on. */
  predicate InTurn(events: seq<Event>) {
    events != [] &&
    match events[|events| - 1]
    case TurnStarted => true
    case TurnCompleted(_, _) => false
    case ThreadStarted => false
    case _ => InTurn(events[..|events| - 1])
  }

  /** Totals are stated only while a turn is on. */
  predicate OnlyDuringTurns(events: seq<Event>) {
    forall k :: 0 <= k < |events| && events[k].UsageUpdated? ==> InTurn(events[..k])
  }

  /** Outside a turn nothing has been stated since the baseline, and so nothing is lost. */
  lemma {:induction false} NothingBetweenTurns(events: seq<Event>)
    requires OnlyRunning(events) && OnlyDuringTurns(events) && TurnsDoNotNest(events)
    ensures BetweenTurns(events) == ZERO
    ensures !InTurn(events) ==> Running(events) == Baseline(events)
  {
    hide Added, TokenUsage.Since, TokenUsage.AtMost, TokenUsage.Fits;
    if events != [] {
      var front := events[..|events| - 1];
      assert forall k :: 0 <= k < |front| ==> front[k] == events[k] && front[..k] == events[..k];
      NothingBetweenTurns(front);
      assert events[..|events| - 1] == front;
      NothingSince(Running(front));
      AddNothing(ZERO);
    }
  }

  lemma NothingSince(u: TokenUsage)
    ensures u.Since(Some(u)) == ZERO
  {
  }

  /** A turn starts only when none is on. */
  predicate TurnsDoNotNest(events: seq<Event>) {
    forall k :: 0 <= k < |events| && events[k].TurnStarted? ==> !InTurn(events[..k])
  }

  /** When totals are stated only during turns, the spends of the turns add up to the total. */
  lemma NothingIsLost(events: seq<Event>)
    requires OnlyRunning(events) && events != [] && events[|events| - 1].TurnCompleted?
    requires OnlyDuringTurns(events) && TurnsDoNotNest(events)
    ensures Sum(Spends(ObservedAll(events).1)) == Running(events)
  {
    hide Sum, Spends, ObservedAll;
    NothingBetweenTurns(events);
    DerivedSpendsAddUp(events);
  }

  function Input(n: nat): TokenUsage { TokenUsage(n, 0, 0, 0) }

  const END: Event := TurnCompleted(None, None)

  /** The events of two turns, with three tokens more before the second than after the first. */
  function TwoTurns(): seq<Event> {
    [TurnStarted, UsageUpdated(Input(10)), END, UsageUpdated(Input(13)), TurnStarted, UsageUpdated(Input(15)), END]
  }

  lemma BetweenSnoc(events: seq<Event>, e: Event)
    ensures Running(events + [e])
         == if e.ThreadStarted? then ZERO else if e.UsageUpdated? then e.usage else Running(events)
    ensures Baseline(events + [e])
         == if e.ThreadStarted? then ZERO else if e.TurnStarted? || e.TurnCompleted? then Running(events) else Baseline(events)
    ensures BetweenTurns(events + [e])
         == if e.ThreadStarted? then ZERO
            else if e.TurnStarted? then Added(BetweenTurns(events), Running(events).Since(Some(Baseline(events))))
            else BetweenTurns(events)
    ensures OnlyRunning(events + [e])
       <==> OnlyRunning(events) && (e.UsageUpdated? ==> e.usage.Fits() && Running(events).AtMost(e.usage))
                                && (e.TurnCompleted? ==> e == END)
  {
    hide Added, TokenUsage.Since, TokenUsage.AtMost, TokenUsage.Fits;
    assert (events + [e])[..|events|] == events;
  }

  lemma TwoTurnsGrow()
    ensures OnlyRunning(TwoTurns()) && Running(TwoTurns()) == Input(15) && BetweenTurns(TwoTurns()) == Input(3)
  {
    hide Running, Baseline, BetweenTurns, OnlyRunning;
    var e := TwoTurns();
    NoEvents();
    BetweenSnoc([], e[0]);
    BetweenSnoc(e[..1], e[1]);
    BetweenSnoc(e[..2], e[2]);
    BetweenSnoc(e[..3], e[3]);
    BetweenSnoc(e[..4], e[4]);
    BetweenSnoc(e[..5], e[5]);
    BetweenSnoc(e[..6], e[6]);
    assert e[..1] == [] + [e[0]] && e[..2] == e[..1] + [e[1]] && e[..3] == e[..2] + [e[2]] && e[..4] == e[..3] + [e[3]];
    assert e[..5] == e[..4] + [e[4]] && e[..6] == e[..5] + [e[5]] && e == e[..6] + [e[6]];
  }

  lemma NoEvents()
    ensures OnlyRunning([]) && Running([]) == Baseline([]) == BetweenTurns([]) == ZERO
  {
  }

  /** What a running total grows by between turns is in no turn's spend: here twelve tokens of fifteen are. */
  lemma SpendBetweenTurnsIsLost()
    ensures OnlyRunning(TwoTurns()) && Running(TwoTurns()) == Input(15)
    ensures Sum(Spends(ObservedAll(TwoTurns()).1)) == Input(12)
    ensures ObservedAll(TwoTurns()).0.accumulated == Some(Input(12))
  {
    hide Running, BetweenTurns, OnlyRunning, Spends, Sum, ObservedAll, TokenUsage.AtMost, TokenUsage.Fits, TokenUsage.Plus, Added, OrZero;
    TwoTurnsGrow();
    DerivedSpendsAddUp(TwoTurns());
    TwelveOfFifteen(Sum(Spends(ObservedAll(TwoTurns()).1)), ObservedAll(TwoTurns()).0.accumulated);
  }

  lemma TwelveOfFifteen(sum: TokenUsage, accumulated: Option<TokenUsage>)
    requires Added(sum, Input(3)) == Input(15) && OrZero(accumulated) == sum
    ensures sum == Input(12) && accumulated == Some(Input(12))
  {
  }

  // Whatever a provider states.

  /** The running total last stated in this thread. */
  function Known(events: seq<Event>): Option<TokenUsage> {
    if events == [] then None else
      match events[|events| - 1]
      case ThreadStarted => None
      case UsageUpdated(usage) => Some(usage)
      case _ => Known(events[..|events| - 1])
  }

  /** The running total that was known when a turn last started or ended in this thread. */
  function KnownAtTurn(events: seq<Event>): Option<TokenUsage> {
    if events == [] then None else
      match events[|events| - 1]
      case ThreadStarted => None
      case TurnStarted => Known(events)
      case TurnCompleted(_, _) => Known(events)
      case _ => KnownAtTurn(events[..|events| - 1])
  }

  lemma {:induction false} TrackerKnows(events: seq<Event>)
    ensures var t := ObservedAll(events).0; t.running == Known(events) && t.turnStart == KnownAtTurn(events)
  {
    hide TokenUsage.Since, TokenUsage.Plus;
    if events != [] { TrackerKnows(events[..|events| - 1]); }
  }

  /** The count now, less what it was; or none, if it went down. */
  predicate IsDifference(now: nat, before: nat, spent: nat) { spent == if now >= before then now - before else 0 }

  /**
    What the end of a turn reports, whatever was stated before: the spend that it states
    itself; else what each counter of the running total grew by since the last start or
    end of a turn, or all of it without one; else none. And the total that it states
    itself; else the running one; else the sum of the turns' spends.
   */
  lemma EndOfTurnReports(events: seq<Event>, turn: Option<TokenUsage>, total: Option<TokenUsage>)
    requires AllFit(events) && (turn.Some? ==> turn.value.Fits())
    ensures var (t, filled) := ObservedAll(events + [TurnCompleted(turn, total)]);
            var last, now, before := filled[|filled| - 1], Known(events), KnownAtTurn(events);
            && |filled| == |events| + 1 && last.TurnCompleted?
            && (turn.Some? ==> last.turn == turn)
            && (turn.None? && now.None? ==> last.turn == None)
            && (turn.None? && now.Some? && before.None? ==> last.turn == now)
            && (turn.None? && now.Some? && before.Some? ==>
                  && last.turn.Some?
                  && IsDifference(now.value.input, before.value.input, last.turn.value.input)
                  && IsDifference(now.value.cached, before.value.cached, last.turn.value.cached)
                  && IsDifference(now.value.output, before.value.output, last.turn.value.output)
                  && IsDifference(now.value.reasoning, before.value.reasoning, last.turn.value.reasoning))
            && last.total == (if total.Some? then total else if now.Some? then now else Total(Spends(filled)))
  {
    hide Total, Spends, TokenUsage.Plus, Known, KnownAtTurn;
    var e := TurnCompleted(turn, total);
    assert (events + [e])[..|events|] == events;
    TrackerKnows(events);
    FilledLength(events);
    StillFits(events, e);
    AccumulatedIsTheSum(events + [e]);
  }

  lemma {:induction false} FilledLength(events: seq<Event>)
    ensures |ObservedAll(events).1| == |events|
  {
    hide Observed;
    if events != [] { FilledLength(events[..|events| - 1]); }
  }

  lemma StillFits(events: seq<Event>, e: Event)
    requires AllFit(events) && e.TurnCompleted? && (e.turn.Some? ==> e.turn.value.Fits())
    ensures AllFit(events + [e])
  {
  }
}

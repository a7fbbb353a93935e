/** What is written of a session: the fields of each record, and what a conversion changes. */
module RecordWriting {
  import opened Wrappers
  import opened Text
  import opened Sessions

  /**
    A converted session reads back with the id that was asked for, else with the new one
    when the format changes, else with its own; and with the directory that was asked for,
    else its own. In Codex's format, so does the timestamp; in Claude's, it is that of the
    first message that is kept, if this has one.
   */
  lemma ConvertedSessionIs(
    show: Value -> string, records: seq<Value>, from: Format, to: Format, options: Options, freshId: string, uuids: nat -> string)
    requires Parse(show, records, from).Success?
    ensures var s, converted := Parse(show, records, from).value, Convert(show, records, from, to, options, freshId, uuids);
            && converted.Success?
            && var r := Parse(show, converted.value, to);
               r.Success? ==>
                 && r.value.id == (if options.id.Some? then options.id.value else if from == to then s.id else freshId)
                 && r.value.cwd == (if options.cwd.Some? then options.cwd.value else s.cwd)
                 && (to == Codex ==> r.value.timestamp == (if options.timestamp.Some? then options.timestamp.value else s.timestamp))
                 && (to == Claude && s.messages != [] && s.messages[0].timestamp.Some? ==>
                       Some(r.value.timestamp) == s.messages[0].timestamp)
                 && (to == Claude && s.messages != [] && s.messages[0].timestamp.None? ==>
                       r.value.timestamp == (if options.timestamp.Some? then options.timestamp.value else s.timestamp))
  {
    hide ParseClaude, ParseCodex, SerializeClaude, SerializeCodex, AsClaudeReads, Filled;
    ConvertedReads(show, records, from, to, options, freshId, uuids);
    var s := Edited(Parse(show, records, from).value, from, to, options, freshId);
    if to == Claude {
      ClaudeReadsBack(show, s, uuids);
    } else {
      CodexRoundTrip(s);
    }
  }

  lemma {:induction false} RecordAt(s: Session, uuids: nat -> string, from: nat, k: nat)
    requires from <= k < |s.messages|
    ensures |ClaudeRecords(s, uuids, from)| == |s.messages| - from
    ensures ClaudeRecords(s, uuids, from)[k - from]
         == ClaudeRecord(s, s.messages[k], uuids(k), if k == 0 then None else Some(uuids(k - 1)))
    decreases |s.messages| - from
  {
    hide ClaudeRecord;
    if from < k {
      RecordAt(s, uuids, from + 1, k);
    } else if from + 1 < |s.messages| {
      RecordAt(s, uuids, from + 1, from + 1);
    }
  }

  /** A Claude file has one record for each message, of its role, text and time, in the main conversation of the session. */
  lemma ClaudeRecordHas(s: Session, uuids: nat -> string, k: nat)
    requires k < |s.messages|
    ensures var records, m := SerializeClaude(s, uuids), s.messages[k];
            var role := if m.role == User then "user" else "assistant";
            && |records| == |s.messages|
            && var r := records[k];
               && Str(r, FType) == Some(role) && Get(r, FIsSidechain) == Some(Bool(false))
               && Str(r, FCwd) == Some(s.cwd) && Str(r, FSessionId) == Some(s.id) && Str(r, FVersion) == Some("genta")
               && Str(r, FTimestamp) == Some(if m.timestamp.Some? then m.timestamp.value else s.timestamp)
               && Get(r, FMessage)
                  == Some(Object(map[FRole := String(role),
                                     FContent := Array([Object(map[FType := String("text"), FText := String(m.text)])])]))
               && Get(r, FUserType) == (if m.role == User then Some(String("external")) else None)
  {
    hide ClaudeRecord;
    RecordAt(s, uuids, 0, k);
    OneRecordHas(s, s.messages[k], uuids(k), if k == 0 then None else Some(uuids(k - 1)));
  }

  lemma OneRecordHas(s: Session, m: Message, uuid: string, parent: Option<string>)
    ensures var r, role := ClaudeRecord(s, m, uuid, parent), if m.role == User then "user" else "assistant";
            && Str(r, FType) == Some(role) && Get(r, FIsSidechain) == Some(Bool(false))
            && Str(r, FCwd) == Some(s.cwd) && Str(r, FSessionId) == Some(s.id) && Str(r, FVersion) == Some("genta")
            && Str(r, FTimestamp) == Some(if m.timestamp.Some? then m.timestamp.value else s.timestamp)
            && Get(r, FMessage)
               == Some(Object(map[FRole := String(role),
                                  FContent := Array([Object(map[FType := String("text"), FText := String(m.text)])])]))
            && Get(r, FUserType) == (if m.role == User then Some(String("external")) else None)
  {
  }

  // Codex's.

  /** What a record of an event says: its kind and its text. */
  datatype Saying = Saying(stamp: Option<string>, kind: string, text: string)

  function SayingOf(r: Value): seq<Saying> {
    match Get(r, FPayload)
    case None => []
    case Some(payload) =>
      if Str(r, FType) != Some("event_msg") then [] else
        match (Str(payload, FType), Str(payload, FMessage))
        case (Some(kind), Some(text)) => [Saying(Str(r, FTimestamp), kind, text)]
        case _ => []
  }

  function Sayings(records: seq<Value>): seq<Saying> {
    if records == [] then [] else SayingOf(records[0]) + Sayings(records[1..])
  }

  /** The messages as events. */
  function SayingsOf(s: Session): (r: seq<Saying>)
    ensures |r| == |s.messages|
    ensures forall k :: 0 <= k < |r| ==>
              r[k] == Saying(Some(if s.messages[k].timestamp.Some? then s.messages[k].timestamp.value else s.timestamp),
                             if s.messages[k].role == User then "user_message" else "agent_message", s.messages[k].text)
  {
    seq(|s.messages|, k requires 0 <= k < |s.messages| =>
      Saying(Some(StampOf(s.messages[k], s)), if s.messages[k].role == User then "user_message" else "agent_message", s.messages[k].text))
  }

  lemma {:induction false} SayingsAppend(a: seq<Value>, b: seq<Value>)
    ensures Sayings(a + b) == Sayings(a) + Sayings(b)
  {
    hide SayingOf;
    if a == [] {
      assert a + b == b;
    } else {
      assert (a + b)[1..] == a[1..] + b;
      SayingsAppend(a[1..], b);
    }
  }

  lemma OneSaying(r: Value)
    ensures Sayings([r]) == SayingOf(r)
  {
    assert [r][1..] == [] && Sayings([]) == [] && SayingOf(r) + [] == SayingOf(r);
  }

  lemma EventsSay(stamp: string, m: Message, turn: nat)
    ensures Sayings(CodexEvents(stamp, m, turn))
         == [Saying(Some(stamp), if m.role == User then "user_message" else "agent_message", m.text)]
  {
    hide TurnName;
    var events := CodexEvents(stamp, m, turn);
    if m.role == User {
      OneSaying(events[0]);
      OneSaying(events[1]);
      SayingsAppend([events[0]], [events[1]]);
      assert [events[0]] + [events[1]] == events;
    } else {
      OneSaying(events[0]);
    }
  }

  lemma ItemSaysNothing(stamp: string, m: Message)
    ensures Sayings([CodexItem(stamp, m)]) == []
  {
    OneSaying(CodexItem(stamp, m));
    assert "event_msg" != "response_item" by { assert |"event_msg"| == 9 && |"response_item"| == 13; }
  }

  lemma EndSaysNothing(s: Session, turn: nat)
    ensures Sayings(CodexEnd(s, turn)) == []
  {
    hide TurnName;
    if turn > 0 { OneSaying(CodexEnd(s, turn)[0]); }
  }

  lemma {:induction false} RecordsSay(s: Session, k: nat, turn: nat)
    requires k <= |s.messages|
    ensures Sayings(CodexRecords(s, k, turn)) == SayingsOf(s)[k..]
    decreases |s.messages| - k
  {
    hide Sayings, CodexEvents, CodexItem, CodexEnd;
    if k == |s.messages| {
      EndSaysNothing(s, turn);
    } else {
      var m := s.messages[k];
      var turn' := TurnAfter(turn, m);
      var events, item, rest := CodexEvents(StampOf(m, s), m, turn'), CodexItem(StampOf(m, s), m), CodexRecords(s, k + 1, turn');
      EventsSay(StampOf(m, s), m, turn');
      ItemSaysNothing(StampOf(m, s), m);
      RecordsSay(s, k + 1, turn');
      SayingsAppend(events + [item], rest);
      SayingsAppend(events, [item]);
      assert SayingsOf(s)[k..] == [SayingsOf(s)[k]] + SayingsOf(s)[k + 1..];
    }
  }

  /** The fields of a Codex file's first record. */
  predicate IsHeader(s: Session, r: Value) {
    && Str(r, FType) == Some("session_meta") && Str(r, FTimestamp) == Some(s.timestamp) && Get(r, FPayload).Some?
    && var payload := Get(r, FPayload).value;
       && Str(payload, FId) == Some(s.id) && Str(payload, FSession_Id) == Some(s.id)
       && Str(payload, FTimestamp) == Some(s.timestamp) && Str(payload, FCwd) == Some(s.cwd)
       && Str(payload, FOriginator) == Some("genta") && Str(payload, FCliVersion) == Some("0.1.0")
       && Str(payload, FSource) == Some("cli") && Str(payload, FModelProvider) == Some("openai")
       && Str(payload, FHistoryMode) == Some("legacy")
  }

  lemma HeaderHas(s: Session)
    ensures IsHeader(s, CodexHeader(s))
  {
  }

  lemma HeaderSaysNothing(s: Session)
    ensures SayingOf(CodexHeader(s)) == []
  {
    assert "session_meta" != "event_msg";
  }

  /**
    A Codex file begins with its session's id, directory and time, and says each message
    once as an event, in order.
   */
  lemma CodexFileHas(s: Session)
    ensures var records := SerializeCodex(s);
            records != [] && IsHeader(s, records[0]) && Sayings(records) == SayingsOf(s)
  {
    hide CodexRecords, CodexHeader, IsHeader, SayingOf;
    var records := SerializeCodex(s);
    assert records[0] == CodexHeader(s) && records[1..] == CodexRecords(s, 0, 0);
    RecordsSay(s, 0, 0);
    HeaderHas(s);
    HeaderSaysNothing(s);
    assert [] + Sayings(records[1..]) == Sayings(records[1..]) && SayingsOf(s)[0..] == SayingsOf(s);
  }

  /** The last record of a file with turns completes the last one, by its name, at the session's time. */
  lemma CompletionIs(s: Session, turn: nat)
    requires turn > 0
    ensures |CodexEnd(s, turn)| == 1
    ensures var r := CodexEnd(s, turn)[0];
            && Str(r, FType) == Some("event_msg") && Str(r, FTimestamp) == Some(s.timestamp)
            && Get(r, FPayload)
               == Some(Object(map[FType := String("turn_complete"), FTurnId := String("genta-import-turn-" + Decimal(turn)),
                                  FLastAgentMessage := Null, FError := Null]))
  {
    hide Decimal;
  }
}

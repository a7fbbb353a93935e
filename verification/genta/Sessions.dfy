/**
  Converting recorded sessions between the formats of Claude Code and the Codex CLI.

  A session file is a sequence of JSON records. `show` stands for the text of a JSON
  value, and `uuids` for the fresh ids that the Claude records get.
 */
module Sessions {
  import opened Wrappers
  import opened Text

  /** The names of the fields that are read or written. */
  datatype Field =
    | FType | FTimestamp | FPayload | FId | FSessionId | FSession_Id | FCwd | FRole | FContent | FText | FMessage
    | FName | FInput | FIsError | FIsMeta | FIsSidechain | FUuid | FParentUuid | FUserType | FVersion | FRefusal
    | FTurnId | FKind | FLastAgentMessage | FError | FOriginator | FCliVersion | FSource | FModelProvider | FHistoryMode
    | FOther(name: string)

  datatype Value =
    | Null
    | Bool(b: bool)
    | Number(n: int)
    | String(s: string)
    | Array(items: seq<Value>)
    | Object(fields: map<Field, Value>)

  datatype Role = User | Assistant

  datatype Message = Message(role: Role, text: string, timestamp: Option<string>)

  datatype Session = Session(id: string, cwd: string, timestamp: string, messages: seq<Message>)

  datatype Format = Codex | Claude

  datatype SessionError = NoSessionId | NoCwd | NoTimestamp | NoSessionMeta | NoPayload | NoId

  datatype Options = Options(id: Option<string>, cwd: Option<string>, timestamp: Option<string>, keepMessages: Option<nat>)

  const VERSION := "genta"
  const PACKAGE_VERSION := "0.1.0"

  function Get(v: Value, key: Field): Option<Value> {
    if v.Object? && key in v.fields then Some(v.fields[key]) else None
  }

  function Str(v: Value, key: Field): Option<string> {
    match Get(v, key) case Some(String(s)) => Some(s) case _ => None
  }

  predicate IsTrue(v: Value, key: Field) { Get(v, key) == Some(Bool(true)) }

  /** The first value that `f` has for a record. */
  function FirstOf<T>(f: Value -> Option<T>, records: seq<Value>): Option<T>
    decreases |records|
  {
    if records == [] then None else Or(f(records[0]), FirstOf(f, records[1..]))
  }

  function Join(parts: seq<string>, separator: string): string {
    if parts == [] then "" else if |parts| == 1 then parts[0] else parts[0] + separator + Join(parts[1..], separator)
  }

  // Reading Claude's records.

  function ResultTexts(blocks: seq<Value>): seq<string> {
    if blocks == [] then [] else
      (match Str(blocks[0], FText) case Some(text) => [text] case None => []) + ResultTexts(blocks[1..])
  }

  function ToolResultText(content: Option<Value>): string {
    match content
    case Some(String(text)) => text
    case Some(Array(blocks)) => Join(ResultTexts(blocks), "\n")
    case _ => ""
  }

  function ToolCallNote(show: Value -> string, block: Value): string {
    var name := match Str(block, FName) case Some(name) => name case None => "unknown";
    var input := match Get(block, FInput) case Some(input) => input case None => Null;
    "[external_agent_tool_call: " + name + "]\ninput: " + show(input) + "\n[/external_agent_tool_call]"
  }

  function ToolResultNote(block: Value): string {
    "[external_agent_tool_result" + (if IsTrue(block, FIsError) then ": error" else "") + "]\n"
    + ToolResultText(Get(block, FContent)) + "\n[/external_agent_tool_result]"
  }

  /** What one content block contributes to the text. */
  function ClaudePart(show: Value -> string, block: Value): seq<string> {
    match Str(block, FType)
    case None => []
    case Some(kind) =>
      if kind == "text" then (match Str(block, FText) case Some(text) => [text] case None => [])
      else if kind == "tool_use" then [ToolCallNote(show, block)]
      else if kind == "tool_result" then [ToolResultNote(block)]
      else if kind == "thinking" || kind == "redacted_thinking" then []
      else ["[external unsupported block: " + kind + "]"]
  }

  function ClaudeParts(show: Value -> string, blocks: seq<Value>): seq<string>
    decreases |blocks|
  {
    if blocks == [] then [] else ClaudePart(show, blocks[0]) + ClaudeParts(show, blocks[1..])
  }

  function JoinParts(parts: seq<string>): Option<string> { if parts == [] then None else Some(Join(parts, "\n\n")) }

  function ClaudeContent(show: Value -> string, content: Option<Value>): Option<string> {
    match content
    case Some(String(text)) => if text == "" then None else Some(text)
    case Some(Array(blocks)) => JoinParts(ClaudeParts(show, blocks))
    case _ => None
  }

  const OPEN_TAG := "<user_query>"
  const CLOSE_TAG := "</user_query>"

  /** What is inside the tags, if the text is a query in tags and not a blank one. */
  function TaggedQuery(text: string): Option<string> {
    match StripPrefix(Trim(text), OPEN_TAG)
    case None => None
    case Some(inner) =>
      match StripSuffix(inner, CLOSE_TAG)
      case None => None
      case Some(query) => if Trim(query) == "" then None else Some(Trim(query))
  }

  function UnwrapUserQuery(text: string): string {
    match TaggedQuery(text) case Some(query) => query case None => text
  }

  function ClaudeRole(record: Value): Option<Role> {
    if IsTrue(record, FIsMeta) || IsTrue(record, FIsSidechain) then None
    else if Str(record, FType) == Some("user") then Some(User)
    else if Str(record, FType) == Some("assistant") then Some(Assistant)
    else None
  }

  function ClaudeMessage(show: Value -> string, record: Value): seq<Message> {
    match ClaudeRole(record)
    case None => []
    case Some(role) =>
      match ClaudeContent(show, match Get(record, FMessage) case Some(m) => Get(m, FContent) case None => None)
      case None => []
      case Some(text) =>
        [Message(role, if role == User then UnwrapUserQuery(text) else text, Str(record, FTimestamp))]
  }

  function ClaudeMessages(show: Value -> string, records: seq<Value>): seq<Message>
    decreases |records|
  {
    if records == [] then [] else ClaudeMessage(show, records[0]) + ClaudeMessages(show, records[1..])
  }

  function ClaudeId(record: Value): Option<string> { Or(Str(record, FSessionId), Str(record, FSession_Id)) }

  function RecordCwd(record: Value): Option<string> { Str(record, FCwd) }

  function RecordTimestamp(record: Value): Option<string> { Str(record, FTimestamp) }

  function SessionFrom(id: Option<string>, cwd: Option<string>, timestamp: Option<string>, messages: seq<Message>)
    : Result<Session, SessionError>
  {
    if id.None? then Failure(NoSessionId) else if cwd.None? then Failure(NoCwd) else if timestamp.None? then Failure(NoTimestamp)
    else Success(Session(id.value, cwd.value, timestamp.value, messages))
  }

  function ParseClaude(show: Value -> string, records: seq<Value>): Result<Session, SessionError> {
    SessionFrom(FirstOf(ClaudeId, records), FirstOf(RecordCwd, records), FirstOf(RecordTimestamp, records),
                ClaudeMessages(show, records))
  }

  // Reading Codex's records.

  function CodexPart(block: Value): seq<string> {
    match Str(block, FType)
    case None => []
    case Some(kind) =>
      if kind == "input_text" || kind == "output_text" then
        (match Str(block, FText) case Some(text) => [text] case None => [])
      else if kind == "refusal" then (match Str(block, FRefusal) case Some(text) => [text] case None => [])
      else ["[external unsupported Codex content: " + kind + "]"]
  }

  function CodexParts(blocks: seq<Value>): seq<string> {
    if blocks == [] then [] else CodexPart(blocks[0]) + CodexParts(blocks[1..])
  }

  function CodexContent(content: Option<Value>): Option<string> {
    match content
    case Some(Array(blocks)) => JoinParts(CodexParts(blocks))
    case _ => None
  }

  function CodexRole(item: Value): Option<Role> {
    if Str(item, FRole) == Some("user") then Some(User)
    else if Str(item, FRole) == Some("assistant") then Some(Assistant)
    else None
  }

  function CodexMessage(record: Value): seq<Message> {
    if Str(record, FType) != Some("response_item") then [] else
      match Get(record, FPayload)
      case None => []
      case Some(item) =>
        if Str(item, FType) != Some("message") || CodexRole(item).None? then [] else
          match CodexContent(Get(item, FContent))
          case None => []
          case Some(text) => [Message(CodexRole(item).value, text, Str(record, FTimestamp))]
  }

  function CodexMessages(records: seq<Value>): seq<Message> {
    if records == [] then [] else CodexMessage(records[0]) + CodexMessages(records[1..])
  }

  function SessionMeta(record: Value): Option<Value> {
    if Str(record, FType) == Some("session_meta") then Some(record) else None
  }

  function ParseCodex(records: seq<Value>): Result<Session, SessionError> {
    match FirstOf(SessionMeta, records)
    case None => Failure(NoSessionMeta)
    case Some(meta) =>
      match Get(meta, FPayload)
      case None => Failure(NoPayload)
      case Some(payload) =>
        var id := Or(Str(payload, FId), Str(payload, FSession_Id));
        if id.None? then Failure(NoId)
        else SessionFrom(id, Str(payload, FCwd), Or(Str(payload, FTimestamp), Str(meta, FTimestamp)), CodexMessages(records))
  }

  function Parse(show: Value -> string, records: seq<Value>, format: Format): Result<Session, SessionError> {
    match format case Claude => ParseClaude(show, records) case Codex => ParseCodex(records)
  }

  // Writing.

  function RoleName(role: Role): string { match role case User => "user" case Assistant => "assistant" }

  function StampOf(m: Message, s: Session): string {
    match m.timestamp case Some(stamp) => stamp case None => s.timestamp
  }

  function ClaudeRecord(s: Session, m: Message, uuid: string, parent: Option<string>): Value {
    var fields := map[
      FType := String(RoleName(m.role)),
      FUuid := String(uuid),
      FParentUuid := (match parent case Some(p) => String(p) case None => Null),
      FIsSidechain := Bool(false),
      FCwd := String(s.cwd),
      FSessionId := String(s.id),
      FVersion := String(VERSION),
      FTimestamp := String(StampOf(m, s)),
      FMessage := Object(map[
        FRole := String(RoleName(m.role)),
        FContent := Array([Object(map[FType := String("text"), FText := String(m.text)])])])];
    Object(if m.role == User then fields[FUserType := String("external")] else fields)
  }

  /** The records of the messages from the `k`th on. */
  function ClaudeRecords(s: Session, uuids: nat -> string, k: nat): seq<Value>
    decreases |s.messages| - k
  {
    if k >= |s.messages| then [] else
      [ClaudeRecord(s, s.messages[k], uuids(k), if k == 0 then None else Some(uuids(k - 1)))] + ClaudeRecords(s, uuids, k + 1)
  }

  function SerializeClaude(s: Session, uuids: nat -> string): seq<Value> { ClaudeRecords(s, uuids, 0) }

  function CodexRecord(stamp: string, kind: string, payload: map<Field, Value>): Value {
    Object(map[FTimestamp := String(stamp), FType := String(kind), FPayload := Object(payload)])
  }

  function CodexHeader(s: Session): Value {
    CodexRecord(s.timestamp, "session_meta", map[
      FSession_Id := String(s.id), FId := String(s.id), FTimestamp := String(s.timestamp), FCwd := String(s.cwd),
      FOriginator := String("genta"), FCliVersion := String(PACKAGE_VERSION), FSource := String("cli"),
      FModelProvider := String("openai"), FHistoryMode := String("legacy")])
  }

  function TurnName(turn: nat): Value { String("genta-import-turn-" + Decimal(turn)) }

  function CodexEvents(stamp: string, m: Message, turn: nat): seq<Value> {
    match m.role
    case User =>
      [ CodexRecord(stamp, "event_msg", map[FType := String("turn_started"), FTurnId := TurnName(turn)]),
        CodexRecord(stamp, "event_msg", map[FType := String("user_message"), FMessage := String(m.text), FKind := String("plain")]) ]
    case Assistant =>
      [ CodexRecord(stamp, "event_msg", map[FType := String("agent_message"), FMessage := String(m.text)]) ]
  }

  function CodexItem(stamp: string, m: Message): Value {
    CodexRecord(stamp, "response_item", map[
      FType := String("message"), FRole := String(RoleName(m.role)),
      FContent := Array([Object(map[
        FType := String(match m.role case User => "input_text" case Assistant => "output_text"), FText := String(m.text)])])])
  }

  function CodexEnd(s: Session, turn: nat): seq<Value> {
    if turn == 0 then [] else
      [CodexRecord(s.timestamp, "event_msg", map[
         FType := String("turn_complete"), FTurnId := TurnName(turn), FLastAgentMessage := Null, FError := Null])]
  }

  /** The turn that a message belongs to, after `turn` turns. */
  function TurnAfter(turn: nat, m: Message): nat { if m.role == User then turn + 1 else turn }

  /** The records of the messages from the `k`th on, after `turn` turns. */
  function CodexRecords(s: Session, k: nat, turn: nat): seq<Value>
    decreases |s.messages| - k
  {
    if k >= |s.messages| then CodexEnd(s, turn) else
      var m := s.messages[k];
      var turn' := TurnAfter(turn, m);
      CodexEvents(StampOf(m, s), m, turn') + [CodexItem(StampOf(m, s), m)] + CodexRecords(s, k + 1, turn')
  }

  function SerializeCodex(s: Session): seq<Value> { [CodexHeader(s)] + CodexRecords(s, 0, 0) }

  function Serialize(s: Session, format: Format, uuids: nat -> string): seq<Value> {
    match format case Claude => SerializeClaude(s, uuids) case Codex => SerializeCodex(s)
  }

  // Converting.

  /** The session that a conversion writes; `freshId` is a new id. */
  function Edited(s: Session, from: Format, to: Format, options: Options, freshId: string): Session {
    Session(
      if options.id.Some? then options.id.value else if from != to then freshId else s.id,
      if options.cwd.Some? then options.cwd.value else s.cwd,
      if options.timestamp.Some? then options.timestamp.value else s.timestamp,
      match options.keepMessages case Some(n) => FirstMessages(s.messages, n) case None => s.messages)
  }

  function FirstMessages(messages: seq<Message>, n: nat): seq<Message> {
    if n <= |messages| then messages[..n] else messages
  }

  function Convert(
    show: Value -> string, records: seq<Value>, from: Format, to: Format, options: Options, freshId: string, uuids: nat -> string)
    : Result<seq<Value>, SessionError>
  {
    match Parse(show, records, from)
    case Failure(e) => Failure(e)
    case Success(s) => Success(Serialize(Edited(s, from, to, options, freshId), to, uuids))
  }

  // The loops that read and write.

  method ReadClaudeContent(show: Value -> string, content: Option<Value>) returns (text: Option<string>)
    ensures text == ClaudeContent(show, content)
  {
    hide ClaudePart;
    match content {
      case Some(String(text)) => return if text == "" then None else Some(text);
      case Some(Array(blocks)) =>
        var parts := [];
        for i := 0 to |blocks|
          invariant parts + ClaudeParts(show, blocks[i..]) == ClaudeParts(show, blocks)
        {
          assert blocks[i..][1..] == blocks[i + 1..];
          var more := ReadClaudeBlock(show, blocks[i]);
          parts := parts + more;
        }
        assert blocks[|blocks|..] == [] && parts + [] == parts;
        return JoinParts(parts);
      case _ => return None;
    }
  }

  method ReadClaudeBlock(show: Value -> string, block: Value) returns (parts: seq<string>)
    ensures parts == ClaudePart(show, block)
  {
    match Str(block, FType) {
      case None => return [];
      case Some(kind) =>
        if kind == "text" {
          var text := Str(block, FText);
          return if text.Some? then [text.value] else [];
        }
        if kind == "tool_use" { return [ToolCallNote(show, block)]; }
        if kind == "tool_result" { return [ToolResultNote(block)]; }
        if kind == "thinking" || kind == "redacted_thinking" { return []; }
        return ["[external unsupported block: " + kind + "]"];
    }
  }

  method ReadClaudeRecord(show: Value -> string, record: Value) returns (message: seq<Message>)
    ensures message == ClaudeMessage(show, record)
  {
    hide ClaudeContent, UnwrapUserQuery, ClaudeRole;
    var role := ClaudeRole(record);
    if role.None? { return []; }
    var message' := Get(record, FMessage);
    var text := ReadClaudeContent(show, if message'.Some? then Get(message'.value, FContent) else None);
    if text.None? { return []; }
    return [Message(role.value, if role.value == User then UnwrapUserQuery(text.value) else text.value, Str(record, FTimestamp))];
  }

  method ReadClaude(show: Value -> string, records: seq<Value>) returns (session: Result<Session, SessionError>)
    ensures session == ParseClaude(show, records)
  {
    hide ClaudeMessage, ClaudeId, RecordCwd, RecordTimestamp;
    var id, cwd, timestamp, messages := None, None, None, [];
    for i := 0 to |records|
      invariant Or(id, FirstOf(ClaudeId, records[i..])) == FirstOf(ClaudeId, records)
      invariant Or(cwd, FirstOf(RecordCwd, records[i..])) == FirstOf(RecordCwd, records)
      invariant Or(timestamp, FirstOf(RecordTimestamp, records[i..])) == FirstOf(RecordTimestamp, records)
      invariant messages + ClaudeMessages(show, records[i..]) == ClaudeMessages(show, records)
    {
      assert records[i..][1..] == records[i + 1..];
      var record := records[i];
      id := if id.Some? then id else ClaudeId(record);
      cwd := if cwd.Some? then cwd else RecordCwd(record);
      timestamp := if timestamp.Some? then timestamp else RecordTimestamp(record);
      var message := ReadClaudeRecord(show, record);
      messages := messages + message;
    }
    assert records[|records|..] == [] && messages + [] == messages;
    session := SessionFrom(id, cwd, timestamp, messages);
  }

  method ReadCodexContent(content: Option<Value>) returns (text: Option<string>)
    ensures text == CodexContent(content)
  {
    hide CodexPart;
    match content {
      case Some(Array(blocks)) =>
        var parts := [];
        for i := 0 to |blocks|
          invariant parts + CodexParts(blocks[i..]) == CodexParts(blocks)
        {
          assert blocks[i..][1..] == blocks[i + 1..];
          parts := parts + CodexPart(blocks[i]);
        }
        assert blocks[|blocks|..] == [] && parts + [] == parts;
        return JoinParts(parts);
      case _ => return None;
    }
  }

  method ReadCodexRecord(record: Value) returns (message: seq<Message>)
    ensures message == CodexMessage(record)
  {
    hide CodexContent, CodexRole;
    if Str(record, FType) != Some("response_item") { return []; }
    var payload := Get(record, FPayload);
    if payload.None? { return []; }
    var item := payload.value;
    if Str(item, FType) != Some("message") { return []; }
    var role := CodexRole(item);
    if role.None? { return []; }
    var text := ReadCodexContent(Get(item, FContent));
    if text.None? { return []; }
    return [Message(role.value, text.value, Str(record, FTimestamp))];
  }

  method ReadCodexMessages(records: seq<Value>) returns (messages: seq<Message>)
    ensures messages == CodexMessages(records)
  {
    hide CodexMessage;
    messages := [];
    for i := 0 to |records|
      invariant messages + CodexMessages(records[i..]) == CodexMessages(records)
    {
      assert records[i..][1..] == records[i + 1..];
      var message := ReadCodexRecord(records[i]);
      messages := messages + message;
    }
    assert records[|records|..] == [] && messages + [] == messages;
  }

  method WriteClaude(s: Session, uuids: nat -> string) returns (records: seq<Value>)
    ensures records == SerializeClaude(s, uuids)
  {
    hide ClaudeRecord;
    records := [];
    var parent := None;
    for k := 0 to |s.messages|
      invariant parent == if k == 0 then None else Some(uuids(k - 1))
      invariant records + ClaudeRecords(s, uuids, k) == SerializeClaude(s, uuids)
    {
      var uuid := uuids(k);
      records := records + [ClaudeRecord(s, s.messages[k], uuid, parent)];
      parent := Some(uuid);
    }
    assert records + [] == records;
  }

  method WriteCodex(s: Session) returns (records: seq<Value>)
    ensures records == SerializeCodex(s)
  {
    hide CodexHeader, CodexItem, CodexEvents, CodexEnd;
    records := [CodexHeader(s)];
    var turn := 0;
    for k := 0 to |s.messages|
      invariant records + CodexRecords(s, k, turn) == SerializeCodex(s)
    {
      var m := s.messages[k];
      var stamp := if m.timestamp.Some? then m.timestamp.value else s.timestamp;
      if m.role == User {
        turn := turn + 1;
      }
      records := records + CodexEvents(stamp, m, turn);
      records := records + [CodexItem(stamp, m)];
    }
    records := records + CodexEnd(s, turn);
  }

  method ConvertSession(
    show: Value -> string, records: seq<Value>, from: Format, to: Format, options: Options, freshId: string, uuids: nat -> string)
    returns (converted: Result<seq<Value>, SessionError>)
    ensures converted == Convert(show, records, from, to, options, freshId, uuids)
  {
    hide ParseClaude, ParseCodex, SerializeClaude, SerializeCodex;
    var parsed := Parse(show, records, from);
    if parsed.Failure? { return Failure(parsed.error); }
    var session := parsed.value;
    if options.keepMessages.Some? {
      session := session.(messages := FirstMessages(session.messages, options.keepMessages.value));
    }
    if options.id.Some? {
      session := session.(id := options.id.value);
    } else if from != to {
      session := session.(id := freshId);
    }
    if options.cwd.Some? { session := session.(cwd := options.cwd.value); }
    if options.timestamp.Some? { session := session.(timestamp := options.timestamp.value); }
    return Success(Serialize(session, to, uuids));
  }

  // Round trips.

  /** The messages with every missing timestamp filled in. */
  function Filled(messages: seq<Message>, stamp: string): (r: seq<Message>)
    ensures |r| == |messages|
    ensures forall k :: 0 <= k < |r| ==> r[k].role == messages[k].role && r[k].text == messages[k].text
    ensures forall k :: 0 <= k < |r| ==>
              r[k].timestamp == Some(if messages[k].timestamp.Some? then messages[k].timestamp.value else stamp)
  {
    seq(|messages|, k requires 0 <= k < |messages| =>
      Message(messages[k].role, messages[k].text, Or(messages[k].timestamp, Some(stamp))))
  }

  /** No user text that Claude's reader would unwrap. */
  predicate NoQueryTags(messages: seq<Message>) {
    forall k :: 0 <= k < |messages| && messages[k].role == User ==> TaggedQuery(messages[k].text).None?
  }

  /** Unwrapping changes every text that it unwraps. */
  lemma UnwrappingChanges(text: string)
    ensures UnwrapUserQuery(text) == text <==> TaggedQuery(text).None?
    ensures |UnwrapUserQuery(text)| <= |text| && (TaggedQuery(text).Some? ==> |UnwrapUserQuery(text)| < |text|)
  {
    hide TrimEnd, TrimStart, IsWhitespace;
    TrimIsNoLonger(text);
    if TaggedQuery(text).Some? {
      var inner := StripPrefix(Trim(text), OPEN_TAG).value;
      var query := StripSuffix(inner, CLOSE_TAG).value;
      TrimIsNoLonger(query);
      assert |query| < |text|;
    }
  }

  lemma TrimIsNoLonger(s: string)
    ensures |Trim(s)| <= |s|
  {
  }

  // Codex.

  lemma CodexMessagesAppend(a: seq<Value>, b: seq<Value>)
    ensures CodexMessages(a + b) == CodexMessages(a) + CodexMessages(b)
  {
    hide CodexMessage;
    if a == [] {
      assert a + b == b;
    } else {
      assert (a + b)[1..] == a[1..] + b;
      CodexMessagesAppend(a[1..], b);
    }
  }

  lemma OneCodexMessage(r: Value)
    ensures CodexMessages([r]) == CodexMessage(r)
  {
    assert [r][1..] == [] && CodexMessages([]) == [] && CodexMessage(r) + [] == CodexMessage(r);
  }

  lemma EventIsNoMessage(stamp: string, payload: map<Field, Value>)
    ensures CodexMessage(CodexRecord(stamp, "event_msg", payload)) == []
  {
    assert "event_msg" != "response_item" by { assert |"event_msg"| == 9 && |"response_item"| == 13; }
  }

  lemma HeaderIsNoMessage(s: Session)
    ensures CodexMessage(CodexHeader(s)) == [] && SessionMeta(CodexHeader(s)) == Some(CodexHeader(s))
  {
    assert "session_meta" != "response_item" by { assert |"session_meta"| == 12 && |"response_item"| == 13; }
  }

  lemma EventsAreNoMessages(stamp: string, m: Message, turn: nat)
    ensures CodexMessages(CodexEvents(stamp, m, turn)) == []
  {
    hide CodexRecord, TurnName, CodexMessage;
    var started := map[FType := String("turn_started"), FTurnId := TurnName(turn)];
    var said := map[FType := String("user_message"), FMessage := String(m.text), FKind := String("plain")];
    var answered := map[FType := String("agent_message"), FMessage := String(m.text)];
    EventIsNoMessage(stamp, started);
    EventIsNoMessage(stamp, said);
    EventIsNoMessage(stamp, answered);
    var a, b := CodexRecord(stamp, "event_msg", started), CodexRecord(stamp, "event_msg", said);
    var c := CodexRecord(stamp, "event_msg", answered);
    OneCodexMessage(a);
    OneCodexMessage(b);
    OneCodexMessage(c);
    CodexMessagesAppend([a], [b]);
    assert [a] + [b] == [a, b];
  }

  lemma EndIsNoMessage(s: Session, turn: nat)
    ensures CodexMessages(CodexEnd(s, turn)) == []
  {
    hide CodexRecord, TurnName, CodexMessage;
    if turn > 0 {
      var payload := map[FType := String("turn_complete"), FTurnId := TurnName(turn), FLastAgentMessage := Null, FError := Null];
      EventIsNoMessage(s.timestamp, payload);
      OneCodexMessage(CodexRecord(s.timestamp, "event_msg", payload));
    }
  }

  lemma ItemText(kind: string, text: string)
    requires kind == "input_text" || kind == "output_text"
    ensures CodexContent(Some(Array([Object(map[FType := String(kind), FText := String(text)])]))) == Some(text)
  {
    var block := Object(map[FType := String(kind), FText := String(text)]);
    assert CodexPart(block) == [text];
    assert [block][1..] == [] && CodexParts([]) == [] && [text] + [] == [text];
    assert CodexParts([block]) == [text];
  }

  lemma ItemIsItsMessage(stamp: string, m: Message)
    ensures CodexMessage(CodexItem(stamp, m)) == [Message(m.role, m.text, Some(stamp))]
  {
    hide CodexContent;
    ItemText(match m.role case User => "input_text" case Assistant => "output_text", m.text);
    assert "user" != "assistant" by { assert |"user"| == 4 && |"assistant"| == 9; }
  }

  lemma {:induction false} CodexRecordsRead(s: Session, k: nat, turn: nat)
    requires k <= |s.messages|
    ensures CodexMessages(CodexRecords(s, k, turn)) == Filled(s.messages, s.timestamp)[k..]
    decreases |s.messages| - k
  {
    hide CodexMessages, CodexEvents, CodexItem, CodexEnd;
    if k == |s.messages| {
      EndIsNoMessage(s, turn);
    } else {
      var m := s.messages[k];
      var turn' := TurnAfter(turn, m);
      var stamp := StampOf(m, s);
      var events, item, rest := CodexEvents(stamp, m, turn'), CodexItem(stamp, m), CodexRecords(s, k + 1, turn');
      EventsAreNoMessages(stamp, m, turn');
      ItemIsItsMessage(stamp, m);
      OneCodexMessage(item);
      CodexRecordsRead(s, k + 1, turn');
      CodexMessagesAppend(events + [item], rest);
      CodexMessagesAppend(events, [item]);
      assert [] + CodexMessages([item]) == CodexMessages([item]);
      assert Filled(s.messages, s.timestamp)[k] == Message(m.role, m.text, Some(stamp));
      var filled := Filled(s.messages, s.timestamp);
      assert filled[k..] == [filled[k]] + filled[k + 1..];
    }
  }

  /** Every session survives a round trip through Codex's format, with missing timestamps filled in. */
  lemma CodexRoundTrip(s: Session)
    ensures ParseCodex(SerializeCodex(s)) == Success(s.(messages := Filled(s.messages, s.timestamp)))
  {
    hide CodexRecords, CodexMessage, Filled;
    HeaderIsNoMessage(s);
    CodexRecordsRead(s, 0, 0);
    var header := CodexHeader(s);
    assert SerializeCodex(s)[0] == header && SerializeCodex(s)[1..] == CodexRecords(s, 0, 0);
    assert [] + CodexMessages(CodexRecords(s, 0, 0)) == CodexMessages(CodexRecords(s, 0, 0));
    assert Filled(s.messages, s.timestamp)[0..] == Filled(s.messages, s.timestamp);
  }

  /** The turn that a record starts. */
  function StartedTurn(record: Value): seq<Value> {
    match Get(record, FPayload)
    case Some(payload) =>
      if Str(payload, FType) == Some("turn_started") && Get(payload, FTurnId).Some? then [Get(payload, FTurnId).value] else []
    case None => []
  }

  function StartedTurns(records: seq<Value>): seq<Value> {
    if records == [] then [] else StartedTurn(records[0]) + StartedTurns(records[1..])
  }

  /** The names of the `n` turns after the `from`th. */
  function TurnNames(from: nat, n: nat): seq<Value>
    decreases n
  {
    if n == 0 then [] else [TurnName(from + 1)] + TurnNames(from + 1, n - 1)
  }

  /** How many turns there are after the `k`th message, counting from `turn`. */
  function TurnCount(messages: seq<Message>, k: nat, turn: nat): (r: nat)
    ensures turn <= r
    decreases |messages| - k
  {
    if k >= |messages| then turn else TurnCount(messages, k + 1, TurnAfter(turn, messages[k]))
  }

  lemma StartedTurnsAppend(a: seq<Value>, b: seq<Value>)
    ensures StartedTurns(a + b) == StartedTurns(a) + StartedTurns(b)
  {
    hide StartedTurn;
    if a == [] {
      assert a + b == b;
    } else {
      assert (a + b)[1..] == a[1..] + b;
      StartedTurnsAppend(a[1..], b);
    }
  }

  lemma OneStartedTurn(r: Value)
    ensures StartedTurns([r]) == StartedTurn(r)
  {
    assert [r][1..] == [] && StartedTurns([]) == [] && StartedTurn(r) + [] == StartedTurn(r);
  }

  lemma StartsNoTurn(stamp: string, kind: string, payload: map<Field, Value>)
    requires FTurnId !in payload
    ensures StartedTurns([CodexRecord(stamp, kind, payload)]) == []
  {
    OneStartedTurn(CodexRecord(stamp, kind, payload));
  }

  lemma EventsStartTurn(stamp: string, m: Message, turn: nat)
    ensures StartedTurns(CodexEvents(stamp, m, turn)) == if m.role == User then [TurnName(turn)] else []
  {
    hide CodexRecord, TurnName, StartedTurn, StartedTurns;
    var started := map[FType := String("turn_started"), FTurnId := TurnName(turn)];
    var said := map[FType := String("user_message"), FMessage := String(m.text), FKind := String("plain")];
    var answered := map[FType := String("agent_message"), FMessage := String(m.text)];
    StartsNoTurn(stamp, "event_msg", said);
    StartsNoTurn(stamp, "event_msg", answered);
    TurnIsStarted(stamp, turn, started);
    var a, b := CodexRecord(stamp, "event_msg", started), CodexRecord(stamp, "event_msg", said);
    StartedTurnsAppend([a], [b]);
    assert [a] + [b] == [a, b];
  }

  lemma TurnIsStarted(stamp: string, turn: nat, payload: map<Field, Value>)
    requires payload == map[FType := String("turn_started"), FTurnId := TurnName(turn)]
    ensures StartedTurns([CodexRecord(stamp, "event_msg", payload)]) == [TurnName(turn)]
  {
    hide TurnName;
    OneStartedTurn(CodexRecord(stamp, "event_msg", payload));
  }

  lemma ItemStartsNoTurn(stamp: string, m: Message)
    ensures StartedTurns([CodexItem(stamp, m)]) == []
  {
    OneStartedTurn(CodexItem(stamp, m));
  }

  lemma EndStartsNoTurn(s: Session, turn: nat)
    ensures StartedTurns(CodexEnd(s, turn)) == []
  {
    hide TurnName;
    if turn > 0 {
      OneStartedTurn(CodexEnd(s, turn)[0]);
      assert "turn_complete" != "turn_started" by { assert |"turn_complete"| == 13 && |"turn_started"| == 12; }
    }
  }

  lemma {:induction false} CodexTurnsFrom(s: Session, k: nat, turn: nat)
    requires k <= |s.messages|
    ensures StartedTurns(CodexRecords(s, k, turn)) == TurnNames(turn, TurnCount(s.messages, k, turn) - turn)
    ensures var records := CodexRecords(s, k, turn);
            var last := TurnCount(s.messages, k, turn);
            last > 0 ==> records != [] && [records[|records| - 1]] == CodexEnd(s, last)
    decreases |s.messages| - k
  {
    hide StartedTurns, CodexEvents, CodexItem, TurnName;
    if k == |s.messages| {
      EndStartsNoTurn(s, turn);
    } else {
      var m := s.messages[k];
      var turn' := TurnAfter(turn, m);
      var events, item, rest := CodexEvents(StampOf(m, s), m, turn'), CodexItem(StampOf(m, s), m), CodexRecords(s, k + 1, turn');
      EventsStartTurn(StampOf(m, s), m, turn');
      ItemStartsNoTurn(StampOf(m, s), m);
      CodexTurnsFrom(s, k + 1, turn');
      StartedTurnsAppend(events + [item], rest);
      StartedTurnsAppend(events, [item]);
    }
  }

  /**
    A Codex file starts one turn for each user message, numbered from 1 in order, and,
    if there is any, ends with a record that completes the last one.
   */
  lemma CodexNumbersTurns(s: Session)
    ensures var records := SerializeCodex(s);
            var turns := TurnCount(s.messages, 0, 0);
            && StartedTurns(records) == TurnNames(0, turns)
            && (turns > 0 ==> records != [] && [records[|records| - 1]] == CodexEnd(s, turns))
  {
    hide CodexRecords, StartedTurn, TurnName, CodexEnd;
    CodexTurnsFrom(s, 0, 0);
    HeaderStartsNoTurn(s);
    assert SerializeCodex(s)[0] == CodexHeader(s) && SerializeCodex(s)[1..] == CodexRecords(s, 0, 0);
    assert [] + StartedTurns(CodexRecords(s, 0, 0)) == StartedTurns(CodexRecords(s, 0, 0));
  }

  lemma HeaderStartsNoTurn(s: Session)
    ensures StartedTurn(CodexHeader(s)) == []
  {
  }

  // Claude.

  lemma TextBlock(show: Value -> string, text: string)
    ensures ClaudeContent(show, Some(Array([Object(map[FType := String("text"), FText := String(text)])]))) == Some(text)
  {
    hide ToolCallNote, ToolResultNote;
    var block := Object(map[FType := String("text"), FText := String(text)]);
    assert ClaudePart(show, block) == [text];
    assert [block][1..] == [] && ClaudeParts(show, []) == [] && [text] + [] == [text];
    assert ClaudeParts(show, [block]) == [text];
  }

  lemma RecordIsItsMessage(show: Value -> string, s: Session, m: Message, uuid: string, parent: Option<string>)
    ensures ClaudeMessage(show, ClaudeRecord(s, m, uuid, parent))
         == [Message(m.role, if m.role == User then UnwrapUserQuery(m.text) else m.text, Some(StampOf(m, s)))]
  {
    hide ClaudeContent, UnwrapUserQuery, StampOf;
    TextBlock(show, m.text);
    RecordRole(s, m, uuid, parent);
  }

  lemma RecordRole(s: Session, m: Message, uuid: string, parent: Option<string>)
    ensures ClaudeRole(ClaudeRecord(s, m, uuid, parent)) == Some(m.role)
  {
    hide StampOf;
    assert "user" != "assistant" by { assert |"user"| == 4 && |"assistant"| == 9; }
  }

  lemma RecordNames(s: Session, m: Message, uuid: string, parent: Option<string>)
    ensures var r := ClaudeRecord(s, m, uuid, parent);
            && ClaudeId(r) == Some(s.id) && RecordCwd(r) == Some(s.cwd) && RecordTimestamp(r) == Some(StampOf(m, s))
            && Get(r, FUuid) == Some(String(uuid))
            && Get(r, FParentUuid) == Some(match parent case Some(p) => String(p) case None => Null)
  {
    hide StampOf, RoleName;
  }

  /** What a Claude session reads back as: missing timestamps are filled in, and queries unwrapped. */
  function AsClaudeReads(messages: seq<Message>, stamp: string): (r: seq<Message>)
    ensures |r| == |messages|
  {
    seq(|messages|, k requires 0 <= k < |messages| =>
      Message(messages[k].role,
              if messages[k].role == User then UnwrapUserQuery(messages[k].text) else messages[k].text,
              Or(messages[k].timestamp, Some(stamp))))
  }

  lemma {:induction false} ClaudeRecordsRead(show: Value -> string, s: Session, uuids: nat -> string, k: nat)
    requires k <= |s.messages|
    ensures ClaudeMessages(show, ClaudeRecords(s, uuids, k)) == AsClaudeReads(s.messages, s.timestamp)[k..]
    decreases |s.messages| - k
  {
    hide ClaudeRecord, ClaudeMessage, UnwrapUserQuery, RoleName;
    if k < |s.messages| {
      ClaudeRecordsRead(show, s, uuids, k + 1);
      RecordIsItsMessage(show, s, s.messages[k], uuids(k), if k == 0 then None else Some(uuids(k - 1)));
      var all := AsClaudeReads(s.messages, s.timestamp);
      assert all[k..] == [all[k]] + all[k + 1..];
      assert ClaudeRecords(s, uuids, k)[1..] == ClaudeRecords(s, uuids, k + 1);
    }
  }

  /**
    What a session written in Claude's format reads back as. It has the timestamp of its
    first message; without messages, it cannot be read at all.
   */
  lemma ClaudeReadsBack(show: Value -> string, s: Session, uuids: nat -> string)
    ensures ParseClaude(show, SerializeClaude(s, uuids))
         == if s.messages == [] then Failure(NoSessionId)
            else Success(Session(s.id, s.cwd, StampOf(s.messages[0], s), AsClaudeReads(s.messages, s.timestamp)))
  {
    hide ClaudeRecord, ClaudeMessages, AsClaudeReads, ClaudeId, RecordCwd, RecordTimestamp;
    ClaudeRecordsRead(show, s, uuids, 0);
    assert AsClaudeReads(s.messages, s.timestamp)[0..] == AsClaudeReads(s.messages, s.timestamp);
    if s.messages != [] {
      RecordNames(s, s.messages[0], uuids(0), None);
      assert SerializeClaude(s, uuids)[0] == ClaudeRecord(s, s.messages[0], uuids(0), None);
    }
  }

  lemma ReadsAreFilled(messages: seq<Message>, stamp: string)
    ensures AsClaudeReads(messages, stamp) == Filled(messages, stamp) <==> NoQueryTags(messages)
  {
    hide UnwrapUserQuery, TaggedQuery;
    forall k | 0 <= k < |messages|
      ensures AsClaudeReads(messages, stamp)[k] == Filled(messages, stamp)[k]
         <==> (messages[k].role == User ==> TaggedQuery(messages[k].text).None?)
    {
      UnwrappingChanges(messages[k].text);
    }
    if AsClaudeReads(messages, stamp) == Filled(messages, stamp) {
      assert NoQueryTags(messages);
    } else {
      assert exists k :: 0 <= k < |messages| && AsClaudeReads(messages, stamp)[k] != Filled(messages, stamp)[k];
    }
  }

  /**
    A session survives a round trip through Claude's format if and only if it has a
    message and no user text in query tags.
   */
  lemma ClaudeRoundTrip(show: Value -> string, s: Session, uuids: nat -> string)
    ensures var r := ParseClaude(show, SerializeClaude(s, uuids));
            && (r.Success? && r.value.messages == Filled(s.messages, s.timestamp) <==> s.messages != [] && NoQueryTags(s.messages))
            && (r.Success? ==> r.value.id == s.id && r.value.cwd == s.cwd)
  {
    hide ParseClaude, SerializeClaude, AsClaudeReads, NoQueryTags;
    ClaudeReadsBack(show, s, uuids);
    ReadsAreFilled(s.messages, s.timestamp);
  }

  /** The records that Claude gets form one chain, in the order of the messages. */
  lemma {:induction false} ClaudeChain(s: Session, uuids: nat -> string, from: nat, k: nat)
    requires from <= k < |s.messages|
    ensures |ClaudeRecords(s, uuids, from)| == |s.messages| - from
    ensures var r := ClaudeRecords(s, uuids, from)[k - from];
            && Get(r, FUuid) == Some(String(uuids(k)))
            && Get(r, FParentUuid) == Some(if k == 0 then Null else String(uuids(k - 1)))
    decreases |s.messages| - from
  {
    hide ClaudeRecord, Get;
    RecordNames(s, s.messages[from], uuids(from), if from == 0 then None else Some(uuids(from - 1)));
    if from < k {
      ClaudeChain(s, uuids, from + 1, k);
      assert ClaudeRecords(s, uuids, from)[k - from] == ClaudeRecords(s, uuids, from + 1)[k - from - 1];
    } else if from + 1 < |s.messages| {
      ClaudeChain(s, uuids, from + 1, from + 1);
    }
  }

  /** Each record of a Claude file names the one before it as its parent, and the first one none. */
  lemma OneParentChain(s: Session, uuids: nat -> string, k: nat)
    requires k < |s.messages|
    ensures var records := SerializeClaude(s, uuids);
            && |records| == |s.messages|
            && Get(records[k], FParentUuid) == if k == 0 then Some(Null) else Get(records[k - 1], FUuid)
  {
    hide ClaudeRecord;
    ClaudeChain(s, uuids, 0, k);
    if k > 0 { ClaudeChain(s, uuids, 0, k - 1); }
  }

  // Conversions.

  /** What messages written in a format are read back as, if they can be read. */
  function Reread(messages: seq<Message>, stamp: string, format: Format): (r: seq<Message>)
    ensures |r| == |messages|
  {
    match format case Claude => AsClaudeReads(messages, stamp) case Codex => Filled(messages, stamp)
  }

  /** What a conversion leaves to be read, and when it can be. */
  lemma ConvertedReads(
    show: Value -> string, records: seq<Value>, from: Format, to: Format, options: Options, freshId: string, uuids: nat -> string)
    requires Parse(show, records, from).Success?
    ensures var s := Edited(Parse(show, records, from).value, from, to, options, freshId);
            var converted := Convert(show, records, from, to, options, freshId, uuids);
            && converted.Success?
            && var r := Parse(show, converted.value, to);
               && (r.Success? <==> to == Codex || s.messages != [])
               && (r.Success? ==> r.value.id == s.id && r.value.cwd == s.cwd && r.value.messages == Reread(s.messages, s.timestamp, to))
  {
    hide ParseClaude, ParseCodex, SerializeClaude, SerializeCodex, Edited, AsClaudeReads, Filled;
    var s := Edited(Parse(show, records, from).value, from, to, options, freshId);
    if to == Claude { ClaudeReadsBack(show, s, uuids); } else { CodexRoundTrip(s); }
  }

  lemma RereadPrefix(messages: seq<Message>, stamp: string, format: Format, n: nat)
    ensures Reread(FirstMessages(messages, n), stamp, format) == FirstMessages(Reread(messages, stamp, format), n)
  {
    hide UnwrapUserQuery;
  }

  /**
    Keeping the first `n` messages commutes with converting, whatever the formats and the
    texts are: the shorter file holds the first messages of the whole one. Both can be
    read, except that a Claude file without messages cannot.
   */
  lemma KeepingCommutes(
    show: Value -> string, records: seq<Value>, from: Format, to: Format, options: Options, n: nat,
    freshId: string, uuids: nat -> string, uuids': nat -> string)
    requires Parse(show, records, from).Success? && options.keepMessages == None
    ensures var messages := Parse(show, records, from).value.messages;
            var whole := Convert(show, records, from, to, options, freshId, uuids);
            var part := Convert(show, records, from, to, options.(keepMessages := Some(n)), freshId, uuids');
            && whole.Success? && part.Success?
            && var (w, p) := (Parse(show, whole.value, to), Parse(show, part.value, to));
               && (w.Success? <==> to == Codex || messages != [])
               && (p.Success? <==> to == Codex || (messages != [] && n > 0))
               && (p.Success? ==> w.Success? && p.value.messages == FirstMessages(w.value.messages, n))
               && (p.Success? ==> p.value.id == w.value.id && p.value.cwd == w.value.cwd)
  {
    hide Parse, Convert, Reread;
    var s := Parse(show, records, from).value;
    ConvertedReads(show, records, from, to, options, freshId, uuids);
    ConvertedReads(show, records, from, to, options.(keepMessages := Some(n)), freshId, uuids');
    RereadPrefix(s.messages, if options.timestamp.Some? then options.timestamp.value else s.timestamp, to, n);
  }

  /** One conversion of a chain. */
  datatype Hop = Hop(to: Format, options: Options, freshId: string, uuids: nat -> string)

  /** The file at the end of a chain of conversions, and its format. */
  function ConvertAll(show: Value -> string, records: seq<Value>, from: Format, hops: seq<Hop>)
    : Result<(seq<Value>, Format), SessionError>
    decreases |hops|
  {
    if hops == [] then Success((records, from)) else
      var h := hops[0];
      match Convert(show, records, from, h.to, h.options, h.freshId, h.uuids)
      case Failure(e) => Failure(e)
      case Success(converted) => ConvertAll(show, converted, h.to, hops[1..])
  }

  lemma FilledTwice(messages: seq<Message>, stamp: string, stamp': string)
    ensures Filled(Filled(messages, stamp), stamp') == Filled(messages, stamp)
    ensures NoQueryTags(Filled(messages, stamp)) <==> NoQueryTags(messages)
  {
    hide TaggedQuery;
    var filled := Filled(messages, stamp);
    assert forall k :: 0 <= k < |messages| ==> filled[k].role == messages[k].role && filled[k].text == messages[k].text;
  }

  predicate GoesToClaude(hops: seq<Hop>) { exists k :: 0 <= k < |hops| && hops[k].to == Claude }

  lemma GoesOn(hops: seq<Hop>)
    requires hops != []
    ensures GoesToClaude(hops) <==> hops[0].to == Claude || GoesToClaude(hops[1..])
  {
    if exists k :: 0 <= k < |hops| && hops[k].to == Claude {
      var k :| 0 <= k < |hops| && hops[k].to == Claude;
      assert k > 0 ==> hops[1..][k - 1] == hops[k];
    }
    if GoesToClaude(hops[1..]) {
      var k :| 0 <= k < |hops[1..]| && hops[1..][k].to == Claude;
      assert hops[k + 1].to == Claude;
    }
  }

  /** The messages that can be read at the end of a chain, if any can. */
  function AtTheEnd(show: Value -> string, records: seq<Value>, from: Format, hops: seq<Hop>): Option<seq<Message>> {
    match ConvertAll(show, records, from, hops)
    case Failure(_) => None
    case Success((file, format)) =>
      (match Parse(show, file, format) case Success(s) => Some(s.messages) case Failure(_) => None)
  }

  /** No text is longer than before. */
  predicate NoLonger(messages: seq<Message>, before: seq<Message>) {
    && |messages| == |before|
    && forall k :: 0 <= k < |messages| ==> |messages[k].text| <= |before[k].text|
  }

  lemma RereadIsNoLonger(messages: seq<Message>, stamp: string, format: Format)
    ensures NoLonger(Reread(messages, stamp, format), messages)
    ensures format == Claude && !NoQueryTags(messages) ==>
              exists k :: 0 <= k < |messages| && |Reread(messages, stamp, format)[k].text| < |messages[k].text|
  {
    hide UnwrapUserQuery, TaggedQuery;
    var read := Reread(messages, stamp, format);
    forall k | 0 <= k < |messages|
      ensures |read[k].text| <= |messages[k].text|
      ensures format == Claude && messages[k].role == User && TaggedQuery(messages[k].text).Some? ==>
                |read[k].text| < |messages[k].text|
    {
      UnwrappingChanges(messages[k].text);
    }
  }

  /** One conversion, and the others. */
  lemma ChainStep(show: Value -> string, records: seq<Value>, from: Format, hops: seq<Hop>)
    returns (next: seq<Value>, read: seq<Message>)
    requires Parse(show, records, from).Success? && hops != [] && hops[0].options.keepMessages == None
    ensures var s := Parse(show, records, from).value;
            var stamp := if hops[0].options.timestamp.Some? then hops[0].options.timestamp.value else s.timestamp;
            && AtTheEnd(show, records, from, hops) == AtTheEnd(show, next, hops[0].to, hops[1..])
            && (Parse(show, next, hops[0].to).Success? <==> hops[0].to == Codex || s.messages != [])
            && (Parse(show, next, hops[0].to).Success? ==>
                  Parse(show, next, hops[0].to).value.messages == Reread(s.messages, stamp, hops[0].to))
            && read == Reread(s.messages, stamp, hops[0].to)
  {
    hide Parse, Convert, Reread;
    var h := hops[0];
    var s := Parse(show, records, from).value;
    ConvertedReads(show, records, from, h.to, h.options, h.freshId, h.uuids);
    next := Convert(show, records, from, h.to, h.options, h.freshId, h.uuids).value;
    read := Reread(s.messages, if h.options.timestamp.Some? then h.options.timestamp.value else s.timestamp, h.to);
  }

  /** What cannot be read cannot be converted. */
  lemma UnreadableStays(show: Value -> string, records: seq<Value>, from: Format, hops: seq<Hop>)
    requires Parse(show, records, from).Failure?
    ensures AtTheEnd(show, records, from, hops) == None
  {
    hide Parse;
  }

  lemma NothingToConvert(show: Value -> string, records: seq<Value>, from: Format)
    requires Parse(show, records, from).Success?
    ensures AtTheEnd(show, records, from, []) == Some(Parse(show, records, from).value.messages) && !GoesToClaude([])
  {
    hide Parse;
  }

  /** A chain never makes a text longer, and its end can be read unless there is no message on the way to Claude. */
  lemma {:induction false} ChainsShorten(show: Value -> string, records: seq<Value>, from: Format, hops: seq<Hop>)
    requires Parse(show, records, from).Success?
    requires forall k :: 0 <= k < |hops| ==> hops[k].options.keepMessages == None
    ensures var messages := Parse(show, records, from).value.messages;
            var end := AtTheEnd(show, records, from, hops);
            && (end.Some? <==> !GoesToClaude(hops) || messages != [])
            && (end.Some? ==> NoLonger(end.value, messages))
    decreases |hops|
  {
    hide Parse, AtTheEnd, ConvertAll, NoQueryTags, Reread;
    var s := Parse(show, records, from).value;
    if hops == [] {
      NothingToConvert(show, records, from);
    } else {
      GoesOn(hops);
      var next, read := ChainStep(show, records, from, hops);
      if Parse(show, next, hops[0].to).Success? {
        ChainsShorten(show, next, hops[0].to, hops[1..]);
        RereadIsNoLonger(s.messages, if hops[0].options.timestamp.Some? then hops[0].options.timestamp.value else s.timestamp, hops[0].to);
      } else {
        UnreadableStays(show, next, hops[0].to, hops[1..]);
      }
    }
  }

  /**
    Through any chain of conversions between the two formats, the messages keep their
    roles, their texts and their order, and those without a timestamp get the session's,
    if and only if the chain never goes to Claude's format, or there is a message and no
    user text in query tags. The end can be read whenever there is a message, and always
    if the chain never goes to Claude's format.
   */
  lemma {:induction false} ChainsPreserveMessages(show: Value -> string, records: seq<Value>, from: Format, hops: seq<Hop>)
    requires Parse(show, records, from).Success? && hops != []
    requires forall k :: 0 <= k < |hops| ==> hops[k].options.keepMessages == None
    ensures var s := Parse(show, records, from).value;
            var stamp := if hops[0].options.timestamp.Some? then hops[0].options.timestamp.value else s.timestamp;
            var end := AtTheEnd(show, records, from, hops);
            && (end.Some? <==> !GoesToClaude(hops) || s.messages != [])
            && (end == Some(Filled(s.messages, stamp))
                <==> !GoesToClaude(hops) || (s.messages != [] && NoQueryTags(s.messages)))
    decreases |hops|
  {
    hide Parse, AtTheEnd, ConvertAll, NoQueryTags, Filled, AsClaudeReads, GoesToClaude;
    var s := Parse(show, records, from).value;
    var h := hops[0];
    var stamp := if h.options.timestamp.Some? then h.options.timestamp.value else s.timestamp;
    ChainsShorten(show, records, from, hops);
    GoesOn(hops);
    var next, read := ChainStep(show, records, from, hops);
    ReadsAreFilled(s.messages, stamp);
    if Parse(show, next, h.to).Failure? {
      UnreadableStays(show, next, h.to, hops[1..]);
    } else if h.to == Claude && !NoQueryTags(s.messages) {
      ChainsShorten(show, next, h.to, hops[1..]);
      RereadIsNoLonger(s.messages, stamp, h.to);
      ShorterIsNotFilled(AtTheEnd(show, next, h.to, hops[1..]), read, s.messages, stamp);
    } else if |hops| == 1 {
      assert hops[1..] == [];
      NothingToConvert(show, next, h.to);
    } else {
      var stamp' := if hops[1].options.timestamp.Some? then hops[1].options.timestamp.value
                    else Parse(show, next, h.to).value.timestamp;
      FilledTwice(s.messages, stamp, stamp');
      ChainsPreserveMessages(show, next, h.to, hops[1..]);
    }
  }

  lemma ShorterIsNotFilled(end: Option<seq<Message>>, read: seq<Message>, messages: seq<Message>, stamp: string)
    requires |read| == |messages| && (end.Some? ==> NoLonger(end.value, read))
    requires exists k :: 0 <= k < |messages| && |read[k].text| < |messages[k].text|
    ensures end != Some(Filled(messages, stamp))
  {
    var k :| 0 <= k < |messages| && |read[k].text| < |messages[k].text|;
    assert Filled(messages, stamp)[k].text == messages[k].text;
  }

  // A query in tags.

  /** What is in the tags is what is read. */
  lemma QueryInTagsIsUnwrapped(query: string)
    requires !Blank(query)
    ensures UnwrapUserQuery(OPEN_TAG + query + CLOSE_TAG) == Trim(query)
  {
    hide IsWhitespace, TrimEnd, TrimStart;
    var text := OPEN_TAG + query + CLOSE_TAG;
    assert text[0] == '<' && text[|text| - 1] == CLOSE_TAG[12] == '>';
    NoSpaces('<');
    NoSpaces('>');
    TrimFacts(text);
    TrimFacts(query);
    assert OPEN_TAG <= text && text[|OPEN_TAG|..] == query + CLOSE_TAG;
    assert (query + CLOSE_TAG)[..|query|] == query && (query + CLOSE_TAG)[|query|..] == CLOSE_TAG;
  }

  lemma NoSpaces(c: char)
    requires c == '<' || c == '>'
    ensures !IsWhitespace(c)
  {
  }

  /** A session whose one message is a query in tags, which the round trip through Claude's format takes away. */
  lemma TaggedQueryIsNotKept(show: Value -> string, uuids: nat -> string)
    ensures var s := Session("id", "/src", "now", [Message(User, "<user_query>Fix it</user_query>", None)]);
            ParseClaude(show, SerializeClaude(s, uuids)) == Success(s.(messages := [Message(User, "Fix it", Some("now"))]))
  {
    hide ParseClaude, SerializeClaude, UnwrapUserQuery, IsWhitespace, TrimStart, TrimEnd;
    var text := "<user_query>Fix it</user_query>";
    var s := Session("id", "/src", "now", [Message(User, text, None)]);
    assert text == OPEN_TAG + "Fix it" + CLOSE_TAG;
    assert !IsWhitespace("Fix it"[0]) && !IsWhitespace("Fix it"[5]) by { LettersAreNoSpaces(); }
    TrimFacts("Fix it");
    QueryInTagsIsUnwrapped("Fix it");
    ClaudeReadsBack(show, s, uuids);
    assert AsClaudeReads(s.messages, s.timestamp)[0] == Message(User, "Fix it", Some("now"));
    assert AsClaudeReads(s.messages, s.timestamp) == [Message(User, "Fix it", Some("now"))];
  }

  lemma LettersAreNoSpaces()
    ensures !IsWhitespace('F') && !IsWhitespace('t')
  {
  }
}

/** What is read of any recorded session, whoever wrote it. */
module RecordReading {
  import opened Wrappers
  import opened Text
  import opened Sessions

  /** A content block of Claude's, by what it is. */
  datatype Part =
    | Words(text: string)
    | Call(name: Option<string>, input: Option<Value>)
    | Outcome(failed: bool, content: Option<Value>)
    | Thought
    | Foreign(kind: string)
    | Nothing

  /** The block's fields say that it is this. */
  predicate IsPart(block: Value, part: Part) {
    var kind := Str(block, FType);
    match part
    case Words(text) => kind == Some("text") && Str(block, FText) == Some(text)
    case Call(name, input) => kind == Some("tool_use") && Str(block, FName) == name && Get(block, FInput) == input
    case Outcome(failed, content) =>
      kind == Some("tool_result") && (Get(block, FIsError) == Some(Bool(true)) <==> failed) && Get(block, FContent) == content
    case Thought => kind == Some("thinking") || kind == Some("redacted_thinking")
    case Foreign(name) =>
      kind == Some(name) && name != "text" && name != "tool_use" && name != "tool_result" && name != "thinking" && name != "redacted_thinking"
    case Nothing => kind == None || (kind == Some("text") && Str(block, FText) == None)
  }

  /** The text of a tool's result: a string, or the texts of its blocks on lines of their own. */
  ghost predicate IsResultText(content: Option<Value>, text: string) {
    && (content.Some? && content.value.String? ==> text == content.value.s)
    && (content.Some? && content.value.Array? ==>
          exists lines: seq<string> :: TextsAre(content.value.items, lines) && text == Between(lines, "\n"))
    && (content.None? || !(content.value.String? || content.value.Array?) ==> text == "")
  }

  /** The texts that the blocks have, in order. */
  predicate TextsAre(blocks: seq<Value>, texts: seq<string>) {
    if blocks == [] then texts == []
    else if Str(blocks[0], FText).Some? then texts != [] && texts[0] == Str(blocks[0], FText).value && TextsAre(blocks[1..], texts[1..])
    else TextsAre(blocks[1..], texts)
  }

  /** The strings one after the other, with the separator between each two. */
  function Between(parts: seq<string>, separator: string): string {
    if parts == [] then ""
    else if |parts| == 1 then parts[0]
    else Between(parts[..|parts| - 1], separator) + separator + parts[|parts| - 1]
  }

  /** What the part contributes to the text of its message; nothing, if it is thinking or says nothing. */
  ghost predicate Says(show: Value -> string, part: Part, text: Option<string>) {
    match part
    case Words(words) => text == Some(words)
    case Call(name, input) =>
      text == Some("[external_agent_tool_call: " + (if name.Some? then name.value else "unknown") + "]\ninput: "
                   + show(if input.Some? then input.value else Null) + "\n[/external_agent_tool_call]")
    case Outcome(failed, content) =>
      exists result :: IsResultText(content, result)
                       && text == Some((if failed then "[external_agent_tool_result: error]" else "[external_agent_tool_result]")
                                       + "\n" + result + "\n[/external_agent_tool_result]")
    case Thought => text == None
    case Foreign(kind) => text == Some("[external unsupported block: " + kind + "]")
    case Nothing => text == None
  }

  function Present(texts: seq<Option<string>>): seq<string> {
    if texts == [] then [] else (if texts[0].Some? then [texts[0].value] else []) + Present(texts[1..])
  }

  lemma {:induction false} JoinIsBetween(parts: seq<string>, separator: string)
    ensures Join(parts, separator) == Between(parts, separator)
  {
    if |parts| > 1 {
      JoinIsBetween(parts[1..], separator);
      var front := parts[..|parts| - 1];
      JoinIsBetween(front, separator);
      if |parts| > 2 {
        JoinIsBetween(front[1..], separator);
        assert parts[1..][..|parts| - 2] == front[1..];
      }
    }
  }

  lemma {:induction false} ResultTextsAre(blocks: seq<Value>)
    ensures TextsAre(blocks, ResultTexts(blocks))
  {
    if blocks != [] {
      ResultTextsAre(blocks[1..]);
      if Str(blocks[0], FText).Some? {
        assert ResultTexts(blocks)[1..] == ResultTexts(blocks[1..]);
      } else {
        assert ResultTexts(blocks) == [] + ResultTexts(blocks[1..]) == ResultTexts(blocks[1..]);
      }
    }
  }

  lemma {:induction false} TextsAreOne(blocks: seq<Value>, texts: seq<string>)
    requires TextsAre(blocks, texts)
    ensures texts == ResultTexts(blocks)
  {
    if blocks != [] {
      if Str(blocks[0], FText).Some? {
        TextsAreOne(blocks[1..], texts[1..]);
        assert texts == [texts[0]] + texts[1..];
      } else {
        TextsAreOne(blocks[1..], texts);
      }
    }
  }

  lemma ResultTextIs(content: Option<Value>, text: string)
    ensures IsResultText(content, text) <==> text == ToolResultText(content)
  {
    hide Join, Between, TextsAre, ResultTexts;
    if content.Some? && content.value.Array? {
      var blocks := content.value.items;
      ResultTextsAre(blocks);
      JoinIsBetween(ResultTexts(blocks), "\n");
      if IsResultText(content, text) {
        var lines :| TextsAre(blocks, lines) && text == Between(lines, "\n");
        TextsAreOne(blocks, lines);
      }
    }
  }

  lemma BlockSays(show: Value -> string, block: Value, part: Part, text: Option<string>)
    requires IsPart(block, part) && Says(show, part, text)
    ensures ClaudePart(show, block) == if text.Some? then [text.value] else []
  {
    hide IsResultText, ToolResultText;
    if part.Outcome? {
      var result :| IsResultText(part.content, result)
                    && text == Some((if part.failed then "[external_agent_tool_result: error]" else "[external_agent_tool_result]")
                                    + "\n" + result + "\n[/external_agent_tool_result]");
      ResultTextIs(part.content, result);
      var start := "[external_agent_tool_result" + (if part.failed then ": error" else "") + "]\n";
      assert start == (if part.failed then "[external_agent_tool_result: error]" else "[external_agent_tool_result]") + "\n";
    }
  }

  /** Every block is one of these. */
  lemma EveryBlockIsAPart(block: Value) returns (part: Part)
    ensures IsPart(block, part)
  {
    var kind := Str(block, FType);
    part := if kind.None? then Nothing
            else if kind.value == "text" then (if Str(block, FText).Some? then Words(Str(block, FText).value) else Nothing)
            else if kind.value == "tool_use" then Call(Str(block, FName), Get(block, FInput))
            else if kind.value == "tool_result" then Outcome(Get(block, FIsError) == Some(Bool(true)), Get(block, FContent))
            else if kind.value == "thinking" || kind.value == "redacted_thinking" then Thought
            else Foreign(kind.value);
  }

  ghost predicate BlocksSay(show: Value -> string, blocks: seq<Value>, parts: seq<Part>, texts: seq<Option<string>>) {
    && |parts| == |texts| == |blocks|
    && forall k :: 0 <= k < |blocks| ==> IsPart(blocks[k], parts[k]) && Says(show, parts[k], texts[k])
  }

  lemma {:induction false} AllBlocksSay(show: Value -> string, blocks: seq<Value>, parts: seq<Part>, texts: seq<Option<string>>)
    requires BlocksSay(show, blocks, parts, texts)
    ensures ClaudeParts(show, blocks) == Present(texts)
    decreases |blocks|
  {
    hide IsPart, Says, ClaudePart;
    if blocks != [] {
      BlockSays(show, blocks[0], parts[0], texts[0]);
      assert forall k :: 0 <= k < |blocks[1..]| ==>
               blocks[1..][k] == blocks[k + 1] && parts[1..][k] == parts[k + 1] && texts[1..][k] == texts[k + 1];
      AllBlocksSay(show, blocks[1..], parts[1..], texts[1..]);
    }
  }

  // Records of Claude's.

  /** A record of the conversation itself: the user's or the assistant's, not meta, and not of a side chain. */
  predicate InConversation(r: Value, role: Role) {
    && Str(r, FType) == Some(if role == User then "user" else "assistant")
    && Get(r, FIsMeta) != Some(Bool(true)) && Get(r, FIsSidechain) != Some(Bool(true))
  }

  function ContentOf(r: Value): Option<Value> {
    match Get(r, FMessage) case Some(m) => Get(m, FContent) case None => None
  }

  /** What the record has to say: a string that is not empty, or blocks of which some say something. */
  ghost predicate HasText(show: Value -> string, r: Value, text: string) {
    || (ContentOf(r) == Some(String(text)) && text != "")
    || (exists blocks, parts, texts :: ContentOf(r) == Some(Array(blocks)) && BlocksSay(show, blocks, parts, texts)
                                       && Present(texts) != [] && text == Between(Present(texts), "\n\n"))
  }

  lemma TextIsRead(show: Value -> string, r: Value, text: string)
    requires HasText(show, r, text)
    ensures ClaudeContent(show, ContentOf(r)) == Some(text)
  {
    hide BlocksSay, ClaudeParts, Join, Between, Present;
    if !(ContentOf(r) == Some(String(text)) && text != "") {
      var blocks, parts, texts :| ContentOf(r) == Some(Array(blocks)) && BlocksSay(show, blocks, parts, texts)
                                  && Present(texts) != [] && text == Between(Present(texts), "\n\n");
      AllBlocksSay(show, blocks, parts, texts);
      JoinIsBetween(Present(texts), "\n\n");
    }
  }

  /** The parts of any blocks, and what they say. */
  lemma {:induction false} EveryBlockSays(show: Value -> string, blocks: seq<Value>)
    returns (parts: seq<Part>, texts: seq<Option<string>>)
    ensures BlocksSay(show, blocks, parts, texts)
    decreases |blocks|
  {
    hide IsPart, Says;
    if blocks == [] {
      parts, texts := [], [];
    } else {
      var part := EveryBlockIsAPart(blocks[0]);
      var text := SomethingIsSaid(show, part);
      parts, texts := EveryBlockSays(show, blocks[1..]);
      assert forall k :: 0 < k < |blocks| ==> blocks[k] == blocks[1..][k - 1];
      parts, texts := [part] + parts, [text] + texts;
    }
  }

  lemma SomethingIsSaid(show: Value -> string, part: Part) returns (text: Option<string>)
    ensures Says(show, part, text)
  {
    hide IsResultText;
    match part
    case Words(words) => text := Some(words);
    case Call(name, input) =>
      text := Some("[external_agent_tool_call: " + (if name.Some? then name.value else "unknown") + "]\ninput: "
                   + show(if input.Some? then input.value else Null) + "\n[/external_agent_tool_call]");
    case Outcome(failed, content) =>
      ResultTextIs(content, ToolResultText(content));
      text := Some((if failed then "[external_agent_tool_result: error]" else "[external_agent_tool_result]")
                   + "\n" + ToolResultText(content) + "\n[/external_agent_tool_result]");
    case Foreign(kind) => text := Some("[external unsupported block: " + kind + "]");
    case _ => text := None;
  }

  /** Without text there is none to read. */
  lemma NoTextIsRead(show: Value -> string, r: Value)
    requires forall text :: !HasText(show, r, text)
    ensures ClaudeContent(show, ContentOf(r)) == None
  {
    hide BlocksSay, ClaudeParts, Join, Between, Present;
    var content := ContentOf(r);
    if content.Some? && content.value.String? {
      assert !HasText(show, r, content.value.s);
    } else if content.Some? && content.value.Array? {
      var blocks := content.value.items;
      var parts, texts := EveryBlockSays(show, blocks);
      AllBlocksSay(show, blocks, parts, texts);
      assert !HasText(show, r, Between(Present(texts), "\n\n"));
    }
  }

  lemma {:induction false} ClaudeMessagesAppend(show: Value -> string, a: seq<Value>, b: seq<Value>)
    ensures ClaudeMessages(show, a + b) == ClaudeMessages(show, a) + ClaudeMessages(show, b)
    decreases |a|
  {
    hide ClaudeMessage;
    if a == [] {
      assert a + b == b;
    } else {
      assert (a + b)[1..] == a[1..] + b;
      ClaudeMessagesAppend(show, a[1..], b);
    }
  }

  lemma AroundRecord(show: Value -> string, a: seq<Value>, r: Value, b: seq<Value>)
    ensures ClaudeMessages(show, a + [r] + b) == ClaudeMessages(show, a) + ClaudeMessage(show, r) + ClaudeMessages(show, b)
  {
    hide ClaudeMessage;
    ClaudeMessagesAppend(show, a + [r], b);
    ClaudeMessagesAppend(show, a, [r]);
    assert [r][1..] == [] && ClaudeMessages(show, []) == [] && ClaudeMessage(show, r) + [] == ClaudeMessage(show, r);
  }

  /**
    Of any records, whatever else is in them: one that is not of the conversation, or has
    no text, adds no message; taking it out leaves the messages as they are.
   */
  lemma OtherRecordsAddNothing(show: Value -> string, a: seq<Value>, r: Value, b: seq<Value>)
    requires (forall role :: !InConversation(r, role)) || (forall text :: !HasText(show, r, text))
    ensures var all, without := ParseClaude(show, a + [r] + b), ParseClaude(show, a + b);
            all.Success? && without.Success? ==> all.value.messages == without.value.messages
    ensures ParseClaude(show, a + [r] + b).Success? ==>
              ParseClaude(show, a + [r] + b).value.messages == ClaudeMessages(show, a) + ClaudeMessages(show, b)
  {
    hide ClaudeContent, ClaudeMessages, HasText;
    AroundRecord(show, a, r, b);
    ClaudeMessagesAppend(show, a, b);
    if forall text :: !HasText(show, r, text) { NoTextIsRead(show, r); }
    assert !InConversation(r, User) || (forall text :: !HasText(show, r, text));
    assert !InConversation(r, Assistant) || (forall text :: !HasText(show, r, text));
    assert ClaudeMessage(show, r) == [];
    assert ClaudeMessages(show, a) + [] == ClaudeMessages(show, a);
  }

  /**
    And one of the conversation that has text adds exactly one message at its place, with
    its role, its text, which of a user's is unwrapped, and its timestamp.
   */
  lemma ConversationAddsItsMessage(show: Value -> string, a: seq<Value>, r: Value, b: seq<Value>, role: Role, text: string)
    requires InConversation(r, role) && HasText(show, r, text)
    ensures ParseClaude(show, a + [r] + b).Success? ==>
              ParseClaude(show, a + [r] + b).value.messages
              == ClaudeMessages(show, a)
                 + [Message(role, if role == User then UnwrapUserQuery(text) else text, Str(r, FTimestamp))]
                 + ClaudeMessages(show, b)
  {
    hide ClaudeContent, ClaudeMessages, HasText, UnwrapUserQuery;
    AroundRecord(show, a, r, b);
    TextIsRead(show, r, text);
    assert "user" != "assistant" by { assert |"user"| == 4; }
  }

  /** What is unwrapped: a query in tags, with whitespace or not around the tags and inside of them, that is not blank. */
  lemma UnwrappedExactly(text: string, query: string)
    ensures TaggedQuery(text) == Some(query)
       <==> query != "" && exists inner :: Trim(text) == "<user_query>" + inner + "</user_query>" && Trim(inner) == query
    ensures UnwrapUserQuery(text) == match TaggedQuery(text) case Some(q) => q case None => text
  {
    hide TrimEnd, TrimStart;
    var t := Trim(text);
    if TaggedQuery(text) == Some(query) {
      var rest := StripPrefix(t, OPEN_TAG).value;
      var inner := StripSuffix(rest, CLOSE_TAG).value;
      assert rest == inner + CLOSE_TAG && t == OPEN_TAG + rest;
      assert t == "<user_query>" + inner + "</user_query>";
    }
    if exists inner :: t == "<user_query>" + inner + "</user_query>" && Trim(inner) == query {
      var inner :| t == "<user_query>" + inner + "</user_query>" && Trim(inner) == query;
      assert t[|OPEN_TAG|..] == inner + CLOSE_TAG && OPEN_TAG <= t;
      assert (inner + CLOSE_TAG)[|inner|..] == CLOSE_TAG && (inner + CLOSE_TAG)[..|inner|] == inner;
    }
  }

  // Where the rest comes from.

  lemma {:induction false} FirstIs(f: Value -> Option<string>, records: seq<Value>, k: nat)
    requires k < |records| && f(records[k]).Some? && forall j :: 0 <= j < k ==> f(records[j]).None?
    ensures FirstOf(f, records) == f(records[k])
    decreases k
  {
    if k > 0 {
      assert forall j :: 0 <= j < k - 1 ==> records[1..][j] == records[j + 1];
      FirstIs(f, records[1..], k - 1);
    }
  }

  lemma {:induction false} FirstIsNone(f: Value -> Option<string>, records: seq<Value>)
    ensures FirstOf(f, records).None? <==> forall j :: 0 <= j < |records| ==> f(records[j]).None?
    decreases |records|
  {
    if records != [] {
      FirstIsNone(f, records[1..]);
      assert forall j :: 0 <= j < |records| - 1 ==> records[1..][j] == records[j + 1];
      assert forall j :: 0 < j < |records| ==> records[j] == records[1..][j - 1];
    }
  }

  predicate NamesSession(r: Value) { Str(r, FSessionId).Some? || Str(r, FSession_Id).Some? }

  /** None of the first `n` records has a string for the key. */
  predicate NoneHas(records: seq<Value>, key: Field, n: nat)
    requires n <= |records|
  {
    forall j :: 0 <= j < n ==> Str(records[j], key).None?
  }

  predicate NoneNames(records: seq<Value>, n: nat)
    requires n <= |records|
  {
    forall j :: 0 <= j < n ==> !NamesSession(records[j])
  }

  /**
    A file of Claude's can be read if and only if some record of any kind names a session,
    one a directory, and one a timestamp; the first of these that is missing is reported.
   */
  lemma ReadableExactlyWhen(show: Value -> string, records: seq<Value>)
    ensures var r := ParseClaude(show, records);
            var (id, cwd, stamp) :=
              (NoneNames(records, |records|), NoneHas(records, FCwd, |records|), NoneHas(records, FTimestamp, |records|));
            && (r.Success? <==> !id && !cwd && !stamp)
            && (id ==> r == Failure(NoSessionId)) && (!id && cwd ==> r == Failure(NoCwd))
            && (!id && !cwd && stamp ==> r == Failure(NoTimestamp))
  {
    hide ClaudeMessages, FirstOf, Str;
    FirstIsNone(ClaudeId, records);
    FirstIsNone(RecordCwd, records);
    FirstIsNone(RecordTimestamp, records);
  }

  /** What the first record says that has one of them counts; and of two names of the session in one record, `sessionId`. */
  lemma FirstRecordCounts(show: Value -> string, records: seq<Value>, k: nat)
    requires k < |records| && ParseClaude(show, records).Success?
    ensures var s, r := ParseClaude(show, records).value, records[k];
            && (NamesSession(r) && NoneNames(records, k) ==>
                  s.id == (if Str(r, FSessionId).Some? then Str(r, FSessionId).value else Str(r, FSession_Id).value))
            && (Str(r, FCwd).Some? && NoneHas(records, FCwd, k) ==> s.cwd == Str(r, FCwd).value)
            && (Str(r, FTimestamp).Some? && NoneHas(records, FTimestamp, k) ==> s.timestamp == Str(r, FTimestamp).value)
  {
    hide ClaudeMessages, FirstOf, Str;
    var r := records[k];
    if NamesSession(r) && NoneNames(records, k) { FirstIs(ClaudeId, records, k); }
    if Str(r, FCwd).Some? && NoneHas(records, FCwd, k) { FirstIs(RecordCwd, records, k); }
    if Str(r, FTimestamp).Some? && NoneHas(records, FTimestamp, k) { FirstIs(RecordTimestamp, records, k); }
  }

  // Records of Codex's.

  /** A record of a message of the user's or the assistant's. */
  predicate IsItem(r: Value, role: Role) {
    && Str(r, FType) == Some("response_item") && Get(r, FPayload).Some?
    && var item := Get(r, FPayload).value;
       Str(item, FType) == Some("message") && Str(item, FRole) == Some(if role == User then "user" else "assistant")
  }

  function ItemContent(r: Value): Option<Value> {
    match Get(r, FPayload) case Some(item) => Get(item, FContent) case None => None
  }

  /** What one block of Codex's says. */
  ghost predicate ItemBlockSays(block: Value, text: Option<string>) {
    var kind := Str(block, FType);
    && (kind == Some("input_text") || kind == Some("output_text") ==> text == Str(block, FText))
    && (kind == Some("refusal") ==> text == Str(block, FRefusal))
    && (kind == None ==> text == None)
    && (kind.Some? && kind.value != "input_text" && kind.value != "output_text" && kind.value != "refusal" ==>
          text == Some("[external unsupported Codex content: " + kind.value + "]"))
  }

  ghost predicate ItemBlocksSay(blocks: seq<Value>, texts: seq<Option<string>>) {
    |texts| == |blocks| && forall k :: 0 <= k < |blocks| ==> ItemBlockSays(blocks[k], texts[k])
  }

  lemma {:induction false} AllItemBlocksSay(blocks: seq<Value>, texts: seq<Option<string>>)
    requires ItemBlocksSay(blocks, texts)
    ensures CodexParts(blocks) == Present(texts)
    decreases |blocks|
  {
    if blocks != [] {
      assert ItemBlockSays(blocks[0], texts[0]);
      assert forall k :: 0 <= k < |blocks[1..]| ==> blocks[1..][k] == blocks[k + 1] && texts[1..][k] == texts[k + 1];
      AllItemBlocksSay(blocks[1..], texts[1..]);
    }
  }

  lemma {:induction false} SomeItemTexts(blocks: seq<Value>) returns (texts: seq<Option<string>>)
    ensures ItemBlocksSay(blocks, texts)
    decreases |blocks|
  {
    if blocks == [] {
      texts := [];
    } else {
      texts := SomeItemTexts(blocks[1..]);
      var part := CodexPart(blocks[0]);
      texts := [if part == [] then None else Some(part[0])] + texts;
    }
  }

  ghost predicate ItemHasText(r: Value, text: string) {
    exists blocks, texts :: ItemContent(r) == Some(Array(blocks)) && ItemBlocksSay(blocks, texts)
                            && Present(texts) != [] && text == Between(Present(texts), "\n\n")
  }

  lemma ItemTextIsRead(r: Value, text: string)
    requires ItemHasText(r, text)
    ensures CodexContent(ItemContent(r)) == Some(text)
  {
    hide ItemBlocksSay, CodexParts, Join, Between, Present;
    var blocks, texts :| ItemContent(r) == Some(Array(blocks)) && ItemBlocksSay(blocks, texts)
                         && Present(texts) != [] && text == Between(Present(texts), "\n\n");
    AllItemBlocksSay(blocks, texts);
    JoinIsBetween(Present(texts), "\n\n");
  }

  lemma NoItemTextIsRead(r: Value)
    requires forall text :: !ItemHasText(r, text)
    ensures CodexContent(ItemContent(r)) == None
  {
    hide ItemBlocksSay, CodexParts, Join, Between, Present;
    var content := ItemContent(r);
    if content.Some? && content.value.Array? {
      var texts := SomeItemTexts(content.value.items);
      AllItemBlocksSay(content.value.items, texts);
      assert !ItemHasText(r, Between(Present(texts), "\n\n"));
    }
  }

  lemma AroundItem(a: seq<Value>, r: Value, b: seq<Value>)
    ensures CodexMessages(a + [r] + b) == CodexMessages(a) + CodexMessage(r) + CodexMessages(b)
  {
    hide CodexMessage;
    CodexMessagesAppend(a + [r], b);
    CodexMessagesAppend(a, [r]);
    OneCodexMessage(r);
  }

  /** The same of Codex's files: a record that is no message of the user's or the assistant's, or has no text, adds none. */
  lemma OtherItemsAddNothing(a: seq<Value>, r: Value, b: seq<Value>)
    requires (forall role :: !IsItem(r, role)) || (forall text :: !ItemHasText(r, text))
    ensures ParseCodex(a + [r] + b).Success? ==> ParseCodex(a + [r] + b).value.messages == CodexMessages(a) + CodexMessages(b)
  {
    hide CodexContent, CodexMessages, ItemHasText, FirstOf;
    AroundItem(a, r, b);
    if forall text :: !ItemHasText(r, text) { NoItemTextIsRead(r); }
    assert !IsItem(r, User) || (forall text :: !ItemHasText(r, text));
    assert !IsItem(r, Assistant) || (forall text :: !ItemHasText(r, text));
    assert CodexMessage(r) == [];
    assert CodexMessages(a) + [] == CodexMessages(a);
  }

  /** And any other one adds its message at its place, with the text as it is. */
  lemma ItemAddsItsMessage(a: seq<Value>, r: Value, b: seq<Value>, role: Role, text: string)
    requires IsItem(r, role) && ItemHasText(r, text)
    ensures ParseCodex(a + [r] + b).Success? ==>
              ParseCodex(a + [r] + b).value.messages
              == CodexMessages(a) + [Message(role, text, Str(r, FTimestamp))] + CodexMessages(b)
  {
    hide CodexContent, CodexMessages, ItemHasText, FirstOf;
    AroundItem(a, r, b);
    ItemTextIsRead(r, text);
    assert "user" != "assistant" by { assert |"user"| == 4; }
  }

  predicate IsMetadata(r: Value) { Str(r, FType) == Some("session_meta") }

  lemma {:induction false} FirstMetadata(records: seq<Value>, k: nat)
    requires k < |records| && IsMetadata(records[k]) && forall j :: 0 <= j < k ==> !IsMetadata(records[j])
    ensures FirstOf(SessionMeta, records) == Some(records[k])
    decreases k
  {
    if k > 0 {
      assert forall j :: 0 <= j < k - 1 ==> records[1..][j] == records[j + 1];
      FirstMetadata(records[1..], k - 1);
    }
  }

  lemma {:induction false} NoMetadata(records: seq<Value>)
    requires forall j :: 0 <= j < |records| ==> !IsMetadata(records[j])
    ensures FirstOf(SessionMeta, records) == None
    decreases |records|
  {
    if records != [] {
      assert forall j :: 0 <= j < |records| - 1 ==> records[1..][j] == records[j + 1];
      NoMetadata(records[1..]);
    }
  }

  /**
    A file of Codex's is read by its first record of metadata, which must have a payload
    with an id, a directory, and a timestamp, or the latter itself. Of two ids, `id` counts.
   */
  lemma MetadataCounts(records: seq<Value>, k: nat, payload: Value)
    requires k < |records| && IsMetadata(records[k]) && forall j :: 0 <= j < k ==> !IsMetadata(records[j])
    requires Get(records[k], FPayload) == Some(payload)
    ensures var r, id := ParseCodex(records), if Str(payload, FId).Some? then Str(payload, FId) else Str(payload, FSession_Id);
            var stamp := if Str(payload, FTimestamp).Some? then Str(payload, FTimestamp) else Str(records[k], FTimestamp);
            if id.None? then r == Failure(NoId)
            else if Str(payload, FCwd).None? then r == Failure(NoCwd)
            else if stamp.None? then r == Failure(NoTimestamp)
            else r.Success? && r.value.id == id.value && r.value.cwd == Str(payload, FCwd).value && r.value.timestamp == stamp.value
  {
    hide CodexMessages, FirstOf;
    FirstMetadata(records, k);
  }

  lemma WithoutMetadata(records: seq<Value>)
    requires forall j :: 0 <= j < |records| ==> !IsMetadata(records[j])
    ensures ParseCodex(records) == Failure(NoSessionMeta)
  {
    hide CodexMessages, FirstOf;
    NoMetadata(records);
  }

  lemma WithoutPayload(records: seq<Value>, k: nat)
    requires k < |records| && IsMetadata(records[k]) && forall j :: 0 <= j < k ==> !IsMetadata(records[j])
    requires Get(records[k], FPayload).None?
    ensures ParseCodex(records) == Failure(NoPayload)
  {
    hide CodexMessages, FirstOf;
    FirstMetadata(records, k);
  }
}

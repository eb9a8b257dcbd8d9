/** `ClaudeCliAdapter::parse_line`: one captured line of `claude` to at most one event. */
module ClaudeLines {
  import opened Options
  import opened AgentEvents

  /** What one content block of an assistant message decides, `None` if the next block is to be tried. */
  function AssistantBlock(block: Json, messageId: Option<string>): Option<AgentEvent> {
    var kind := block.Field("type").AsStr();
    if kind == Some("text") then
      if block.Field("text").Str? then Some(Message(block.Field("text").chars, messageId)) else None
    else if kind == Some("thinking") then
      if block.Field("thinking").Str? then Some(Progress(block.Field("thinking").chars)) else None
    else if kind == Some("tool_use") then
      Some(ToolCallStarted(block.Text("name", "unknown"), block.Text("id", "unknown"), block.Field("input"), messageId))
    else Some(RawVendorEvent("assistant.content." + kind.GetOr("unknown"), block))
  }

  function UserBlock(block: Json): Option<Parsing> {
    if block.Field("type").AsStr() == Some("tool_result") then Some(ToolResult(block)) else None
  }

  function FirstAssistantBlock(blocks: seq<Json>, messageId: Option<string>): Option<AgentEvent> {
    if blocks == [] then None
    else
      var e := AssistantBlock(blocks[0], messageId);
      if e.Some? then e else FirstAssistantBlock(blocks[1..], messageId)
  }

  function FirstUserBlock(blocks: seq<Json>): Option<Parsing> {
    if blocks == [] then None
    else
      var e := UserBlock(blocks[0]);
      if e.Some? then e else FirstUserBlock(blocks[1..])
  }

  function Content(message: Json): seq<Json> {
    if message.Field("content").Array? then message.Field("content").items else []
  }

  function ParseLine(line: Line, sessionId: string, profileId: string): Parsing {
    match line
    case Blank => Dropped
    case Malformed(text) => MalformedEvent(text)
    case Value(json) =>
      var kind := json.Text("type", "unknown");
      if kind == "system" then
        if json.Text("subtype", "") == "init" then Parsed(SessionStarted(json.Text("session_id", sessionId), profileId))
        else Parsed(Progress("system." + json.Text("subtype", "")))
      else if kind == "assistant" then
        var message := json.Field("message");
        var e := FirstAssistantBlock(Content(message), message.Field("id").AsStr());
        Parsed(e.GetOr(RawVendorEvent("assistant.unknown", json)))
      else if kind == "user" then
        FirstUserBlock(Content(json.Field("message"))).GetOr(Parsed(RawVendorEvent("user.unknown", json)))
      else if kind == "result" then
        Parsed(Result(json.Field("result").AsStr().GetOr(json.Text("content", "")), json.Field("is_error").AsBool().GetOr(false)))
      else if kind == "error" then
        Parsed(Error(json.Text("message", "Unknown error"), json.Field("code").AsStr()))
      else Parsed(RawVendorEvent(kind, json))
  }

  /** The block that decides is the first one that can, and only a list without one decides nothing. */
  lemma {:induction false} FirstAssistantBlockIsFirst(blocks: seq<Json>, messageId: Option<string>)
    ensures FirstAssistantBlock(blocks, messageId).None? <==>
      forall i :: 0 <= i < |blocks| ==> AssistantBlock(blocks[i], messageId).None?
    ensures FirstAssistantBlock(blocks, messageId).Some? ==> exists k ::
      && 0 <= k < |blocks| && FirstAssistantBlock(blocks, messageId) == AssistantBlock(blocks[k], messageId)
      && forall i :: 0 <= i < k ==> AssistantBlock(blocks[i], messageId).None?
  {
    if blocks != [] && AssistantBlock(blocks[0], messageId).None? {
      FirstAssistantBlockIsFirst(blocks[1..], messageId);
      if FirstAssistantBlock(blocks, messageId).Some? {
        var k :| 0 <= k < |blocks[1..]| && FirstAssistantBlock(blocks[1..], messageId) == AssistantBlock(blocks[1..][k], messageId)
          && forall i :: 0 <= i < k ==> AssistantBlock(blocks[1..][i], messageId).None?;
        assert blocks[1..][k] == blocks[k + 1];
        forall i | 0 <= i < k + 1 ensures AssistantBlock(blocks[i], messageId).None? {
          if i > 0 { assert blocks[i] == blocks[1..][i - 1]; }
        }
      } else {
        forall i | 0 <= i < |blocks| ensures AssistantBlock(blocks[i], messageId).None? {
          if i > 0 { assert blocks[i] == blocks[1..][i - 1]; }
        }
      }
    }
  }

  /** The first tool result of the blocks is at `k`. */
  ghost predicate FirstToolResult(blocks: seq<Json>, k: nat) {
    && k < |blocks| && UserBlock(blocks[k]).Some?
    && forall i :: 0 <= i < k ==> UserBlock(blocks[i]).None?
  }

  /** A user message yields what its first tool result yields, if it has one. */
  lemma {:induction false} FirstUserBlockKind(blocks: seq<Json>)
    ensures FirstUserBlock(blocks).None? ==> forall i :: 0 <= i < |blocks| ==> UserBlock(blocks[i]).None?
    ensures FirstUserBlock(blocks).Some? ==> exists k: nat :: FirstToolResult(blocks, k)
    ensures forall k: nat :: FirstToolResult(blocks, k) ==> FirstUserBlock(blocks) == Some(ToolResult(blocks[k]))
  {
    if blocks != [] && UserBlock(blocks[0]).None? {
      FirstUserBlockKind(blocks[1..]);
      forall i | 0 <= i < |blocks| && FirstUserBlock(blocks).None? ensures UserBlock(blocks[i]).None? {
        if i > 0 { assert blocks[i] == blocks[1..][i - 1]; }
      }
      if k: nat :| FirstToolResult(blocks[1..], k) {
        forall i | 0 <= i < k + 1 ensures UserBlock(blocks[i]).None? {
          if i > 0 { assert blocks[i] == blocks[1..][i - 1]; }
        }
        assert FirstToolResult(blocks, k + 1);
      }
      forall k: nat | FirstToolResult(blocks, k) ensures FirstToolResult(blocks[1..], k - 1) && blocks[k] == blocks[1..][k - 1] {
        assert forall i :: 0 <= i < k - 1 ==> blocks[1..][i] == blocks[i + 1];
      }
    } else if blocks != [] {
      assert FirstToolResult(blocks, 0);
    }
  }

  /** Whether the line is cut for a preview at a byte inside a character. */
  ghost predicate SplitsPreview(line: Line) {
    match line
    case Blank => false
    case Malformed(text) => SplitsChar(text, MAX_LINE_PREVIEW)
    case Value(json) =>
      && json.Field("type") == Str("user")
      && exists k: nat ::
        && FirstToolResult(Content(json.Field("message")), k)
        && SplitsChar(Content(json.Field("message"))[k].Text("content", ""), MAX_CONTENT_PREVIEW)
  }

  lemma {:induction false} ToolResultPanics(blocks: seq<Json>)
    ensures FirstUserBlock(blocks) == Some(Panics) <==>
      exists k: nat :: FirstToolResult(blocks, k) && SplitsChar(blocks[k].Text("content", ""), MAX_CONTENT_PREVIEW)
    ensures FirstUserBlock(blocks).Some? ==> FirstUserBlock(blocks).value.Panics? || FirstUserBlock(blocks).value.Parsed?
    ensures FirstUserBlock(blocks).Some? && FirstUserBlock(blocks).value.Parsed? ==>
      FirstUserBlock(blocks).value.event.ToolCallCompleted?
  {
    FirstUserBlockKind(blocks);
    if k: nat :| FirstToolResult(blocks, k) {
      CutPanicsExactly(blocks[k].Text("content", ""), MAX_CONTENT_PREVIEW);
      assert forall j: nat :: FirstToolResult(blocks, j) ==> j == k;
    }
  }

  lemma {:induction false} UserLine(json: Json, sessionId: string, profileId: string)
    requires json.Field("type") == Str("user")
    ensures var p := ParseLine(Value(json), sessionId, profileId);
      (p.Panics? <==> SplitsPreview(Value(json))) && (p.Panics? || (p.Parsed? && !IsSessionOwn(p.event)))
  {
    ToolResultPanics(Content(json.Field("message")));
  }

  lemma {:induction false} OtherLine(json: Json, sessionId: string, profileId: string)
    requires json.Field("type") != Str("user")
    ensures var p := ParseLine(Value(json), sessionId, profileId); p.Parsed? && !IsSessionOwn(p.event)
  {
    var message := json.Field("message");
    FirstAssistantBlockIsFirst(Content(message), message.Field("id").AsStr());
  }

  /** The parser panics exactly on a preview that splits a character, drops only blank lines, and makes no event of the session's own. */
  lemma {:induction false} OnlyBlankLinesAreDropped(line: Line, sessionId: string, profileId: string)
    ensures var p := ParseLine(line, sessionId, profileId);
      && (p.Dropped? <==> line.Blank?)
      && (p.Panics? <==> SplitsPreview(line))
      && (p.Parsed? ==> !IsSessionOwn(p.event))
  {
    match line
    case Blank =>
    case Malformed(text) => CutPanicsExactly(text, MAX_LINE_PREVIEW);
    case Value(json) =>
      if json.Field("type") == Str("user") {
        UserLine(json, sessionId, profileId);
      } else {
        OtherLine(json, sessionId, profileId);
      }
  }

  /** A line is the result of the agent exactly if its type says so; its text is taken from `result`, else from `content`. */
  lemma {:induction false} ResultLines(line: Line, sessionId: string, profileId: string)
    ensures var p := ParseLine(line, sessionId, profileId);
      && (p.Parsed? && p.event.Result? <==> line.Value? && line.json.Field("type") == Str("result"))
      && (p.Parsed? && p.event.Result? ==>
            && (line.json.Field("result").Str? ==> p.event.content == line.json.Field("result").chars)
            && (!line.json.Field("result").Str? && line.json.Field("content").Str? ==> p.event.content == line.json.Field("content").chars)
            && (p.event.isError <==> line.json.Field("is_error") == Bool(true)))
  {
    if line.Value? {
      var message := line.json.Field("message");
      FirstAssistantBlockIsNoResult(Content(message), message.Field("id").AsStr());
      FirstUserBlockKind(Content(message));
    }
  }

  lemma {:induction false} FirstAssistantBlockIsNoResult(blocks: seq<Json>, messageId: Option<string>)
    ensures var e := FirstAssistantBlock(blocks, messageId); e.Some? ==> !e.value.Result?
  {
    if blocks != [] { FirstAssistantBlockIsNoResult(blocks[1..], messageId); }
  }

  lemma {:induction false} RawBlockTypesAreLong(blocks: seq<Json>, messageId: Option<string>)
    ensures var e := FirstAssistantBlock(blocks, messageId); e.Some? && e.value.RawVendorEvent? ==> |e.value.rawType| >= 18
  {
    if blocks != [] { RawBlockTypesAreLong(blocks[1..], messageId); }
  }

  /** A value is passed on whole, under its own type, exactly if the adapter does not know its type. */
  lemma {:induction false} UnknownTypesArePassedOn(json: Json, sessionId: string, profileId: string)
    ensures ParseLine(Value(json), sessionId, profileId) == Parsed(RawVendorEvent(json.Text("type", "unknown"), json)) <==>
      json.Text("type", "unknown") !in {"system", "assistant", "user", "result", "error"}
  {
    var message := json.Field("message");
    RawBlockTypesAreLong(Content(message), message.Field("id").AsStr());
    FirstUserBlockKind(Content(message));
    assert |"assistant"| == 9 && |"assistant.unknown"| == 17 && |"user"| == 4 && |"user.unknown"| == 12;
  }

  // ----- what each event says about its line -----

  predicate IsTyped(line: Line, kind: string) {
    line.Value? && line.json.Field("type") == Str(kind)
  }

  /** A text or thinking block without its text, which leaves the decision to the next block. */
  predicate IsUndecided(block: Json) {
    || (block.Field("type") == Str("text") && !block.Field("text").Str?)
    || (block.Field("type") == Str("thinking") && !block.Field("thinking").Str?)
  }

  /** `block` is the first of the message's content that is not undecided. */
  ghost predicate Decides(json: Json, block: Json) {
    var content := json.Field("message").Field("content");
    && content.Array?
    && exists k :: 0 <= k < |content.items| && content.items[k] == block && !IsUndecided(block) &&
                   forall i :: 0 <= i < k ==> IsUndecided(content.items[i])
  }

  ghost predicate NoneDecides(json: Json) {
    var content := json.Field("message").Field("content");
    content.Array? ==> forall i :: 0 <= i < |content.items| ==> IsUndecided(content.items[i])
  }

  /** `block` is the first tool result of the message's content. */
  ghost predicate IsFirstResult(json: Json, block: Json) {
    var content := json.Field("message").Field("content");
    && content.Array?
    && exists k :: 0 <= k < |content.items| && content.items[k] == block && block.Field("type") == Str("tool_result") &&
                   forall i :: 0 <= i < k ==> content.items[i].Field("type") != Str("tool_result")
  }

  ghost predicate NoResult(json: Json) {
    var content := json.Field("message").Field("content");
    content.Array? ==> forall i :: 0 <= i < |content.items| ==> content.items[i].Field("type") != Str("tool_result")
  }

  ghost predicate SaysAssistant(json: Json, e: AgentEvent) {
    var id := json.Field("message").Field("id").AsStr();
    match e
    case Message(content, vendorId) =>
      vendorId == id && exists b :: Decides(json, b) && b.Field("type") == Str("text") && b.Field("text") == Str(content)
    case Progress(summary) =>
      exists b :: Decides(json, b) && b.Field("type") == Str("thinking") && b.Field("thinking") == Str(summary)
    case ToolCallStarted(name, toolId, input, vendorId) =>
      && vendorId == id
      && exists b :: Decides(json, b) && b.Field("type") == Str("tool_use") &&
                     name == b.Text("name", "unknown") && toolId == b.Text("id", "unknown") && input == b.Field("input")
    case RawVendorEvent(rawType, payload) =>
      || (NoneDecides(json) && rawType == "assistant.unknown" && payload == json)
      || (Decides(json, payload) && rawType == "assistant.content." + payload.Text("type", "unknown") &&
          payload.Text("type", "unknown") !in {"text", "thinking", "tool_use"})
    case _ => false
  }

  ghost predicate SaysUser(json: Json, e: AgentEvent) {
    || (exists b :: IsFirstResult(json, b) && IsToolResult(b, e))
    || (NoResult(json) && e == RawVendorEvent("user.unknown", json))
  }

  ghost predicate SaysSystem(json: Json, e: AgentEvent, sessionId: string, profileId: string) {
    if json.Field("subtype") == Str("init")
    then e == SessionStarted(json.Text("session_id", sessionId), profileId)
    else e == Progress("system." + json.Text("subtype", ""))
  }

  /** The text of a result comes from `result`, or else from `content`. */
  ghost predicate SaysResult(json: Json, e: AgentEvent) {
    && e.Result?
    && e.content == (if json.Field("result").Str? then json.Field("result").chars else json.Text("content", ""))
    && (e.isError <==> json.Field("is_error") == Bool(true))
  }

  /** The line stands for the event. */
  ghost predicate Says(line: Line, e: AgentEvent, sessionId: string, profileId: string) {
    || (line.Malformed? && IsMalformedEvent(line.text, e))
    || (IsTyped(line, "system") && SaysSystem(line.json, e, sessionId, profileId))
    || (IsTyped(line, "assistant") && SaysAssistant(line.json, e))
    || (IsTyped(line, "user") && SaysUser(line.json, e))
    || (IsTyped(line, "result") && SaysResult(line.json, e))
    || (IsTyped(line, "error") && e == Error(line.json.Text("message", "Unknown error"), line.json.Field("code").AsStr()))
    || (line.Value? && line.json.Text("type", "unknown") !in {"system", "assistant", "user", "result", "error"} &&
        e == RawVendorEvent(line.json.Text("type", "unknown"), line.json))
  }

  lemma {:induction false} BlockIs(block: Json, messageId: Option<string>)
    ensures AssistantBlock(block, messageId).None? <==> IsUndecided(block)
    ensures AssistantBlock(block, messageId).Some? ==>
      var e := AssistantBlock(block, messageId).value;
      var kind := block.Text("type", "unknown");
      if kind == "text" && block.Field("type").Str? then block.Field("text").Str? && e == Message(block.Field("text").chars, messageId)
      else if kind == "thinking" then block.Field("thinking").Str? && e == Progress(block.Field("thinking").chars)
      else if kind == "tool_use" then
        e == ToolCallStarted(block.Text("name", "unknown"), block.Text("id", "unknown"), block.Field("input"), messageId)
      else e == RawVendorEvent("assistant.content." + kind, block)
  {
  }

  lemma {:induction false} DecidingBlock(json: Json) returns (block: Option<Json>)
    ensures block.None? <==> NoneDecides(json)
    ensures block.None? ==> FirstAssistantBlock(Content(json.Field("message")), json.Field("message").Field("id").AsStr()).None?
    ensures forall b :: Decides(json, b) <==> block == Some(b)
    ensures block.Some? ==>
      FirstAssistantBlock(Content(json.Field("message")), json.Field("message").Field("id").AsStr()) ==
      AssistantBlock(block.value, json.Field("message").Field("id").AsStr())
  {
    var blocks, id := Content(json.Field("message")), json.Field("message").Field("id").AsStr();
    FirstAssistantBlockIsFirst(blocks, id);
    forall b ensures AssistantBlock(b, id).None? <==> IsUndecided(b) { BlockIs(b, id); }
    if FirstAssistantBlock(blocks, id).None? {
      block := None;
    } else {
      var k :| 0 <= k < |blocks| && FirstAssistantBlock(blocks, id) == AssistantBlock(blocks[k], id) &&
        forall i :: 0 <= i < k ==> AssistantBlock(blocks[i], id).None?;
      block := Some(blocks[k]);
    }
  }

  lemma {:induction false} AssistantSays(json: Json, e: AgentEvent, sessionId: string, profileId: string)
    requires json.Field("type") == Str("assistant")
    ensures ParseLine(Value(json), sessionId, profileId) == Parsed(e) <==> SaysAssistant(json, e)
  {
    var block := DecidingBlock(json);
    if block.Some? { BlockIs(block.value, json.Field("message").Field("id").AsStr()); }
  }

  lemma {:induction false} FirstResultBlock(json: Json) returns (block: Option<Json>)
    ensures block.None? <==> NoResult(json)
    ensures forall b :: IsFirstResult(json, b) <==> block == Some(b)
    ensures FirstUserBlock(Content(json.Field("message"))) == if block.None? then None else Some(ToolResult(block.value))
  {
    var blocks := Content(json.Field("message"));
    FirstUserBlockKind(blocks);
    if k: nat :| FirstToolResult(blocks, k) {
      block := Some(blocks[k]);
    } else {
      block := None;
    }
  }

  lemma {:induction false} UserSays(json: Json, e: AgentEvent, sessionId: string, profileId: string)
    requires json.Field("type") == Str("user")
    ensures ParseLine(Value(json), sessionId, profileId) == Parsed(e) <==> SaysUser(json, e)
  {
    var block := FirstResultBlock(json);
    if block.Some? { ToolResultIs(block.value, e); }
  }

  lemma {:induction false} OtherSays(json: Json, e: AgentEvent, sessionId: string, profileId: string)
    requires json.Field("type") != Str("assistant") && json.Field("type") != Str("user")
    ensures ParseLine(Value(json), sessionId, profileId) == Parsed(e) <==> Says(Value(json), e, sessionId, profileId)
  {
  }

  /** For every line and every event: the parser makes the event of the line exactly if the line stands for it, field by field. */
  lemma {:induction false} ParsesExactly(line: Line, e: AgentEvent, sessionId: string, profileId: string)
    ensures ParseLine(line, sessionId, profileId) == Parsed(e) <==> Says(line, e, sessionId, profileId)
  {
    match line
    case Blank =>
    case Malformed(text) => MalformedEventIs(text, e);
    case Value(json) =>
      if json.Field("type") == Str("assistant") {
        AssistantSays(json, e, sessionId, profileId);
      } else if json.Field("type") == Str("user") {
        UserSays(json, e, sessionId, profileId);
      } else {
        OtherSays(json, e, sessionId, profileId);
      }
  }
}

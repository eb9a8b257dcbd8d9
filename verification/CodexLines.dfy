/** `CodexCliAdapter::parse_line`: one captured line of `codex` to at most one event. */
module CodexLines {
  import opened Options
  import opened AgentEvents

  function CompletedItem(item: Json): Parsing {
    var kind := item.Text("type", "unknown");
    if kind == "message" then
      if item.Field("message").Str? then Parsed(Message(item.Field("message").chars, item.Field("id").AsStr())) else Dropped
    else if kind == "tool_use" then
      Parsed(ToolCallStarted(item.Text("name", "unknown"), item.Text("id", "unknown"), item.Field("input"), item.Field("id").AsStr()))
    else if kind == "tool_result" then ToolResult(item)
    else if kind == "error" then Parsed(Error(item.Text("message", "Unknown error"), item.Field("code").AsStr()))
    else Parsed(RawVendorEvent("item." + kind, item))
  }

  function ParseLine(line: Line, sessionId: string, profileId: string): Parsing {
    match line
    case Blank => Dropped
    case Malformed(text) => MalformedEvent(text)
    case Value(json) =>
      var kind := json.Text("type", "unknown");
      if kind == "thread.started" then Parsed(SessionStarted(json.Text("thread_id", sessionId), profileId))
      else if kind == "turn.started" then Parsed(Progress("Turn started"))
      else if kind == "item.completed" then CompletedItem(json.Field("item"))
      else if kind == "turn.completed" then Parsed(Result(json.Text("result", "Turn completed"), false))
      else if kind == "turn.failed" then Parsed(Result(json.Field("error").Text("message", "Turn failed"), true))
      else if kind == "error" then Parsed(Error(json.Text("message", "Unknown error"), json.Field("code").AsStr()))
      else Parsed(RawVendorEvent(kind, json))
  }

  /** The one kind of value that yields no event: a completed message whose text is not a string. */
  predicate IsTextlessMessage(json: Json) {
    && json.Field("type") == Str("item.completed")
    && json.Field("item").Field("type") == Str("message")
    && !json.Field("item").Field("message").Str?
  }

  /** Whether the line is cut for a preview at a byte inside a character. */
  ghost predicate SplitsPreview(line: Line) {
    match line
    case Blank => false
    case Malformed(text) => SplitsChar(text, MAX_LINE_PREVIEW)
    case Value(json) =>
      && json.Field("type") == Str("item.completed")
      && json.Field("item").Field("type") == Str("tool_result")
      && SplitsChar(json.Field("item").Text("content", ""), MAX_CONTENT_PREVIEW)
  }

  lemma {:induction false} CompletedItems(item: Json)
    ensures var p := CompletedItem(item);
      && (p.Dropped? <==> item.Field("type") == Str("message") && !item.Field("message").Str?)
      && (p.Panics? <==>
            item.Field("type") == Str("tool_result") && SplitsChar(item.Text("content", ""), MAX_CONTENT_PREVIEW))
      && (p.Parsed? ==> !IsSessionOwn(p.event))
  {
    CutPanicsExactly(item.Text("content", ""), MAX_CONTENT_PREVIEW);
  }

  lemma {:induction false} DroppedLines(line: Line, sessionId: string, profileId: string)
    ensures var p := ParseLine(line, sessionId, profileId);
      && (p.Dropped? <==> line.Blank? || (line.Value? && IsTextlessMessage(line.json)))
      && (p.Panics? <==> SplitsPreview(line))
      && (p.Parsed? ==> !IsSessionOwn(p.event))
  {
    match line
    case Blank =>
    case Malformed(text) => CutPanicsExactly(text, MAX_LINE_PREVIEW);
    case Value(json) => CompletedItems(json.Field("item"));
  }

  /** A line is the result of a turn exactly if the turn completed or failed, an error exactly if it failed. */
  lemma {:induction false} ResultLines(line: Line, sessionId: string, profileId: string)
    ensures var p := ParseLine(line, sessionId, profileId);
      && (p.Parsed? && p.event.Result? <==>
            line.Value? && (line.json.Field("type") == Str("turn.completed") || line.json.Field("type") == Str("turn.failed")))
      && (p.Parsed? && p.event.Result? ==>
            && (p.event.isError <==> line.json.Field("type") == Str("turn.failed"))
            && p.event.content ==
                 if p.event.isError then line.json.Field("error").Text("message", "Turn failed")
                 else line.json.Text("result", "Turn completed"))
  {
  }

  /** A value is passed on whole, under its own type, exactly if the adapter does not know its type. */
  lemma {:induction false} UnknownTypesArePassedOn(json: Json, sessionId: string, profileId: string)
    ensures ParseLine(Value(json), sessionId, profileId) == Parsed(RawVendorEvent(json.Text("type", "unknown"), json)) <==>
      json.Text("type", "unknown") !in
        {"thread.started", "turn.started", "item.completed", "turn.completed", "turn.failed", "error"}
  {
  }

  // ----- what each event says about its line -----

  predicate IsTyped(line: Line, kind: string) {
    line.Value? && line.json.Field("type") == Str(kind)
  }

  /** A completed item stands for the event. Only a message without text stands for none. */
  ghost predicate SaysItem(item: Json, e: AgentEvent) {
    var kind, vendorId := item.Text("type", "unknown"), item.Field("id").AsStr();
    match e
    case Message(content, id) => kind == "message" && item.Field("message") == Str(content) && id == vendorId
    case ToolCallStarted(name, toolId, input, id) =>
      kind == "tool_use" && name == item.Text("name", "unknown") && toolId == item.Text("id", "unknown") &&
      input == item.Field("input") && id == vendorId
    case ToolCallCompleted(_, _, _) => kind == "tool_result" && IsToolResult(item, e)
    case Error(message, code) =>
      kind == "error" && message == item.Text("message", "Unknown error") && code == item.Field("code").AsStr()
    case RawVendorEvent(rawType, payload) =>
      kind !in {"message", "tool_use", "tool_result", "error"} && rawType == "item." + kind && payload == item
    case _ => false
  }

  /** The line stands for the event. */
  ghost predicate Says(line: Line, e: AgentEvent, sessionId: string, profileId: string) {
    || (line.Malformed? && IsMalformedEvent(line.text, e))
    || (IsTyped(line, "thread.started") && e == SessionStarted(line.json.Text("thread_id", sessionId), profileId))
    || (IsTyped(line, "turn.started") && e == Progress("Turn started"))
    || (IsTyped(line, "item.completed") && SaysItem(line.json.Field("item"), e))
    || (IsTyped(line, "turn.completed") && e == Result(line.json.Text("result", "Turn completed"), false))
    || (IsTyped(line, "turn.failed") && e == Result(line.json.Field("error").Text("message", "Turn failed"), true))
    || (IsTyped(line, "error") && e == Error(line.json.Text("message", "Unknown error"), line.json.Field("code").AsStr()))
    || (line.Value? && e == RawVendorEvent(line.json.Text("type", "unknown"), line.json) &&
        line.json.Text("type", "unknown") !in
          {"thread.started", "turn.started", "item.completed", "turn.completed", "turn.failed", "error"})
  }

  lemma {:induction false} ItemSays(item: Json, e: AgentEvent)
    ensures CompletedItem(item) == Parsed(e) <==> SaysItem(item, e)
  {
    ToolResultIs(item, e);
  }

  lemma {:induction false} ValueSays(json: Json, e: AgentEvent, sessionId: string, profileId: string)
    ensures ParseLine(Value(json), sessionId, profileId) == Parsed(e) <==> Says(Value(json), e, sessionId, profileId)
  {
    ItemSays(json.Field("item"), e);
  }

  /** For every line and every event: the parser makes the event of the line exactly if the line stands for it, field by field. */
  lemma {:induction false} ParsesExactly(line: Line, e: AgentEvent, sessionId: string, profileId: string)
    ensures ParseLine(line, sessionId, profileId) == Parsed(e) <==> Says(line, e, sessionId, profileId)
  {
    match line
    case Blank =>
    case Malformed(text) => MalformedEventIs(text, e);
    case Value(json) => ValueSays(json, e, sessionId, profileId);
  }
}

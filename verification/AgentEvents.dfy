/** The events of an agent session, and JSON as `serde_json` values are read: a missing field is null. */
module AgentEvents {
  import opened Options

  datatype Json =
    | Null
    | Bool(flag: bool)
    | Number(text: string)
    | Str(chars: string)
    | Array(items: seq<Json>)
    | Object(fields: map<string, Json>)
  {
    /** `value[key]`, and equally `value.get(key)` followed by a default of null. */
    function Field(key: string): Json {
      if Object? && key in fields then fields[key] else Null
    }

    function AsStr(): Option<string> {
      if Str? then Some(chars) else None
    }

    function AsBool(): Option<bool> {
      if Bool? then Some(flag) else None
    }

    function Text(key: string, default: string): string {
      Field(key).AsStr().GetOr(default)
    }
  }

  /** Reading a field after it was set gives what was set, missing ones are null, and other fields are not touched. */
  lemma {:induction false} FieldLaws(fields: map<string, Json>, key: string, value: Json, other: string)
    ensures Object(fields[key := value]).Field(key) == value
    ensures Object(fields - {key}).Field(key) == Null
    ensures other != key ==> Object(fields[key := value]).Field(other) == Object(fields).Field(other)
    ensures !value.Object? ==> value.Field(key) == Null
  {
  }

  /** Reading text: strings are read as they are, anything else as the default. */
  lemma {:induction false} TextLaws(fields: map<string, Json>, key: string, text: string, value: Json, default: string)
    ensures Object(fields[key := Str(text)]).Text(key, default) == text
    ensures !value.Str? ==> Object(fields[key := value]).Text(key, default) == default && value.AsStr() == None
    ensures Object(fields - {key}).Text(key, default) == default && Str(text).AsStr() == Some(text)
  {
  }

  datatype TerminationReason =
    | Completed | ProcessExitedWith(exitCode: int) | Interrupted | Cancelled | Timeout | Lost | Unknown

  datatype AgentEvent =
    | SessionStarted(sessionId: string, profileId: string)
    | Message(content: string, vendorEventId: Option<string>)
    | Progress(summary: string)
    | ToolCallStarted(toolName: string, toolUseId: string, toolInput: Json, vendorEventId: Option<string>)
    | ToolCallCompleted(toolUseId: string, isError: bool, contentPreview: string)
    | Result(content: string, isError: bool)
    | Error(message: string, code: Option<string>)
    | ProcessExited(exitCode: int)
    | RawVendorEvent(rawType: string, payload: Json)
    | SessionEnded(sessionId: string, reason: TerminationReason, resultReceived: bool, processExitReceived: bool)

  /** One captured line: only white space, text that is not JSON, or the JSON value it holds. */
  datatype Line = Blank | Malformed(text: string) | Value(json: Json)

  /** What a line parses to: nothing, an event, or a panic of the parser. */
  datatype Parsing = Dropped | Parsed(event: AgentEvent) | Panics

  // ----- previews, which are cut at a byte -----

  function Utf8Len(c: char): nat {
    if c as int < 0x80 then 1 else if c as int < 0x800 then 2 else if c as int < 0x10000 then 3 else 4
  }

  function Utf8Bytes(text: string): nat {
    if text == "" then 0 else Utf8Len(text[0]) + Utf8Bytes(text[1..])
  }

  /** `&text[..text.len().min(n)]`: `None` is the panic of an index that is not at a character boundary. */
  function Cut(text: string, n: nat): Option<string> {
    if text == "" || n == 0 then Some("")
    else if Utf8Len(text[0]) > n then None
    else
      var rest := Cut(text[1..], n - Utf8Len(text[0]));
      if rest.Some? then Some([text[0]] + rest.value) else None
  }

  /** Byte `n` of the text falls inside a character. */
  ghost predicate SplitsChar(text: string, n: nat) {
    exists k :: 0 <= k < |text| && Utf8Bytes(text[..k]) < n < Utf8Bytes(text[..k + 1])
  }

  lemma {:induction false} BytesOfPrefix(text: string, k: nat)
    requires 0 < k <= |text|
    ensures Utf8Bytes(text[..k]) == Utf8Len(text[0]) + Utf8Bytes(text[1..][..k - 1])
  {
    assert text[..k][1..] == text[1..][..k - 1];
  }

  lemma {:induction false} SplitsCharShifts(text: string, n: nat)
    requires text != "" && Utf8Len(text[0]) <= n
    ensures SplitsChar(text, n) <==> SplitsChar(text[1..], n - Utf8Len(text[0]))
  {
    var first, rest := Utf8Len(text[0]), text[1..];
    if k :| 0 <= k < |text| && Utf8Bytes(text[..k]) < n < Utf8Bytes(text[..k + 1]) {
      BytesOfPrefix(text, k + 1);
      if k > 0 {
        BytesOfPrefix(text, k);
        assert Utf8Bytes(rest[..k - 1]) < n - first < Utf8Bytes(rest[..k - 1 + 1]);
      }
    }
    if k :| 0 <= k < |rest| && Utf8Bytes(rest[..k]) < n - first < Utf8Bytes(rest[..k + 1]) {
      BytesOfPrefix(text, k + 1);
      BytesOfPrefix(text, k + 2);
      assert Utf8Bytes(text[..k + 1]) < n < Utf8Bytes(text[..k + 1 + 1]);
    }
  }

  /** A preview panics exactly if the byte at which it is cut falls inside a character; otherwise it is a first part of the text. */
  lemma {:induction false} CutPanicsExactly(text: string, n: nat)
    ensures Cut(text, n).None? <==> SplitsChar(text, n)
    ensures Cut(text, n).Some? ==> Cut(text, n).value <= text
    ensures Cut(text, n).Some? ==> Utf8Bytes(Cut(text, n).value) == if Utf8Bytes(text) <= n then Utf8Bytes(text) else n
  {
    if text == "" || n == 0 {
      if k :| 0 <= k < |text| && Utf8Bytes(text[..k]) < n < Utf8Bytes(text[..k + 1]) {
        assert false;
      }
    } else if Utf8Len(text[0]) > n {
      assert text[..0] == "" && text[..1][1..] == "";
      assert Utf8Bytes(text[..0]) < n < Utf8Bytes(text[..0 + 1]);
    } else {
      CutPanicsExactly(text[1..], n - Utf8Len(text[0]));
      SplitsCharShifts(text, n);
      if Cut(text, n).Some? {
        assert Cut(text, n).value[1..] == Cut(text[1..], n - Utf8Len(text[0])).value;
      }
    }
  }

  /** `preview` is the longest first part of the text that takes at most `n` bytes, and takes `n` if the text is longer. */
  ghost predicate IsPreview(text: string, n: nat, preview: string) {
    preview <= text && Utf8Bytes(preview) == if Utf8Bytes(text) <= n then Utf8Bytes(text) else n
  }

  lemma {:induction false} PrefixBytesRise(text: string, j: nat, k: nat)
    requires j < k <= |text|
    ensures Utf8Bytes(text[..j]) < Utf8Bytes(text[..k])
  {
    assert text[..k] == text[..j] + text[j..k];
    BytesOfConcat(text[..j], text[j..k]);
  }

  lemma {:induction false} CutIsPreview(text: string, n: nat, preview: string)
    ensures Cut(text, n) == Some(preview) <==> IsPreview(text, n, preview)
  {
    CutPanicsExactly(text, n);
    if Cut(text, n).Some? && IsPreview(text, n, preview) {
      var other := Cut(text, n).value;
      assert text[..|other|] == other && text[..|preview|] == preview;
      if |other| < |preview| {
        PrefixBytesRise(text, |other|, |preview|);
      } else if |preview| < |other| {
        PrefixBytesRise(text, |preview|, |other|);
      }
    } else if IsPreview(text, n, preview) {
      PreviewIsAtBoundary(text, n, preview);
    }
  }

  lemma {:induction false} PreviewIsAtBoundary(text: string, n: nat, preview: string)
    requires IsPreview(text, n, preview)
    ensures !SplitsChar(text, n)
  {
    assert text[..|preview|] == preview && text[..|text|] == text;
    forall k | 0 <= k < |text| ensures !(Utf8Bytes(text[..k]) < n < Utf8Bytes(text[..k + 1])) {
      if k + 1 < |preview| {
        PrefixBytesRise(text, k + 1, |preview|);
      } else if |preview| < k {
        PrefixBytesRise(text, |preview|, k);
      }
      if k + 1 < |text| { PrefixBytesRise(text, k + 1, |text|); }
    }
  }

  function Power2(n: nat): nat {
    if n == 0 then 1 else 2 * Power2(n - 1)
  }

  /** UTF-8 takes as few bytes as hold the character: one byte holds 7 bits, and `n` bytes hold `5 * n + 1`. */
  lemma {:induction false} Utf8IsShortest(c: char)
    ensures var n := Utf8Len(c);
      && 1 <= n <= 4
      && c as int < Power2(if n == 1 then 7 else 5 * n + 1)
      && (n > 1 ==> Power2(if n == 2 then 7 else 5 * (n - 1) + 1) <= c as int)
  {
    assert Power2(7) == 0x80;
    assert Power2(11) == 16 * Power2(7);
    assert Power2(16) == 32 * Power2(11);
    assert Power2(21) == 32 * Power2(16);
  }

  const MAX_LINE_PREVIEW := 256
  const MAX_CONTENT_PREVIEW := 200

  function Letters(n: nat): string {
    if n == 0 then "" else "a" + Letters(n - 1)
  }

  lemma {:induction false} LettersAreBytes(n: nat, k: nat)
    requires k <= n
    ensures |Letters(n)| == n && Utf8Bytes(Letters(n)[..k]) == k
  {
    if n > 0 {
      assert Letters(n)[1..] == Letters(n - 1);
      LettersAreBytes(n - 1, if k > 0 then k - 1 else 0);
      if k > 0 { BytesOfPrefix(Letters(n), k); }
    }
  }

  /** Such texts exist: 255 letters and a character of two bytes. */
  lemma {:induction false} TextThatSplits() returns (text: string)
    ensures SplitsChar(text, MAX_LINE_PREVIEW)
  {
    var front := Letters(255);
    text := front + "\U{E9}";
    LettersAreBytes(255, 255);
    assert front[..255] == front && text[..255] == front && text[..256] == text;
    BytesOfConcat(front, "\U{E9}");
    assert Utf8Bytes(text[..255]) < 256 < Utf8Bytes(text[..255 + 1]);
  }

  lemma {:induction false} BytesOfConcat(a: string, b: string)
    ensures Utf8Bytes(a + b) == Utf8Bytes(a) + Utf8Bytes(b)
  {
    if a == "" {
      assert a + b == b;
    } else {
      assert (a + b)[1..] == a[1..] + b;
      BytesOfConcat(a[1..], b);
    }
  }

  function MalformedEvent(text: string): Parsing {
    match Cut(text, MAX_LINE_PREVIEW)
    case None => Panics
    case Some(preview) =>
      Parsed(RawVendorEvent("malformed_json",
                            Object(map["raw_line_preview" := Str(preview), "error" := Str("failed to parse JSONL line")])))
  }

  /** The event of a tool result block. */
  function ToolResult(block: Json): Parsing {
    match Cut(block.Text("content", ""), MAX_CONTENT_PREVIEW)
    case None => Panics
    case Some(preview) =>
      Parsed(ToolCallCompleted(block.Text("tool_use_id", "unknown"), block.Field("is_error").AsBool().GetOr(false), preview))
  }

  /** The event that a tool result stands for: its id, its error flag, and at most 200 bytes of its text. */
  ghost predicate IsToolResult(block: Json, e: AgentEvent) {
    && e.ToolCallCompleted?
    && e.toolUseId == block.Text("tool_use_id", "unknown")
    && (e.isError <==> block.Field("is_error") == Bool(true))
    && IsPreview(block.Text("content", ""), 200, e.contentPreview)
  }

  lemma {:induction false} ToolResultIs(block: Json, e: AgentEvent)
    ensures ToolResult(block) == Parsed(e) <==> IsToolResult(block, e)
  {
    if e.ToolCallCompleted? { CutIsPreview(block.Text("content", ""), 200, e.contentPreview); }
  }

  /** The event that a malformed line stands for: a vendor event with at most 256 bytes of the line. */
  ghost predicate IsMalformedEvent(text: string, e: AgentEvent) {
    && e.RawVendorEvent? && e.rawType == "malformed_json" && e.payload.Object?
    && e.payload.fields.Keys == {"raw_line_preview", "error"}
    && e.payload.Field("error") == Str("failed to parse JSONL line")
    && e.payload.Field("raw_line_preview").Str?
    && IsPreview(text, 256, e.payload.Field("raw_line_preview").chars)
  }

  lemma {:induction false} MalformedEventIs(text: string, e: AgentEvent)
    ensures MalformedEvent(text) == Parsed(e) <==> IsMalformedEvent(text, e)
  {
    if e.RawVendorEvent? && e.payload.Field("raw_line_preview").Str? {
      var preview := e.payload.Field("raw_line_preview").chars;
      CutIsPreview(text, 256, preview);
      if IsMalformedEvent(text, e) {
        assert e.payload.fields == map["raw_line_preview" := Str(preview), "error" := Str("failed to parse JSONL line")];
      }
    }
  }

  /** The events that only the session itself makes. */
  predicate IsSessionOwn(e: AgentEvent) {
    e.ProcessExited? || e.SessionEnded?
  }
}

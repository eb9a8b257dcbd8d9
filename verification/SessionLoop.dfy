/**
 `receive_events`, the polling loop both adapters share: it observes the process, turns the captured
 lines into events, survives a sink that refuses them, and ends the stream.
 */
module SessionLoop {
  import opened Options
  import opened AgentEvents
  import ClaudeLines
  import CodexLines

  datatype Adapter = Claude | Codex

  function Parse(adapter: Adapter, line: Line, sessionId: string, profileId: string): Parsing {
    match adapter
    case Claude => ClaudeLines.ParseLine(line, sessionId, profileId)
    case Codex => CodexLines.ParseLine(line, sessionId, profileId)
  }

  datatype Termination =
    | Completed | NonZeroExit | Timeout | Cancelled | ProcessUnknown | Killed | SpawnFailed | Lost

  /** `spool`: the lines of the spool file if there is one, `Some(None)` if it cannot be read. */
  datatype ProcessOutcome = ProcessOutcome(
    termination: Termination, exitCode: Option<int>, spool: Option<Option<seq<Line>>>, preview: Option<seq<Line>>)

  datatype ProcessState = Starting | Running | Finished(outcome: ProcessOutcome)

  /** One turn of the loop: whether an interrupt came before it, and what the process manager answers. */
  datatype Observation = Observation(interrupted: bool, state: Option<ProcessState>)

  datatype Returned = NotStarted | Ended | StillPolling | Panicked

  // ----- what a session is to send -----

  function Captured(o: ProcessOutcome): seq<Line> {
    match o.spool
    case Some(content) => content.GetOr([])
    case None => o.preview.GetOr([])
  }

  /** The events that the lines yield, in order. */
  function EventsOf(adapter: Adapter, lines: seq<Line>, sessionId: string, profileId: string): seq<AgentEvent> {
    if lines == [] then []
    else
      var p := Parse(adapter, lines[|lines| - 1], sessionId, profileId);
      EventsOf(adapter, lines[..|lines| - 1], sessionId, profileId) + (if p.Parsed? then [p.event] else [])
  }

  /** How many lines come before the first one on which the parser panics. */
  function CleanLines(adapter: Adapter, lines: seq<Line>, sessionId: string, profileId: string): (n: nat)
    ensures n <= |lines|
  {
    if lines == [] || Parse(adapter, lines[0], sessionId, profileId).Panics? then 0
    else 1 + CleanLines(adapter, lines[1..], sessionId, profileId)
  }

  lemma {:induction false} FirstPanicIs(adapter: Adapter, lines: seq<Line>, n: nat, sessionId: string, profileId: string)
    requires n < |lines| && n <= CleanLines(adapter, lines, sessionId, profileId)
    ensures Parse(adapter, lines[n], sessionId, profileId).Panics? <==> n == CleanLines(adapter, lines, sessionId, profileId)
  {
    if n > 0 {
      assert lines[n] == lines[1..][n - 1];
      FirstPanicIs(adapter, lines[1..], n - 1, sessionId, profileId);
    }
  }

  /** The events there are to send: those of the lines before a panic. */
  function CleanEvents(adapter: Adapter, lines: seq<Line>, sessionId: string, profileId: string): seq<AgentEvent> {
    EventsOf(adapter, lines[..CleanLines(adapter, lines, sessionId, profileId)], sessionId, profileId)
  }

  /** The parser gets to a line on which it panics: no send before it fails. */
  predicate ParserPanics(adapter: Adapter, lines: seq<Line>, sessionId: string, profileId: string, fails: nat -> bool) {
    && CleanLines(adapter, lines, sessionId, profileId) < |lines|
    && forall i :: 0 <= i < |CleanEvents(adapter, lines, sessionId, profileId)| ==> !fails(i)
  }

  function Reason(o: ProcessOutcome, sinkClosed: bool): TerminationReason {
    if sinkClosed then TerminationReason.Cancelled
    else
      match o.termination
      case Completed => TerminationReason.Completed
      case NonZeroExit => ProcessExitedWith(o.exitCode.GetOr(1))
      case Timeout => TerminationReason.Timeout
      case Cancelled => TerminationReason.Cancelled
      case Killed => TerminationReason.Cancelled
      case Lost => TerminationReason.Lost
      case ProcessUnknown => Unknown
      case SpawnFailed => Unknown
  }

  /** `tried` is what gets sent of `events` when send number `i` fails just if `fails(i)`: all up to the first failure. */
  predicate UpToFirstFailure(events: seq<AgentEvent>, fails: nat -> bool, tried: seq<AgentEvent>) {
    && tried <= events
    && (forall i :: 0 <= i < |tried| - 1 ==> !fails(i))
    && (tried == events || FailedLast(fails, tried))
  }

  predicate FailedLast(fails: nat -> bool, tried: seq<AgentEvent>) {
    tried != [] && fails(|tried| - 1)
  }

  predicate HasResult(events: seq<AgentEvent>) {
    exists i :: 0 <= i < |events| && events[i].Result?
  }

  /** The turn that ends the loop: the first one that is interrupted or does not find the process running. */
  predicate StopsAt(obs: seq<Observation>, k: nat) {
    && k < |obs|
    && (forall i :: 0 <= i < k ==> !obs[i].interrupted && obs[i].state == Some(Running))
    && (obs[k].interrupted || obs[k].state != Some(Running))
  }

  /** The loop ends in a panic. */
  predicate PanicsIn(adapter: Adapter, sessionId: string, profileId: string, turn: Observation, fails: nat -> bool) {
    && !turn.interrupted && turn.state.Some? && turn.state.value.Finished?
    && ParserPanics(adapter, Captured(turn.state.value.outcome), sessionId, profileId, fails)
  }

  /**
   What the turn that ends the loop sends: nothing; the end alone; the captured events, the exit and the
   end; or, if the parser panics, the events before that and nothing else.
   */
  predicate EndsWith(adapter: Adapter, sessionId: string, profileId: string, turn: Observation, fails: nat -> bool, sent: seq<AgentEvent>) {
    if turn.interrupted then sent == []
    else
      match turn.state
      case None => sent == [SessionEnded(sessionId, TerminationReason.Lost, false, false)]
      case Some(Finished(o)) =>
        var events := CleanEvents(adapter, Captured(o), sessionId, profileId);
        if ParserPanics(adapter, Captured(o), sessionId, profileId, fails)
        then sent == events && forall i :: 0 <= i < |sent| ==> !IsSessionOwn(sent[i])
        else
          && |sent| >= 2
          && var tried := sent[..|sent| - 2];
          && UpToFirstFailure(events, fails, tried)
          && (forall i :: 0 <= i < |tried| ==> !IsSessionOwn(tried[i]))
          && sent[|sent| - 2] == ProcessExited(o.exitCode.GetOr(-1))
          && sent[|sent| - 1] == SessionEnded(sessionId, Reason(o, FailedLast(fails, tried)), HasResult(tried), true)
      case Some(_) => sent == [SessionEnded(sessionId, Unknown, false, false)]
  }

  lemma {:induction false} EventsExtend(adapter: Adapter, lines: seq<Line>, n: nat, sessionId: string, profileId: string)
    requires n < |lines|
    ensures EventsOf(adapter, lines[..n + 1], sessionId, profileId) ==
      EventsOf(adapter, lines[..n], sessionId, profileId) +
      var p := Parse(adapter, lines[n], sessionId, profileId); if p.Parsed? then [p.event] else []
  {
    assert lines[..n + 1][..n] == lines[..n];
  }

  lemma {:induction false} EventsGrow(adapter: Adapter, lines: seq<Line>, n: nat, m: nat, sessionId: string, profileId: string)
    requires n <= m <= |lines|
    ensures EventsOf(adapter, lines[..n], sessionId, profileId) <= EventsOf(adapter, lines[..m], sessionId, profileId)
    decreases m
  {
    if n < m {
      EventsGrow(adapter, lines, n, m - 1, sessionId, profileId);
      EventsExtend(adapter, lines, m - 1, sessionId, profileId);
    }
  }

  lemma {:induction false} ParseIsNeverSessionOwn(adapter: Adapter, line: Line, sessionId: string, profileId: string)
    ensures var p := Parse(adapter, line, sessionId, profileId); p.Parsed? ==> !IsSessionOwn(p.event)
  {
    match adapter
    case Claude => ClaudeLines.OnlyBlankLinesAreDropped(line, sessionId, profileId);
    case Codex => CodexLines.DroppedLines(line, sessionId, profileId);
  }

  /** Which lines yield an event, in order. */
  function Sources(adapter: Adapter, lines: seq<Line>, sessionId: string, profileId: string): seq<nat> {
    if lines == [] then []
    else
      Sources(adapter, lines[..|lines| - 1], sessionId, profileId) +
      (if Parse(adapter, lines[|lines| - 1], sessionId, profileId).Parsed? then [|lines| - 1] else [])
  }

  ghost predicate Rises(from: seq<nat>, n: nat) {
    && (forall i :: 0 <= i < |from| ==> from[i] < n)
    && (forall i, j :: 0 <= i < j < |from| ==> from[i] < from[j])
  }

  lemma {:induction false} RisesExtends(from: seq<nat>, n: nat)
    requires Rises(from, n)
    ensures Rises(from, n + 1) && Rises(from + [n], n + 1)
  {
  }

  lemma {:induction false} SourcesRise(adapter: Adapter, lines: seq<Line>, sessionId: string, profileId: string)
    ensures Rises(Sources(adapter, lines, sessionId, profileId), |lines|)
  {
    if lines != [] {
      var front := lines[..|lines| - 1];
      SourcesRise(adapter, front, sessionId, profileId);
      RisesExtends(Sources(adapter, front, sessionId, profileId), |front|);
      assert Sources(adapter, front, sessionId, profileId) + [] == Sources(adapter, front, sessionId, profileId);
    }
  }

  lemma {:induction false} SourcesAreAll(adapter: Adapter, lines: seq<Line>, sessionId: string, profileId: string, n: nat)
    requires n < |lines|
    ensures Parse(adapter, lines[n], sessionId, profileId).Parsed? ==> n in Sources(adapter, lines, sessionId, profileId)
  {
    var front, from := lines[..|lines| - 1], Sources(adapter, lines, sessionId, profileId);
    if n < |front| {
      SourcesAreAll(adapter, front, sessionId, profileId, n);
      assert front[n] == lines[n];
      assert forall m :: m in Sources(adapter, front, sessionId, profileId) ==> m in from;
    } else if Parse(adapter, lines[n], sessionId, profileId).Parsed? {
      assert from[|from| - 1] == n;
    }
  }

  /** The line stands for the event in the adapter's own format. */
  ghost predicate IsSaid(adapter: Adapter, line: Line, e: AgentEvent, sessionId: string, profileId: string) {
    if adapter.Claude? then ClaudeLines.Says(line, e, sessionId, profileId) else CodexLines.Says(line, e, sessionId, profileId)
  }

  lemma {:induction false} ParsedIsSaid(adapter: Adapter, line: Line, e: AgentEvent, sessionId: string, profileId: string)
    ensures Parse(adapter, line, sessionId, profileId) == Parsed(e) <==> IsSaid(adapter, line, e, sessionId, profileId)
  {
    match adapter
    case Claude => ClaudeLines.ParsesExactly(line, e, sessionId, profileId);
    case Codex => CodexLines.ParsesExactly(line, e, sessionId, profileId);
  }

  lemma {:induction false} EventOfSource(adapter: Adapter, lines: seq<Line>, sessionId: string, profileId: string, i: nat)
    requires i < |EventsOf(adapter, lines, sessionId, profileId)|
    ensures i < |Sources(adapter, lines, sessionId, profileId)|
    ensures var n := Sources(adapter, lines, sessionId, profileId)[i];
      n < |lines| && Parse(adapter, lines[n], sessionId, profileId) == Parsed(EventsOf(adapter, lines, sessionId, profileId)[i])
  {
    var front := lines[..|lines| - 1];
    SameLength(adapter, front, sessionId, profileId);
    if i < |EventsOf(adapter, front, sessionId, profileId)| {
      EventOfSource(adapter, front, sessionId, profileId, i);
    }
  }

  lemma {:induction false} SameLength(adapter: Adapter, lines: seq<Line>, sessionId: string, profileId: string)
    ensures |Sources(adapter, lines, sessionId, profileId)| == |EventsOf(adapter, lines, sessionId, profileId)|
  {
    if lines != [] { SameLength(adapter, lines[..|lines| - 1], sessionId, profileId); }
  }

  /**
   What an adapter sends of the captured lines is, in order, what each line stands for in the adapter's
   own format; and every line that stands for an event is among them.
   */
  lemma {:induction false} EventsAreSaid(adapter: Adapter, lines: seq<Line>, sessionId: string, profileId: string)
    ensures var from, events := Sources(adapter, lines, sessionId, profileId), EventsOf(adapter, lines, sessionId, profileId);
      && |from| == |events| && Rises(from, |lines|)
      && (forall i :: 0 <= i < |events| ==> from[i] < |lines| && IsSaid(adapter, lines[from[i]], events[i], sessionId, profileId))
    ensures forall n: nat, e :: n < |lines| && IsSaid(adapter, lines[n], e, sessionId, profileId) ==>
      n in Sources(adapter, lines, sessionId, profileId)
  {
    SameLength(adapter, lines, sessionId, profileId);
    SourcesRise(adapter, lines, sessionId, profileId);
    var from, events := Sources(adapter, lines, sessionId, profileId), EventsOf(adapter, lines, sessionId, profileId);
    forall i | 0 <= i < |events| ensures from[i] < |lines| && IsSaid(adapter, lines[from[i]], events[i], sessionId, profileId) {
      EventOfSource(adapter, lines, sessionId, profileId, i);
      ParsedIsSaid(adapter, lines[from[i]], events[i], sessionId, profileId);
    }
    forall n: nat, e | n < |lines| && IsSaid(adapter, lines[n], e, sessionId, profileId) ensures n in from {
      ParsedIsSaid(adapter, lines[n], e, sessionId, profileId);
      SourcesAreAll(adapter, lines, sessionId, profileId, n);
    }
  }

  /** Given the captured lines and the failing sends, the whole stream is determined. */
  lemma {:induction false} StreamIsDetermined(
    adapter: Adapter, sessionId: string, profileId: string, turn: Observation, fails: nat -> bool,
    a: seq<AgentEvent>, b: seq<AgentEvent>)
    requires turn.state != Some(Running)
    requires EndsWith(adapter, sessionId, profileId, turn, fails, a) && EndsWith(adapter, sessionId, profileId, turn, fails, b)
    ensures a == b
  {
  }

  /**
   A stream is ended by exactly one `SessionEnded`, its last event, with one `ProcessExited` just before
   it on completion, unless the parser panics; then it has neither.
   */
  lemma {:induction false} StreamShape(
    adapter: Adapter, sessionId: string, profileId: string, turn: Observation, fails: nat -> bool, sent: seq<AgentEvent>)
    requires EndsWith(adapter, sessionId, profileId, turn, fails, sent) && !turn.interrupted
    ensures var panics := PanicsIn(adapter, sessionId, profileId, turn, fails);
      && (!panics ==> sent != [])
      && (forall i :: 0 <= i < |sent| ==> (sent[i].SessionEnded? <==> i == |sent| - 1 && !panics))
      && (forall i :: 0 <= i < |sent| ==>
            (sent[i].ProcessExited? <==> turn.state.Some? && turn.state.value.Finished? && i == |sent| - 2 && !panics))
  {
  }

  /** Why a session that sent `count` captured events says it ended. */
  ghost predicate EndsBecause(o: ProcessOutcome, aSendFailed: bool, reason: TerminationReason) {
    if aSendFailed then reason == TerminationReason.Cancelled
    else
      && (reason.Completed? <==> o.termination.Completed?)
      && (reason.ProcessExitedWith? <==> o.termination.NonZeroExit?)
      && (reason.ProcessExitedWith? ==> reason.exitCode == if o.exitCode.Some? then o.exitCode.value else 1)
      && (reason.Timeout? <==> o.termination.Timeout?)
      && (reason.Lost? <==> o.termination.Lost?)
      && (reason.Cancelled? <==> o.termination.Cancelled? || o.termination.Killed?)
      && (reason.Unknown? <==> o.termination.ProcessUnknown? || o.termination.SpawnFailed?)
  }

  /**
   The end of a completed session, in terms of the process alone: cancelled if a send of a captured event
   failed, otherwise by how the process ended; whether a result was among the events sent; and the exit
   just before it with the exit code of the process, or -1.
   */
  lemma {:induction false} EndTellsHowTheProcessEnded(
    adapter: Adapter, sessionId: string, profileId: string, turn: Observation, fails: nat -> bool, sent: seq<AgentEvent>)
    requires EndsWith(adapter, sessionId, profileId, turn, fails, sent) && !turn.interrupted
    requires turn.state.Some? && turn.state.value.Finished? && !PanicsIn(adapter, sessionId, profileId, turn, fails)
    ensures |sent| >= 2
    ensures var o, end := turn.state.value.outcome, sent[|sent| - 1];
      && end.SessionEnded? && end.sessionId == sessionId && end.processExitReceived
      && EndsBecause(o, exists i :: 0 <= i < |sent| - 2 && fails(i), end.reason)
      && (end.resultReceived <==> exists i :: 0 <= i < |sent| && sent[i].Result?)
      && sent[|sent| - 2] == ProcessExited(if o.exitCode.Some? then o.exitCode.value else -1)
  {
    var tried := sent[..|sent| - 2];
    OnlyTheLastCanFail(CleanEvents(adapter, Captured(turn.state.value.outcome), sessionId, profileId), fails, tried);
    ResultIsAmongTried(tried, sent);
  }

  lemma {:induction false} OnlyTheLastCanFail(events: seq<AgentEvent>, fails: nat -> bool, tried: seq<AgentEvent>)
    requires UpToFirstFailure(events, fails, tried)
    ensures FailedLast(fails, tried) <==> exists i :: 0 <= i < |tried| && fails(i)
  {
    if FailedLast(fails, tried) { assert fails(|tried| - 1); }
  }

  lemma {:induction false} ResultIsAmongTried(tried: seq<AgentEvent>, sent: seq<AgentEvent>)
    requires |sent| == |tried| + 2 && tried == sent[..|tried|] && !sent[|sent| - 2].Result? && !sent[|sent| - 1].Result?
    ensures HasResult(tried) <==> exists i :: 0 <= i < |sent| && sent[i].Result?
  {
    if HasResult(tried) {
      var i :| 0 <= i < |tried| && tried[i].Result?;
      assert sent[i].Result?;
    }
    if i :| 0 <= i < |sent| && sent[i].Result? {
      assert tried[i].Result?;
    }
  }

  /** A spool file is what is parsed if there is one, even if it cannot be read; the preview only if there is none. */
  lemma {:induction false} SpoolComesFirst(o: ProcessOutcome, lines: seq<Line>, other: Option<seq<Line>>)
    ensures Captured(o.(spool := Some(Some(lines)))) == lines
    ensures o.spool.Some? ==> Captured(o) == Captured(o.(preview := other))
    ensures Captured(o.(spool := Some(None))) == []
    ensures Captured(o.(spool := None, preview := Some(lines))) == lines && Captured(o.(spool := None, preview := None)) == []
  {
  }

  /** Such streams exist: the one captured line panics, and the session sends nothing, no end either. */
  lemma {:induction false} StreamCanEndInPanic(adapter: Adapter, sessionId: string, profileId: string, fails: nat -> bool)
    returns (turn: Observation)
    ensures PanicsIn(adapter, sessionId, profileId, turn, fails)
    ensures EndsWith(adapter, sessionId, profileId, turn, fails, [])
  {
    var text := TextThatSplits();
    var line := Malformed(text);
    CutPanicsExactly(text, MAX_LINE_PREVIEW);
    assert Parse(adapter, line, sessionId, profileId).Panics?;
    turn := Observation(false, Some(Finished(ProcessOutcome(Termination.Completed, Some(0), Some(Some([line])), None))));
    assert Captured(turn.state.value.outcome) == [line];
    assert CleanLines(adapter, [line], sessionId, profileId) == 0;
    assert [line][..0] == [];
  }

  lemma {:induction false} HasResultExtends(events: seq<AgentEvent>, e: AgentEvent)
    ensures HasResult(events + [e]) <==> HasResult(events) || e.Result?
  {
    assert (events + [e])[|events|] == e;
    if HasResult(events) {
      var i :| 0 <= i < |events| && events[i].Result?;
      assert (events + [e])[i].Result?;
    }
  }

  /** Where the loop over the lines stops, it has sent what there is to send. */
  lemma {:induction false} LoopStops(
    adapter: Adapter, lines: seq<Line>, n: nat, sessionId: string, profileId: string, fails: nat -> bool,
    sent: seq<AgentEvent>, panicked: bool)
    requires n <= CleanLines(adapter, lines, sessionId, profileId) && sent == EventsOf(adapter, lines[..n], sessionId, profileId)
    requires forall i :: 0 <= i < |sent| - 1 ==> !fails(i)
    requires panicked ==> !FailedLast(fails, sent) && n < |lines| && n == CleanLines(adapter, lines, sessionId, profileId)
    requires !panicked ==> n == |lines| || FailedLast(fails, sent)
    ensures panicked <==> ParserPanics(adapter, lines, sessionId, profileId, fails)
    ensures panicked ==> sent == CleanEvents(adapter, lines, sessionId, profileId)
    ensures UpToFirstFailure(CleanEvents(adapter, lines, sessionId, profileId), fails, sent)
  {
    EventsGrow(adapter, lines, n, CleanLines(adapter, lines, sessionId, profileId), sessionId, profileId);
  }

  lemma {:induction false} CompletionEnds(
    adapter: Adapter, sessionId: string, profileId: string, o: ProcessOutcome, fails: nat -> bool,
    tried: seq<AgentEvent>, sent: seq<AgentEvent>)
    requires !ParserPanics(adapter, Captured(o), sessionId, profileId, fails)
    requires UpToFirstFailure(CleanEvents(adapter, Captured(o), sessionId, profileId), fails, tried)
    requires forall i :: 0 <= i < |tried| ==> !IsSessionOwn(tried[i])
    requires sent == tried + [ProcessExited(o.exitCode.GetOr(-1)),
                              SessionEnded(sessionId, Reason(o, FailedLast(fails, tried)), HasResult(tried), true)]
    ensures EndsWith(adapter, sessionId, profileId, Observation(false, Some(Finished(o))), fails, sent)
  {
    assert sent[..|sent| - 2] == tried;
  }

  class Session {
    const adapter: Adapter
    const sessionId: string
    const profileId: string
    var active: bool
    var started: bool

    constructor (adapter: Adapter, sessionId: string, profileId: string)
      ensures this.adapter == adapter && this.sessionId == sessionId && this.profileId == profileId
      ensures active && !started
    {
      this.adapter, this.sessionId, this.profileId := adapter, sessionId, profileId;
      active, started := true, false;
    }

    /** An active session takes a task, and counts as started even when the process then fails to spawn. */
    method SendTask(spawns: bool) returns (ok: bool)
      modifies this`started
      ensures ok <==> active && spawns
      ensures started <==> old(started) || active
    {
      if !active { return false; }
      started := true;
      return spawns;
    }

    /** `parse_line` on the next line, before any on which it has panicked. */
    method ParseNext(lines: seq<Line>, n: nat) returns (p: Parsing)
      requires n < |lines| && n <= CleanLines(adapter, lines, sessionId, profileId)
      ensures p.Panics? <==> n == CleanLines(adapter, lines, sessionId, profileId)
      ensures p.Parsed? ==> !IsSessionOwn(p.event)
      ensures EventsOf(adapter, lines[..n + 1], sessionId, profileId) ==
              EventsOf(adapter, lines[..n], sessionId, profileId) + if p.Parsed? then [p.event] else []
    {
      p := Parse(adapter, lines[n], sessionId, profileId);
      FirstPanicIs(adapter, lines, n, sessionId, profileId);
      ParseIsNeverSessionOwn(adapter, lines[n], sessionId, profileId);
      EventsExtend(adapter, lines, n, sessionId, profileId);
    }

    /** Sends the parsed lines until one send fails, and then cancels the process; or until the parser panics. */
    method SendLines(lines: seq<Line>, fails: nat -> bool)
      returns (sent: seq<AgentEvent>, resultReceived: bool, processExitReceived: bool, sinkClosed: bool, panicked: bool)
      ensures panicked <==> ParserPanics(adapter, lines, sessionId, profileId, fails)
      ensures panicked ==> sent == CleanEvents(adapter, lines, sessionId, profileId)
      ensures UpToFirstFailure(CleanEvents(adapter, lines, sessionId, profileId), fails, sent)
      ensures sinkClosed <==> FailedLast(fails, sent)
      ensures resultReceived <==> HasResult(sent)
      ensures !processExitReceived && forall i :: 0 <= i < |sent| ==> !IsSessionOwn(sent[i])
    {
      sent, resultReceived, processExitReceived, sinkClosed, panicked := [], false, false, false, false;
      var n := 0;
      while n < |lines| && !sinkClosed && !panicked
        invariant n <= CleanLines(adapter, lines, sessionId, profileId)
        invariant sent == EventsOf(adapter, lines[..n], sessionId, profileId)
        invariant forall i :: 0 <= i < |sent| - 1 ==> !fails(i)
        invariant sinkClosed <==> FailedLast(fails, sent)
        invariant panicked ==> !sinkClosed && n < |lines| && n == CleanLines(adapter, lines, sessionId, profileId)
        invariant resultReceived <==> HasResult(sent)
        invariant !processExitReceived && forall i :: 0 <= i < |sent| ==> !IsSessionOwn(sent[i])
        decreases |lines| - n, !panicked
      {
        var parsing := ParseNext(lines, n);
        match parsing {
          case Panics => panicked := true;
          case Dropped => n := n + 1;
          case Parsed(event) =>
            HasResultExtends(sent, event);
            resultReceived := resultReceived || event.Result?;
            processExitReceived := processExitReceived || event.ProcessExited?;
            sent := sent + [event];
            sinkClosed := fails(|sent| - 1);
            n := n + 1;
        }
      }
      LoopStops(adapter, lines, n, sessionId, profileId, fails, sent, panicked);
    }

    /** The turn that finds the process completed. */
    method SendCompletion(outcome: ProcessOutcome, fails: nat -> bool) returns (sent: seq<AgentEvent>, panicked: bool)
      ensures panicked <==> ParserPanics(adapter, Captured(outcome), sessionId, profileId, fails)
      ensures EndsWith(adapter, sessionId, profileId, Observation(false, Some(Finished(outcome))), fails, sent)
    {
      var resultReceived, processExitReceived, sinkClosed := false, false, false;
      sent, panicked := [], false;
      if outcome.spool.Some? {
        if outcome.spool.value.Some? {
          sent, resultReceived, processExitReceived, sinkClosed, panicked := SendLines(outcome.spool.value.value, fails);
        }
      } else if outcome.preview.Some? {
        sent, resultReceived, processExitReceived, sinkClosed, panicked := SendLines(outcome.preview.value, fails);
      }
      if panicked { return; }
      ghost var tried := sent;
      if !processExitReceived { sent := sent + [ProcessExited(outcome.exitCode.GetOr(-1))]; }
      sent := sent + [SessionEnded(sessionId, Reason(outcome, sinkClosed), resultReceived, true)];
      CompletionEnds(adapter, sessionId, profileId, outcome, fails, tried, sent);
    }

    /**
     The whole call, over the turns of `obs` it gets to see. On completion: the parsed events up to
     the first failed send, one `ProcessExited`, one `SessionEnded`. When the process is unknown or
     not running: `SessionEnded` alone. When deactivated first: nothing. A panic ends the call where it is.
     */
    method ReceiveEvents(obs: seq<Observation>, fails: nat -> bool) returns (r: Returned, sent: seq<AgentEvent>)
      modifies this`active
      ensures r.NotStarted? <==> !started
      ensures r.NotStarted? ==> sent == [] && active == old(active)
      ensures r.Ended? ==> !active
      ensures started && !old(active) ==> sent == [] && r.Ended?
      ensures started && old(active) ==> (r.StillPolling? <==> forall k: nat :: !StopsAt(obs, k))
      ensures r.StillPolling? ==> sent == [] && active == old(active)
      ensures r.Panicked? ==> active == old(active)
      ensures started && old(active) ==>
        forall k: nat :: StopsAt(obs, k) ==> (r.Panicked? <==> PanicsIn(adapter, sessionId, profileId, obs[k], fails))
      ensures started && old(active) ==>
        forall k: nat :: StopsAt(obs, k) ==> EndsWith(adapter, sessionId, profileId, obs[k], fails, sent)
    {
      sent := [];
      if !started { return NotStarted, []; }
      var terminalEmitted := false;
      var i := 0;
      while true
        invariant i <= |obs| && sent == [] && !terminalEmitted && active == old(active)
        invariant i > 0 ==> active
        invariant forall j :: 0 <= j < i ==> !obs[j].interrupted && obs[j].state == Some(Running)
        decreases |obs| - i
      {
        if i < |obs| && obs[i].interrupted { active := false; }
        if !active && !terminalEmitted { break; }
        if i == |obs| { return StillPolling, sent; }
        match obs[i].state {
          case Some(Finished(outcome)) =>
            var panicked;
            sent, panicked := SendCompletion(outcome, fails);
            assert StopsAt(obs, i);
            if panicked { return Panicked, sent; }
            terminalEmitted := true;
            break;
          case Some(Running) =>
          case None =>
            if !terminalEmitted {
              sent := sent + [SessionEnded(sessionId, TerminationReason.Lost, false, false)];
              terminalEmitted := true;
            }
            break;
          case Some(Starting) =>
            if !terminalEmitted {
              sent := sent + [SessionEnded(sessionId, Unknown, false, false)];
              terminalEmitted := true;
            }
            break;
        }
        i := i + 1;
      }
      assert old(active) ==> StopsAt(obs, i) && EndsWith(adapter, sessionId, profileId, obs[i], fails, sent);
      active := false;
      return Ended, sent;
    }

    /** Marks the session inactive unless the cancellation of a started process fails. */
    method Interrupt(cancelSucceeds: bool) returns (ok: bool)
      modifies this`active
      ensures ok <==> !started || cancelSucceeds
      ensures active == if ok then false else old(active)
    {
      if started && !cancelSucceeds { return false; }
      active := false;
      return true;
    }
  }
}

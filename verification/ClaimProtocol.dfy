/**
 The claim protocol of one idempotency key under free interleaving: any number of callers, each
 `try_claim` split into its start, its SELECT and its write, mixed with renewals, completions,
 failures and legacy records, under a clock that never goes back.
 */
module ClaimProtocol {
  import opened Options
  import opened Runs
  import opened Timestamps
  import opened IdempotencyRecords

  /** How far a `try_claim` call has come. `seen` is the row its SELECT returned. */
  datatype Phase = Started | Decided(seen: Option<Record>, decision: Decision)

  datatype Call = Call(token: Token, hash: string, start: int, secs: nat, phase: Phase)

  /** A token handed out, with the start and the length of its lease. */
  datatype Grant = Grant(token: Token, start: int, secs: nat)

  /** A result stored: by which claim (`None`: by a legacy record), and how many grants came before. */
  datatype Completion = Completion(source: Option<Token>, result: string, grantsBefore: nat)

  /** The shared row and clock, the calls in flight, and the history of the run. */
  datatype State = State(
    row: Option<Record>, clock: int, calls: map<nat, Call>,
    issued: set<Token>, grants: seq<Grant>, renewed: bool, recorded: bool, completions: seq<Completion>)

  datatype Action =
    | Tick(millis: nat)
    | Begin(call: nat, token: Token, hash: string, secs: nat)
    | Select(call: nat)
    | Write(call: nat)
    | Renew(token: Token, lease: int)
    | Complete(token: Token, result: string)
    | Fail(token: Token, error: string, isFinal: bool)
    | RecordKey(key: string, result: string)

  function Initial(clock: int): State {
    State(None, clock, map[], {}, [], false, false, [])
  }

  /** The row an action writes, `None` when it affects no row. */
  function Written(s: State, a: Action): Option<Record> {
    match a
    case Write(c) =>
      if c in s.calls && s.calls[c].phase.Decided?
      then ClaimRow(s.calls[c].phase.decision, s.row, s.calls[c].token, s.calls[c].hash,
                    Expiry(s.calls[c].start, s.calls[c].secs), s.clock)
      else None
    case Renew(t, lease) => RenewRow(s.row, t, lease)
    case Complete(t, result) => CompleteRow(s.row, t, result)
    case Fail(t, error, isFinal) => FailRow(s.row, t, error, isFinal)
    case RecordKey(key, result) => RecordRow(s.row, key, result)
    case _ => None
  }

  /** One atomic step. An action that is not possible in `s` leaves `s` as it is. */
  function Next(s: State, a: Action): State {
    var w := Written(s, a);
    match a
    case Tick(millis) => s.(clock := s.clock + millis)
    case Begin(c, t, hash, secs) =>
      if c in s.calls || t in s.issued then s
      else s.(issued := s.issued + {t}, calls := s.calls[c := Call(t, hash, s.clock, secs, Started)])
    case Select(c) =>
      if c !in s.calls || s.calls[c].phase.Decided? then s
      else
        var d := Decide(s.row, s.calls[c].hash);
        if d.Finished? || d.Mismatch? then s.(calls := s.calls - {c})
        else s.(calls := s.calls[c := s.calls[c].(phase := Decided(s.row, d))])
    case Write(c) =>
      if c !in s.calls || s.calls[c].phase.Started? then s
      else if w.None? then s.(calls := s.calls - {c})
      else s.(row := w, calls := s.calls - {c}, renewed := false,
              grants := s.grants + [Grant(s.calls[c].token, s.calls[c].start, s.calls[c].secs)])
    case Renew(_, _) => if w.None? then s else s.(row := w, renewed := true)
    case Complete(t, result) =>
      if w.None? then s
      else s.(row := w, completions := s.completions + [Completion(Some(t), result, |s.grants|)])
    case Fail(_, _, _) => if w.None? then s else s.(row := w)
    case RecordKey(_, result) =>
      if w.None? then s
      else s.(row := w, recorded := true, completions := s.completions + [Completion(None, result, |s.grants|)])
  }

  ghost predicate Reachable(s: State) {
    exists clock :: Reaches(Next, Initial(clock), s)
  }

  // ----- the invariant -----

  /** Pending exactly when owned and leased, and every counter is the number of tokens granted. */
  ghost predicate RowInv(s: State) {
    match s.row
    case None => s.grants == [] && s.completions == [] && !s.recorded
    case Some(r) =>
      && (r.status.Pending? <==> r.owner.Some?)
      && (r.owner.Some? <==> r.lease.Some?)
      && r.version == r.fencing == r.attempts == |s.grants| + (if s.recorded then 1 else 0)
      && (r.status.Pending? ==> |s.grants| > 0 && r.owner == Some(s.grants[|s.grants| - 1].token))
      && (r.status.Pending? && !s.renewed ==>
            r.lease == Some(Expiry(s.grants[|s.grants| - 1].start, s.grants[|s.grants| - 1].secs)))
      && (r.status.Completed? ==> |s.completions| > 0 && r.result == Some(s.completions[|s.completions| - 1].result))
  }

  ghost predicate TokensInv(s: State) {
    && (forall i :: 0 <= i < |s.grants| ==> s.grants[i].token in s.issued)
    && (forall i, j :: 0 <= i < j < |s.grants| ==> s.grants[i].token != s.grants[j].token)
    && (forall c :: c in s.calls ==> s.calls[c].token in s.issued)
    && (forall c, i :: c in s.calls && 0 <= i < |s.grants| ==> s.grants[i].token != s.calls[c].token)
    && (forall c, d :: c in s.calls && d in s.calls && c != d ==> s.calls[c].token != s.calls[d].token)
  }

  /** What a call read still constrains the row: versions only grow, and a version fixes its hash. */
  ghost predicate SeenInv(row: Option<Record>, call: Call) {
    call.phase.Decided? ==>
      && call.phase.decision == Decide(call.phase.seen, call.hash)
      && (call.phase.seen.Some? ==> row.Some? && call.phase.seen.value.version <= row.value.version)
      && (call.phase.seen.Some? && call.phase.seen.value.version == row.value.version ==>
            call.phase.seen.value.hash == row.value.hash)
  }

  /** Every stored result came from the holder of the token granted last before it. */
  ghost predicate CompletionInv(s: State, k: Completion) {
    && k.grantsBefore <= |s.grants|
    && (k.source.Some? ==> k.grantsBefore > 0 && s.grants[k.grantsBefore - 1].token == k.source.value)
  }

  ghost predicate Inv(s: State) {
    && RowInv(s) && TokensInv(s)
    && (forall c :: c in s.calls ==> SeenInv(s.row, s.calls[c]))
    && (forall k :: k in s.completions ==> CompletionInv(s, k))
  }

  lemma WriteKeepsRow(s: State, a: Action)
    requires RowInv(s) && a.Write?
    ensures RowInv(Next(s, a))
  {
  }

  lemma HolderKeepsRow(s: State, a: Action)
    requires RowInv(s) && (a.Renew? || a.Complete? || a.Fail?)
    ensures RowInv(Next(s, a))
  {
  }

  lemma OtherStepKeepsRow(s: State, a: Action)
    requires RowInv(s) && !a.Write? && !a.Renew? && !a.Complete? && !a.Fail?
    ensures RowInv(Next(s, a))
  {
  }

  lemma BeginKeepsTokens(s: State, a: Action)
    requires TokensInv(s) && a.Begin?
    ensures TokensInv(Next(s, a))
  {
  }

  lemma WriteKeepsTokens(s: State, a: Action)
    requires TokensInv(s) && a.Write?
    ensures TokensInv(Next(s, a))
  {
  }

  lemma OtherStepKeepsTokens(s: State, a: Action)
    requires TokensInv(s) && !a.Begin? && !a.Write?
    ensures TokensInv(Next(s, a))
  {
  }

  lemma NextKeepsSeen(s: State, a: Action)
    requires Inv(s)
    ensures forall c :: c in Next(s, a).calls ==> SeenInv(Next(s, a).row, Next(s, a).calls[c])
  {
  }

  lemma NextKeepsCompletions(s: State, a: Action)
    requires Inv(s)
    ensures forall k :: k in Next(s, a).completions ==> CompletionInv(Next(s, a), k)
  {
  }

  lemma NextKeepsInv(s: State, a: Action)
    requires Inv(s)
    ensures Inv(Next(s, a))
  {
    match a {
      case Write(_) => WriteKeepsRow(s, a); WriteKeepsTokens(s, a);
      case Begin(_, _, _, _) => OtherStepKeepsRow(s, a); BeginKeepsTokens(s, a);
      case Renew(_, _) => HolderKeepsRow(s, a); OtherStepKeepsTokens(s, a);
      case Complete(_, _) => HolderKeepsRow(s, a); OtherStepKeepsTokens(s, a);
      case Fail(_, _, _) => HolderKeepsRow(s, a); OtherStepKeepsTokens(s, a);
      case _ => OtherStepKeepsRow(s, a); OtherStepKeepsTokens(s, a);
    }
    NextKeepsSeen(s, a);
    NextKeepsCompletions(s, a);
  }

  lemma {:induction false} RunKeepsInv(s: State, actions: seq<Action>)
    requires Inv(s)
    ensures Inv(Run(Next, s, actions))
  {
    forall t, a | Inv(t) ensures Inv(Next(t, a)) { NextKeepsInv(t, a); }
    RunKeeps(Next, Inv, s, actions);
  }

  lemma {:induction false} ReachableInv(s: State)
    requires Reachable(s)
    ensures Inv(s)
  {
    var clock, actions :| s == Run(Next, Initial(clock), actions);
    RunKeepsInv(Initial(clock), actions);
  }

  /**
   In every interleaving: a row is pending exactly when it is owned, and exactly when it is leased;
   its three counters equal the number of tokens ever granted, plus one if a legacy record made it.
   */
  lemma {:induction false} CountersCountGrants(s: State)
    requires Reachable(s) && s.row.Some?
    ensures var r := s.row.value;
      && (r.status.Pending? <==> r.owner.Some?) && (r.status.Pending? <==> r.lease.Some?)
      && r.version == r.fencing == r.attempts == |s.grants| + (if s.recorded then 1 else 0)
      && (forall i, j :: 0 <= i < j < |s.grants| ==> s.grants[i].token != s.grants[j].token)
  {
    ReachableInv(s);
  }

  lemma {:induction false} ReachableNext(s: State, a: Action)
    requires Reachable(s)
    ensures Reachable(Next(s, a))
  {
    var clock :| Reaches(Next, Initial(clock), s);
    ReachesNext(Next, Initial(clock), s, a);
  }

  // ----- stale owners -----

  ghost predicate WasGranted(s: State, t: Token) {
    exists i :: 0 <= i < |s.grants| && s.grants[i].token == t
  }

  predicate Presents(a: Action, t: Token) {
    (a.Renew? || a.Complete? || a.Fail?) && a.token == t
  }

  lemma {:induction false} StaleStep(s: State, a: Action, t: Token)
    requires TokensInv(s) && WasGranted(s, t) && !Holds(s.row, t)
    ensures WasGranted(Next(s, a), t) && !Holds(Next(s, a).row, t)
  {
    var i :| 0 <= i < |s.grants| && s.grants[i].token == t;
    assert Next(s, a).grants[i].token == t;
  }

  lemma {:induction false} StaleStaysStale(s: State, actions: seq<Action>, t: Token)
    requires Inv(s) && WasGranted(s, t) && !Holds(s.row, t)
    ensures !Holds(Run(Next, s, actions).row, t)
    decreases actions
  {
    if actions != [] {
      NextKeepsInv(s, actions[0]);
      StaleStep(s, actions[0], t);
      StaleStaysStale(Next(s, actions[0]), actions[1..], t);
    }
  }

  /** A token that was granted and no longer holds the row never again renews, completes or fails it. */
  lemma {:induction false} StaleOwnerExcluded(s: State, actions: seq<Action>, t: Token, a: Action)
    requires Reachable(s) && WasGranted(s, t) && !Holds(s.row, t) && Presents(a, t)
    ensures Written(Run(Next, s, actions), a).None? && Next(Run(Next, s, actions), a) == Run(Next, s, actions)
  {
    ReachableInv(s);
    StaleStaysStale(s, actions, t);
  }

  /** Only the token granted last can hold the row, so every earlier one is stale. */
  lemma {:induction false} OnlyLastGrantHolds(s: State, t: Token)
    requires Reachable(s) && Holds(s.row, t)
    ensures |s.grants| > 0 && s.grants[|s.grants| - 1].token == t
    ensures forall i :: 0 <= i < |s.grants| - 1 ==> s.grants[i].token != t
  {
    ReachableInv(s);
  }

  /** A completed row shows the result given by the token granted last when it was stored. */
  lemma {:induction false} StoredResultIsByLastGranted(s: State)
    requires Reachable(s) && s.row.Some? && s.row.value.status.Completed?
    ensures |s.completions| > 0
    ensures var k := s.completions[|s.completions| - 1];
      && s.row.value.result == Some(k.result)
      && k.grantsBefore <= |s.grants|
      && (k.source.Some? ==> k.grantsBefore > 0 && s.grants[k.grantsBefore - 1].token == k.source.value)
  {
    ReachableInv(s);
    assert s.completions[|s.completions| - 1] in s.completions;
  }

  /**
   Whatever happens in between, a granted call leaves the row pending under its own token, request and
   lease, counts itself in all three counters, and keeps an earlier result and error.
   */
  lemma {:induction false} GrantWritesTheCall(s: State, c: nat)
    requires Reachable(s) && c in s.calls && Written(s, Write(c)).Some?
    ensures var call, row := s.calls[c], Next(s, Write(c)).row;
      && row.Some? && row.value.status.Pending?
      && row.value.owner == Some(call.token) && row.value.hash == call.hash
      && row.value.lease == Some(Expiry(call.start, call.secs))
      && row.value.version == row.value.fencing == row.value.attempts == 1 + (if s.row.Some? then s.row.value.version else 0)
      && row.value.result == (if s.row.Some? then s.row.value.result else None)
      && row.value.error == (if s.row.Some? then s.row.value.error else None)
    ensures !Next(s, Write(c)).renewed
  {
    ReachableInv(s);
  }

  // ----- leaving a final status -----

  predicate IsUpsert(s: State, a: Action) {
    a.Write? && a.call in s.calls && s.calls[a.call].phase.Decided? && s.calls[a.call].phase.decision.Upsert?
  }

  /** Completion does not bump the version, and still a takeover never touches a final row: its lease is NULL. */
  lemma {:induction false} TakeOverSparesFinalRow(s: State, c: nat)
    requires Reachable(s) && s.row.Some? && IsFinal(s.row.value)
    requires c in s.calls && s.calls[c].phase.Decided? && s.calls[c].phase.decision.TakeOver?
    ensures Written(s, Write(c)).None?
  {
    ReachableInv(s);
  }

  /** A final row changes exactly when a caller writes the upsert it chose from an older, non-final read. */
  lemma {:induction false} FinalRowLeftOnlyByStaleUpsert(s: State, a: Action)
    requires Reachable(s) && s.row.Some? && IsFinal(s.row.value)
    ensures Next(s, a).row != s.row <==> IsUpsert(s, a)
    ensures IsUpsert(s, a) ==>
      var seen := s.calls[a.call].phase.seen;
      seen != s.row && (seen.None? || seen.value.status.FailedRetryable?)
  {
    ReachableInv(s);
  }

  ghost predicate NoUpsertInFlight(s: State) {
    forall c :: c in s.calls ==> !IsUpsert(s, Write(c))
  }

  ghost predicate RowIsFinal(s: State) {
    forall actions :: Run(Next, s, actions).row == s.row
  }

  lemma {:induction false} FinalStep(s: State, a: Action)
    requires Inv(s) && s.row.Some? && IsFinal(s.row.value) && NoUpsertInFlight(s)
    ensures Next(s, a).row == s.row && NoUpsertInFlight(Next(s, a))
  {
    forall c | c in Next(s, a).calls ensures !IsUpsert(Next(s, a), Write(c)) {
      assert c in s.calls ==> !IsUpsert(s, Write(c));
    }
    assert a.Write? && a.call in s.calls ==> !IsUpsert(s, a);
  }

  lemma {:induction false} FinalStays(s: State, actions: seq<Action>)
    requires Inv(s) && s.row.Some? && IsFinal(s.row.value) && NoUpsertInFlight(s)
    ensures Run(Next, s, actions).row == s.row
    decreases actions
  {
    if actions != [] {
      FinalStep(s, actions[0]);
      NextKeepsInv(s, actions[0]);
      FinalStays(Next(s, actions[0]), actions[1..]);
    }
  }

  /** A final row is final in every run, if and only if no call in flight has chosen the upsert. */
  lemma {:induction false} FinalForeverIffNoUpsertInFlight(s: State)
    requires Reachable(s) && s.row.Some? && IsFinal(s.row.value)
    ensures RowIsFinal(s) <==> NoUpsertInFlight(s)
  {
    if NoUpsertInFlight(s) {
      ReachableInv(s);
      forall actions ensures Run(Next, s, actions).row == s.row { FinalStays(s, actions); }
    } else {
      var c :| c in s.calls && IsUpsert(s, Write(c));
      FinalRowLeftOnlyByStaleUpsert(s, Write(c));
      assert Run(Next, s, [Write(c)]) == Next(s, Write(c));
      assert Run(Next, s, [Write(c)]).row != s.row;
    }
  }

  /** From a state in which the key is absent, a call begins and reads it so. */
  lemma {:induction false} ReadsAbsentKey(s: State, c: nat) returns (s': State)
    requires Reachable(s) && s.row == None && s.clock == 0 && c !in s.calls && c !in s.issued
    ensures Reachable(s')
    ensures s' == s.(issued := s.issued + {c}, calls := s.calls[c := Call(c, "h", 0, 60, Decided(None, Upsert))])
  {
    ReachableNext(s, Begin(c, c, "h", 60));
    s' := Next(s, Begin(c, c, "h", 60));
    assert s' == s.(issued := s.issued + {c}, calls := s.calls[c := Call(c, "h", 0, 60, Started)]);
    ReachableNext(s', Select(c));
    s' := Next(s', Select(c));
  }

  /** A state in which two calls have read the key as absent. */
  lemma {:induction false} TwoReadersOfAbsentKey() returns (s: State)
    ensures Reachable(s) && s.row == None && s.clock == 0 && s.grants == [] && s.completions == []
    ensures s.calls == map[1 := Call(1, "h", 0, 60, Decided(None, Upsert)), 2 := Call(2, "h", 0, 60, Decided(None, Upsert))]
  {
    s := Initial(0);
    assert s == Run(Next, s, []);
    s := ReadsAbsentKey(s, 1);
    s := ReadsAbsentKey(s, 2);
  }

  /** A state in which call 2 read the key as absent before call 1 claimed and completed it. */
  lemma {:induction false} StaleReaderOfCompletedKey() returns (s: State)
    ensures Reachable(s) && s.completions == [Completion(Some(1), "first", 1)]
    ensures s.row == Some(Record(Completed, "h", None, None, 1, 1, 1, Some("first"), None))
    ensures s.calls == map[2 := Call(2, "h", 0, 60, Decided(None, Upsert))]
  {
    s := TwoReadersOfAbsentKey();
    ReachableNext(s, Write(1)); s := Next(s, Write(1));
    assert s.row == Some(Fresh(1, "h", Expiry(0, 60)));
    ReachableNext(s, Complete(1, "first")); s := Next(s, Complete(1, "first"));
  }

  /** Such runs exist: the stale reader revives the completed key and completes it a second time. */
  lemma {:induction false} CompletedKeyCanBeRevived() returns (s: State, revived: State, again: State)
    ensures Reachable(s) && s.row.Some? && s.row.value.status.Completed? && s.row.value.result == Some("first")
    ensures revived == Next(s, Write(2)) && revived.row.Some? && revived.row.value.status.Pending?
    ensures again == Next(revived, Complete(2, "second")) && again.row.Some?
    ensures again.row.value.result == Some("second") && |again.completions| == 2
  {
    s := StaleReaderOfCompletedKey();
    revived := Next(s, Write(2));
    again := Next(revived, Complete(2, "second"));
  }

  // ----- runs in which no other write falls between the read and the upsert of a call -----

  predicate Undisturbed(s: State, a: Action) {
    IsUpsert(s, a) ==> s.calls[a.call].phase.seen == s.row
  }

  predicate UndisturbedRun(s: State, actions: seq<Action>)
    decreases actions
  {
    actions == [] || (Undisturbed(s, actions[0]) && UndisturbedRun(Next(s, actions[0]), actions[1..]))
  }

  ghost predicate CompletedOnce(s: State) {
    |s.completions| == if s.row.Some? && s.row.value.status.Completed? then 1 else 0
  }

  lemma UndisturbedStep(s: State, a: Action)
    requires Inv(s) && CompletedOnce(s) && Undisturbed(s, a)
    ensures CompletedOnce(Next(s, a))
    ensures s.row.Some? && IsFinal(s.row.value) ==> Next(s, a).row == s.row
    ensures s.row.Some? ==> Next(s, a).row.Some? && Next(s, a).row.value.hash == s.row.value.hash
  {
  }

  lemma {:induction false} UndisturbedHistory(s: State, actions: seq<Action>)
    requires Inv(s) && CompletedOnce(s) && UndisturbedRun(s, actions)
    ensures CompletedOnce(Run(Next, s, actions))
    ensures s.row.Some? && IsFinal(s.row.value) ==> Run(Next, s, actions).row == s.row
    ensures s.row.Some? ==> Run(Next, s, actions).row.Some? && Run(Next, s, actions).row.value.hash == s.row.value.hash
    decreases actions
  {
    if actions != [] {
      NextKeepsInv(s, actions[0]);
      UndisturbedStep(s, actions[0]);
      UndisturbedHistory(Next(s, actions[0]), actions[1..]);
    }
  }

  /**
   In every undisturbed run, at most one result is ever stored, a completed or finally failed row
   never changes again, and the request hash of the key is fixed from its first row on.
   */
  lemma {:induction false} ExactlyOneCompletion(clock: int, before: seq<Action>, after: seq<Action>)
    requires UndisturbedRun(Initial(clock), before)
    requires UndisturbedRun(Run(Next, Initial(clock), before), after)
    ensures var s, s' := Run(Next, Initial(clock), before), Run(Next, Run(Next, Initial(clock), before), after);
      && |s'.completions| <= 1
      && (s.row.Some? && IsFinal(s.row.value) ==> s'.row == s.row && s'.completions == s.completions)
      && (s.row.Some? ==> s'.row.Some? && s'.row.value.hash == s.row.value.hash)
  {
    var s := Run(Next, Initial(clock), before);
    RunKeepsInv(Initial(clock), before);
    UndisturbedHistory(Initial(clock), before);
    UndisturbedHistory(s, after);
    CompletionsOnlyGrow(s, after);
  }

  lemma {:induction false} CompletionsOnlyGrow(s: State, actions: seq<Action>)
    ensures s.completions <= Run(Next, s, actions).completions
    decreases actions
  {
    if actions != [] { CompletionsOnlyGrow(Next(s, actions[0]), actions[1..]); }
  }

  // ----- leases -----

  /** A claim is displaced only after its stored expiry, and unrenewed only after its full lease has passed. */
  lemma {:induction false} DisplacementNeedsExpiry(s: State, c: nat)
    requires Reachable(s) && s.row.Some? && s.row.value.status.Pending? && Written(s, Write(c)).Some?
    ensures Expired(s.row.value, s.clock)
    ensures |s.grants| > 0
    ensures var g := s.grants[|s.grants| - 1]; !s.renewed ==> s.clock > g.start + 1000 * g.secs
  {
    ReachableInv(s);
    var g := s.grants[|s.grants| - 1];
    LeaseWindow(g.start, g.secs, s.clock);
  }

  lemma {:induction false} SelectDecides(s: State, c: nat, t: Token, hash: string, secs: nat)
    requires c !in s.calls && t !in s.issued
    ensures var s2, d := Next(Next(s, Begin(c, t, hash, secs)), Select(c)), Decide(s.row, hash);
      && s2.row == s.row && s2.clock == s.clock && s2.grants == s.grants
      && if d.Finished? || d.Mismatch? then c !in s2.calls
         else c in s2.calls && s2.calls[c] == Call(t, hash, s.clock, secs, Decided(s.row, d))
  {
  }

  /** A call that no other step interrupts is granted exactly when the row is claimable. */
  lemma {:induction false} UninterruptedClaim(s: State, c: nat, t: Token, hash: string, secs: nat)
    requires Reachable(s) && c !in s.calls && t !in s.issued
    ensures var s' := Run(Next, s, [Begin(c, t, hash, secs), Select(c), Write(c)]);
      && (Holds(s'.row, t) <==> Claimable(s.row, hash, s.clock))
      && (Claimable(s.row, hash, s.clock) ==> ClaimedFrom(s.row, s'.row.value, t, hash, Expiry(s.clock, secs)))
      && (!Claimable(s.row, hash, s.clock) ==> s'.row == s.row && s'.grants == s.grants)
  {
    ReachableInv(s);
    RunOfThree(Next, s, Begin(c, t, hash, secs), Select(c), Write(c));
    SelectDecides(s, c, t, hash, secs);
    var s2 := Next(Next(s, Begin(c, t, hash, secs)), Select(c));
    WrittenIffClaimable(s.row, t, hash, Expiry(s.clock, secs), s.clock);
    assert !Holds(s.row, t);
    assert Decide(s.row, hash).Finished? || Decide(s.row, hash).Mismatch? ==> Next(s2, Write(c)) == s2;
  }

  lemma {:induction false} WrittenIffClaimable(row: Option<Record>, t: Token, hash: string, lease: int, now: int)
    requires row.Some? ==> (row.value.status.Pending? <==> row.value.lease.Some?)
    ensures var w := ClaimRow(Decide(row, hash), row, t, hash, lease, now);
      && (w.Some? <==> Claimable(row, hash, now))
      && (w.Some? ==> ClaimedFrom(row, w.value, t, hash, lease) && Holds(w, t))
  {
  }

  /** One second after an unrenewed lease has ended, the next uninterrupted caller with the same request gets it. */
  lemma {:induction false} LapsedClaimIsTakeable(s: State, c: nat, t: Token, secs: nat)
    requires Reachable(s) && c !in s.calls && t !in s.issued
    requires s.row.Some? && s.row.value.status.Pending? && !s.renewed && |s.grants| > 0
    requires s.clock >= s.grants[|s.grants| - 1].start + 1000 * (s.grants[|s.grants| - 1].secs + 1)
    ensures Holds(Run(Next, s, [Begin(c, t, s.row.value.hash, secs), Select(c), Write(c)]).row, t)
  {
    ReachableInv(s);
    var g := s.grants[|s.grants| - 1];
    LeaseWindow(g.start, g.secs, s.clock);
    UninterruptedClaim(s, c, t, s.row.value.hash, secs);
  }

  lemma {:induction false} VersionsOnlyGrow(s: State, actions: seq<Action>)
    requires s.row.Some?
    ensures Run(Next, s, actions).row.Some? && s.row.value.version <= Run(Next, s, actions).row.value.version
    decreases actions
  {
    if actions != [] { VersionsOnlyGrow(Next(s, actions[0]), actions[1..]); }
  }

  /** Of all callers that read the same version of a pending row, at most one takes it over. */
  lemma {:induction false} OneTakeOverPerVersion(s: State, c: nat, actions: seq<Action>, d: nat)
    requires Reachable(s) && c in s.calls && s.calls[c].phase.Decided? && s.calls[c].phase.decision.TakeOver?
    requires Written(s, Write(c)).Some?
    ensures var s' := Run(Next, Next(s, Write(c)), actions);
      d in s'.calls && s'.calls[d].phase.Decided? && s'.calls[d].phase.decision == s.calls[c].phase.decision ==>
        Written(s', Write(d)).None?
  {
    VersionsOnlyGrow(Next(s, Write(c)), actions);
  }
}

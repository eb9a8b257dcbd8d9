/**
 One operation under free interleaving of claimants, legacy callers and the repository. A claim
 reads the clock when its call begins and runs its UPDATE later, with that reading.
 */
module OperationProtocol {
  import opened Options
  import opened Runs
  import opened Timestamps
  import opened Operations

  datatype Call = Call(token: Token, now: int, secs: nat)

  datatype Grant = Grant(token: Token, start: int, secs: nat)

  /** The row, the clock, the claims in flight, and the history: grants and terminating steps. */
  datatype State = State(
    op: Operation, clock: int, calls: map<nat, Call>,
    issued: set<Token>, grants: seq<Grant>, renewed: bool, endings: nat)

  datatype Action =
    | Tick(millis: nat)
    | BeginClaim(call: nat, token: Token, secs: nat)
    | WriteClaim(call: nat)
    | Renew(token: Token, expires: int)
    | Release(token: Token)
    | CompleteClaimed(token: Token, result: string)
    | FailClaimed(token: Token, reason: string)
    | Reconcile
    | LegacyComplete(result: string)
    | LegacyFail(reason: string)
    | RepoComplete(result: string, version: int)
    | RepoFail(reason: string, version: int)

  function Initial(clock: int): State {
    State(Created(), clock, map[], {}, [], false, 0)
  }

  /** The row an action writes, `None` when it affects no row. */
  function Written(s: State, a: Action): Option<Operation> {
    match a
    case Tick(_) => None
    case BeginClaim(_, _, _) => None
    case WriteClaim(c) =>
      if c in s.calls
      then ClaimRow(s.op, s.calls[c].token, Expiry(s.calls[c].now, s.calls[c].secs), s.calls[c].now) else None
    case Renew(t, expires) => RenewRow(s.op, t, expires)
    case Release(t) => ReleaseRow(s.op, t)
    case CompleteClaimed(t, result) => CompleteClaimedRow(s.op, t, result)
    case FailClaimed(t, reason) => FailClaimedRow(s.op, t, reason)
    case Reconcile => ReconcileRow(s.op)
    case LegacyComplete(result) => LegacyCompleteRow(s.op, result)
    case LegacyFail(reason) => LegacyFailRow(s.op, reason)
    case RepoComplete(result, version) => RepoCompleteRow(s.op, result, version)
    case RepoFail(reason, version) => RepoFailRow(s.op, reason, version)
  }

  predicate SetsTerminalStatus(a: Action) {
    a.CompleteClaimed? || a.FailClaimed? || a.LegacyComplete? || a.LegacyFail? || a.RepoComplete? || a.RepoFail?
  }

  /** One atomic step. An action that is not possible in `s` leaves `s` as it is. */
  function Next(s: State, a: Action): State {
    var w := Written(s, a);
    match a
    case Tick(millis) => s.(clock := s.clock + millis)
    case BeginClaim(c, t, secs) =>
      if c in s.calls || t in s.issued then s
      else s.(issued := s.issued + {t}, calls := s.calls[c := Call(t, s.clock, secs)])
    case WriteClaim(c) =>
      if c !in s.calls then s
      else if w.None? then s.(calls := s.calls - {c})
      else s.(op := w.value, calls := s.calls - {c}, renewed := false,
              grants := s.grants + [Grant(s.calls[c].token, s.calls[c].now, s.calls[c].secs)])
    case Renew(_, _) => if w.None? then s else s.(op := w.value, renewed := true)
    case _ =>
      if w.None? then s
      else s.(op := w.value, endings := s.endings + if SetsTerminalStatus(a) then 1 else 0)
  }

  ghost predicate Reachable(s: State) {
    exists clock :: Reaches(Next, Initial(clock), s)
  }

  // ----- the invariant -----

  ghost predicate RowInv(s: State) {
    && (s.op.token.Some? <==> s.op.expires.Some?)
    && s.op.attempts == 1 + |s.grants|
    && (s.op.token.Some? ==> |s.grants| > 0 && s.op.token == Some(s.grants[|s.grants| - 1].token))
    && (s.op.token.Some? && !s.renewed ==>
          s.op.expires == Some(Expiry(s.grants[|s.grants| - 1].start, s.grants[|s.grants| - 1].secs)))
    && s.endings == if IsTerminal(s.op) then 1 else 0
  }

  ghost predicate TokensInv(s: State) {
    && (forall i :: 0 <= i < |s.grants| ==> s.grants[i].token in s.issued)
    && (forall i, j :: 0 <= i < j < |s.grants| ==> s.grants[i].token != s.grants[j].token)
    && (forall c :: c in s.calls ==> s.calls[c].token in s.issued && s.calls[c].now <= s.clock)
    && (forall c, i :: c in s.calls && 0 <= i < |s.grants| ==> s.grants[i].token != s.calls[c].token)
    && (forall c, d :: c in s.calls && d in s.calls && c != d ==> s.calls[c].token != s.calls[d].token)
  }

  ghost predicate Inv(s: State) {
    RowInv(s) && TokensInv(s)
  }

  lemma NextKeepsRow(s: State, a: Action)
    requires Inv(s)
    ensures RowInv(Next(s, a))
  {
  }

  lemma NextKeepsTokens(s: State, a: Action)
    requires Inv(s)
    ensures TokensInv(Next(s, a))
  {
  }

  lemma {:induction false} NextKeepsInv(s: State, a: Action)
    requires Inv(s)
    ensures Inv(Next(s, a))
  {
    NextKeepsRow(s, a);
    NextKeepsTokens(s, a);
  }

  lemma {:induction false} RunKeepsInv(s: State, actions: seq<Action>)
    requires Inv(s)
    ensures Inv(Run(Next, s, actions))
  {
    forall t, a | Inv(t) ensures Inv(Next(t, a)) { NextKeepsInv(t, a); }
    RunKeeps(Next, Inv, s, actions);
  }

  lemma {:induction false} ReachableInv(s: State)
    requires Reachable(s)
    ensures Inv(s)
  {
    var clock, actions :| s == Run(Next, Initial(clock), actions);
    RunKeepsInv(Initial(clock), actions);
  }

  /**
   In every interleaving: the token is set exactly when its expiry is, the attempts count the
   grants, and exactly one step has set a terminal status if the row is terminal, none otherwise.
   */
  lemma {:induction false} AttemptsCountGrants(s: State)
    requires Reachable(s)
    ensures (s.op.token.Some? <==> s.op.expires.Some?) && s.op.attempts == 1 + |s.grants|
    ensures s.endings == if IsTerminal(s.op) then 1 else 0
    ensures forall i, j :: 0 <= i < j < |s.grants| ==> s.grants[i].token != s.grants[j].token
  {
    ReachableInv(s);
  }

  // ----- terminal rows -----

  predicate SameOutcome(a: Operation, b: Operation) {
    a.status == b.status && a.result == b.result && a.lastError == b.lastError && a.version == b.version && a.attempts == b.attempts
  }

  /** Once terminal, an operation keeps its status, its result, its error and its counters; nobody claims it. */
  lemma {:induction false} TerminalIsForever(s: State, actions: seq<Action>)
    requires IsTerminal(s.op)
    ensures SameOutcome(Run(Next, s, actions).op, s.op)
    ensures Run(Next, s, actions).endings == s.endings && Run(Next, s, actions).grants == s.grants
    decreases actions
  {
    if actions != [] { TerminalIsForever(Next(s, actions[0]), actions[1..]); }
  }

  predicate EndsAsHolder(s: State, a: Action) {
    (a.CompleteClaimed? || a.FailClaimed?) && s.op.token == Some(a.token)
  }

  /**
   If an operation that requires reconciliation ends up terminal, then the step that ended it was
   a claimed one, made under the token granted last at that moment.
   */
  lemma {:induction false} ReconciledOnlyByHolder(s: State, actions: seq<Action>) returns (k: nat)
    requires Reachable(s) && s.op.status.ReconciliationRequired? && IsTerminal(Run(Next, s, actions).op)
    ensures k < |actions|
    ensures var at := Run(Next, s, actions[..k]);
      && at.op.status.ReconciliationRequired? && IsTerminal(Next(at, actions[k]).op)
      && EndsAsHolder(at, actions[k])
      && |at.grants| > 0 && at.grants[|at.grants| - 1].token == actions[k].token
  {
    ReachableInv(s);
    k := FirstEnding(s, actions);
    RunKeepsInv(s, actions[..k]);
  }

  lemma {:induction false} FirstEnding(s: State, actions: seq<Action>) returns (k: nat)
    requires s.op.status.ReconciliationRequired? && IsTerminal(Run(Next, s, actions).op)
    ensures k < |actions|
    ensures Run(Next, s, actions[..k]).op.status.ReconciliationRequired?
    ensures IsTerminal(Next(Run(Next, s, actions[..k]), actions[k]).op) && EndsAsHolder(Run(Next, s, actions[..k]), actions[k])
    decreases actions
  {
    var s' := Next(s, actions[0]);
    if IsTerminal(s'.op) {
      k := 0;
    } else {
      k := FirstEnding(s', actions[1..]);
      k := k + 1;
      assert actions[..k][1..] == actions[1..][..k - 1];
      assert Run(Next, s, actions[..k]) == Run(Next, s', actions[1..][..k - 1]);
    }
  }

  // ----- fencing -----

  predicate Presents(a: Action, t: Token) {
    (a.Renew? || a.Release? || a.CompleteClaimed? || a.FailClaimed?) && a.token == t
  }

  lemma {:induction false} StaleStaysStale(s: State, actions: seq<Action>, i: nat)
    requires Inv(s) && i < |s.grants| && s.op.token != Some(s.grants[i].token)
    ensures Run(Next, s, actions).op.token != Some(s.grants[i].token)
    decreases actions
  {
    if actions != [] {
      NextKeepsInv(s, actions[0]);
      StaleStaysStale(Next(s, actions[0]), actions[1..], i);
    }
  }

  /** A superseded, released or spent token can never again renew, complete, fail or clear the row. */
  lemma {:induction false} StaleTokenExcluded(s: State, actions: seq<Action>, i: nat, a: Action)
    requires Reachable(s) && i < |s.grants| && s.op.token != Some(s.grants[i].token)
    requires Presents(a, s.grants[i].token)
    ensures Written(Run(Next, s, actions), a).None? && Next(Run(Next, s, actions), a) == Run(Next, s, actions)
  {
    ReachableInv(s);
    StaleStaysStale(s, actions, i);
  }

  /** Only the token granted last can be on the row. */
  lemma {:induction false} EarlierGrantsAreStale(s: State, i: nat)
    requires Reachable(s) && i + 1 < |s.grants|
    ensures s.op.token != Some(s.grants[i].token)
  {
    ReachableInv(s);
  }

  // ----- leases -----

  /** A claim is displaced only after its stored expiry, and unrenewed only after its full lease has passed. */
  lemma {:induction false} DisplacementNeedsExpiry(s: State, c: nat)
    requires Reachable(s) && s.op.token.Some? && Written(s, WriteClaim(c)).Some?
    ensures s.op.expires.Some? && s.op.expires.value < Seconds(s.clock)
    ensures |s.grants| > 0
    ensures var g := s.grants[|s.grants| - 1]; !s.renewed ==> s.clock > g.start + 1000 * g.secs
  {
    ReachableInv(s);
    var g := s.grants[|s.grants| - 1];
    LeaseWindow(g.start, g.secs, s.calls[c].now);
  }

  /**
   An uninterrupted claim is granted exactly on a row that is not terminal and has no token, or one
   whose expiry lies before the second at which the claim begins.
   */
  lemma {:induction false} UninterruptedClaim(s: State, c: nat, t: Token, secs: nat)
    requires Reachable(s) && c !in s.calls && t !in s.issued
    ensures var s' := Run(Next, s, [BeginClaim(c, t, secs), WriteClaim(c)]);
      var granted :=
        && s.op.status in {Pending, Running, ReconciliationRequired}
        && (s.op.token == None || 1000 * (s.op.expires.GetOr(0) + 1) <= s.clock);
      && (s'.op.token == Some(t) <==> granted)
      && s'.op == if granted
                  then s.op.(token := Some(t), expires := Some(Expiry(s.clock, secs)), attempts := s.op.attempts + 1)
                  else s.op
    ensures var s' := Run(Next, s, [BeginClaim(c, t, secs), WriteClaim(c)]); s'.op.token == Some(t) ==> !s'.renewed
  {
    ReachableInv(s);
    var actions := [BeginClaim(c, t, secs), WriteClaim(c)];
    assert actions[1..] == [WriteClaim(c)] && actions[1..][1..] == [];
    var s1 := Next(s, actions[0]);
    assert Run(Next, s1, actions[1..]) == Next(s1, WriteClaim(c));
  }

  /** One second after an unrenewed lease has ended, the next uninterrupted claimant of an open row gets it. */
  lemma {:induction false} LapsedClaimIsTakeable(s: State, c: nat, t: Token, secs: nat)
    requires Reachable(s) && c !in s.calls && t !in s.issued && !IsTerminal(s.op)
    requires s.op.token.Some? && !s.renewed && |s.grants| > 0
    requires s.clock >= s.grants[|s.grants| - 1].start + 1000 * (s.grants[|s.grants| - 1].secs + 1)
    ensures Run(Next, s, [BeginClaim(c, t, secs), WriteClaim(c)]).op.token == Some(t)
  {
    ReachableInv(s);
    var g := s.grants[|s.grants| - 1];
    LeaseWindow(g.start, g.secs, s.clock);
    UninterruptedClaim(s, c, t, secs);
  }
}

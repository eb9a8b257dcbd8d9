/**
 The calls on the `operations` table as one caller sees them, on the whole table and the real clock.
 Each is proved to be a run of the protocol on the row of its operation, so what the protocol keeps
 in every interleaving holds of the table between any calls.
 */
module OperationStores {
  import opened Options
  import opened Runs
  import opened Timestamps
  import opened Operations
  import P = OperationProtocol

  /** `run` has no call in flight, and has seen no later time and no newer token than the store. */
  ghost predicate Backs(run: P.State, op: Operation, clock: int, nextToken: Token) {
    && P.Reachable(run) && run.op == op && run.calls == map[] && run.clock <= clock
    && forall t :: t in run.issued ==> t < nextToken
  }

  /** The token granted last, which every earlier one has been superseded by. */
  ghost predicate IsLatest(run: P.State, token: Token) {
    |run.grants| > 0 && run.grants[|run.grants| - 1].token == token
  }

  function ClaimSteps(run: P.State, token: Token, secs: nat, clock: int): P.State
    requires run.clock <= clock
  {
    P.Next(P.Next(P.Next(run, P.Tick(clock - run.clock)), P.BeginClaim(0, token, secs)), P.WriteClaim(0))
  }

  lemma {:induction false} ReachableNext(run: P.State, a: P.Action)
    requires P.Reachable(run)
    ensures P.Reachable(P.Next(run, a))
  {
    var clock :| Reaches(P.Next, P.Initial(clock), run);
    ReachesNext(P.Next, P.Initial(clock), run, a);
  }

  lemma {:induction false} ClaimIsRun(run: P.State, secs: nat, clock: int, token: Token)
    requires Backs(run, run.op, clock, token)
    ensures Backs(ClaimSteps(run, token, secs, clock),
                  ClaimRow(run.op, token, Expiry(clock, secs), clock).GetOr(run.op), clock, token + 1)
    ensures IsClaimable(run.op, clock) ==> IsLatest(ClaimSteps(run, token, secs, clock), token)
    ensures forall g :: g in run.grants ==> g.token != token
  {
    P.ReachableInv(run);
    var ticked := P.Next(run, P.Tick(clock - run.clock));
    ReachableNext(run, P.Tick(clock - run.clock));
    ReachableNext(ticked, P.BeginClaim(0, token, secs));
    ReachableNext(P.Next(ticked, P.BeginClaim(0, token, secs)), P.WriteClaim(0));
  }

  lemma {:induction false} CallIsStep(run: P.State, a: P.Action, clock: int, nextToken: Token)
    requires Backs(run, run.op, clock, nextToken) && !a.Tick? && !a.BeginClaim? && !a.WriteClaim?
    ensures Backs(P.Next(run, a), P.Written(run, a).GetOr(run.op), clock, nextToken)
    ensures (a.Renew? || a.CompleteClaimed? || a.FailClaimed?) && Holds(run.op, a.token) ==> IsLatest(run, a.token)
  {
    ReachableNext(run, a);
    P.ReachableInv(run);
  }

  class OperationStore {
    var ops: map<string, Operation>
    var clock: int
    var nextToken: Token
    ghost var runs: map<string, P.State>

    ghost predicate Valid()
      reads this
    {
      runs.Keys == ops.Keys && forall id :: id in ops ==> Backs(runs[id], ops[id], clock, nextToken)
    }

    constructor (clock: int)
      ensures Valid() && ops == map[]
    {
      this.clock, ops, nextToken, runs := clock, map[], 0, map[];
    }

    method Wait(millis: nat)
      requires Valid()
      modifies this`clock
      ensures Valid() && clock == old(clock) + millis
    {
      clock := clock + millis;
    }

    /**
     What the protocol gives for the table between any calls: a token exactly where there is an
     expiry, and it is the one granted last; one attempt more than grants, all to different tokens.
     */
    lemma TableIsSound(id: string)
      requires Valid() && id in ops
      ensures (ops[id].token.Some? <==> ops[id].expires.Some?) && ops[id].attempts == 1 + |runs[id].grants|
      ensures ops[id].token.Some? ==> IsLatest(runs[id], ops[id].token.value)
      ensures forall i, j :: 0 <= i < j < |runs[id].grants| ==> runs[id].grants[i].token != runs[id].grants[j].token
    {
      P.ReachableInv(runs[id]);
    }

    /** The call is the step `a` of the operation, and nothing else. */
    twostate predicate Took(id: string, a: P.Action)
      reads this
    {
      && clock == old(clock) && nextToken == old(nextToken)
      && runs == (if id in old(runs) then old(runs)[id := P.Next(old(runs)[id], a)] else old(runs))
      && forall k :: k != id ==> (k in ops <==> k in old(ops)) && (k in ops ==> ops[k] == old(ops)[k])
    }

    /** Follows a call that has written what the step `a` writes. */
    ghost method Step(id: string, a: P.Action)
      requires runs.Keys == ops.Keys && !a.Tick? && !a.BeginClaim? && !a.WriteClaim?
      requires forall k :: k in ops && k != id ==> Backs(runs[k], ops[k], clock, nextToken)
      requires id in ops ==> Backs(runs[id], runs[id].op, clock, nextToken) && ops[id] == P.Written(runs[id], a).GetOr(runs[id].op)
      modifies this`runs
      ensures Valid()
      ensures runs == if id in ops then old(runs)[id := P.Next(old(runs)[id], a)] else old(runs)
      ensures id in ops && (a.Renew? || a.CompleteClaimed? || a.FailClaimed?) && Holds(old(runs)[id].op, a.token) ==>
        IsLatest(old(runs)[id], a.token)
    {
      if id in ops {
        CallIsStep(runs[id], a, clock, nextToken);
        runs := runs[id := P.Next(runs[id], a)];
      }
    }

    method Begin(id: string) returns (ok: bool)
      requires Valid()
      modifies this
      ensures Valid()
      ensures ok <==> id !in old(ops)
      ensures ops == if ok then old(ops)[id := Operation(Pending, None, None, 1, 1, None, None)] else old(ops)
    {
      ok := id !in ops;
      if ok {
        ops := ops[id := Created()];
        runs := runs[id := P.Initial(clock)];
        assert P.Initial(clock) == Run(P.Next, P.Initial(clock), []);
      }
    }

    /** Draws a new token, which has never been granted before. */
    method TryClaimOperation(id: string, secs: nat) returns (r: Option<Token>)
      requires Valid()
      modifies this
      ensures Valid() && clock == old(clock)
      ensures r.Some? <==>
        && id in old(ops)
        && old(ops)[id].status in {Pending, Running, ReconciliationRequired}
        && (old(ops)[id].token == None ||
            (old(ops)[id].expires.Some? && 1000 * (old(ops)[id].expires.value + 1) <= clock))
      ensures runs == if id in old(ops) then old(runs)[id := ClaimSteps(old(runs)[id], old(nextToken), secs, clock)] else old(runs)
      ensures r.None? ==> ops == old(ops)
      ensures r.Some? ==> ops == old(ops)[id := old(ops)[id].(
        token := r, expires := Some(Expiry(clock, secs)), attempts := old(ops)[id].attempts + 1)]
      ensures r.Some? ==> IsLatest(runs[id], r.value) && forall g :: g in old(runs)[id].grants ==> g.token != r.value
    {
      r := None;
      var token := nextToken;
      nextToken := nextToken + 1;
      if id in ops {
        var row := ClaimRow(ops[id], token, Expiry(clock, secs), clock);
        if row.Some? { ops := ops[id := row.value]; r := Some(token); }
        ClaimIsRun(runs[id], secs, clock, token);
        ghost var run := ClaimSteps(runs[id], token, secs, clock);
        runs := runs[id := run];
      }
    }

    method RenewOperationClaim(id: string, token: Token, secs: nat) returns (ok: bool)
      requires Valid()
      modifies this
      ensures Valid() && Took(id, P.Renew(token, Expiry(clock, secs)))
      ensures ok <==>
        && id in old(ops) && old(ops)[id].token == Some(token)
        && old(ops)[id].status in {Pending, Running, ReconciliationRequired}
      ensures ok ==> IsLatest(old(runs)[id], token) && ops[id] == old(ops)[id].(expires := Some(Expiry(clock, secs)))
      ensures !ok ==> ops == old(ops)
    {
      ok := id in ops && Holds(ops[id], token);
      if ok { ops := ops[id := RenewRow(ops[id], token, Expiry(clock, secs)).value]; }
      Step(id, P.Renew(token, Expiry(clock, secs)));
    }

    method ReleaseOperationClaim(id: string, token: Token)
      requires Valid()
      modifies this
      ensures Valid() && Took(id, P.Release(token))
      ensures ops == if id in old(ops) && old(ops)[id].token == Some(token)
                     then old(ops)[id := old(ops)[id].(token := None, expires := None)] else old(ops)
    {
      if id in ops && ops[id].token == Some(token) {
        ops := ops[id := ReleaseRow(ops[id], token).value];
      }
      Step(id, P.Release(token));
    }

    method CompleteClaimedOperation(id: string, token: Token, result: string) returns (ok: bool)
      requires Valid()
      modifies this
      ensures Valid() && Took(id, P.CompleteClaimed(token, result))
      ensures ok <==>
        && id in old(ops) && old(ops)[id].token == Some(token)
        && old(ops)[id].status in {Pending, Running, ReconciliationRequired}
      ensures ok ==> IsLatest(old(runs)[id], token) && ops[id] == old(ops)[id].(
        status := Completed, result := Some(result), token := None, expires := None)
      ensures !ok ==> ops == old(ops)
    {
      ok := id in ops && Holds(ops[id], token);
      if ok { ops := ops[id := CompleteClaimedRow(ops[id], token, result).value]; }
      Step(id, P.CompleteClaimed(token, result));
    }

    method FailClaimedOperation(id: string, token: Token, reason: string) returns (ok: bool)
      requires Valid()
      modifies this
      ensures Valid() && Took(id, P.FailClaimed(token, reason))
      ensures ok <==>
        && id in old(ops) && old(ops)[id].token == Some(token)
        && old(ops)[id].status in {Pending, Running, ReconciliationRequired}
      ensures ok ==> IsLatest(old(runs)[id], token) && ops[id] == old(ops)[id].(
        status := Failed, result := Some(reason), lastError := Some(reason), token := None, expires := None)
      ensures !ok ==> ops == old(ops)
    {
      ok := id in ops && Holds(ops[id], token);
      if ok { ops := ops[id := FailClaimedRow(ops[id], token, reason).value]; }
      Step(id, P.FailClaimed(token, reason));
    }

    method MarkReconciliationRequired(id: string)
      requires Valid()
      modifies this
      ensures Valid() && Took(id, P.Reconcile)
      ensures ops == if id in old(ops) && old(ops)[id].status in {Pending, Running}
                     then old(ops)[id := old(ops)[id].(status := ReconciliationRequired)] else old(ops)
    {
      if id in ops && IsUnreconciled(ops[id]) { ops := ops[id := ReconcileRow(ops[id]).value]; }
      Step(id, P.Reconcile);
    }

    /** The legacy completion leaves a claim in place. */
    method Complete(id: string, result: string) returns (ok: bool)
      requires Valid()
      modifies this
      ensures Valid() && Took(id, P.LegacyComplete(result))
      ensures ok <==> id in old(ops) && old(ops)[id].status in {Pending, Running}
      ensures ops == if ok then old(ops)[id := old(ops)[id].(status := Completed, result := Some(result))] else old(ops)
    {
      ok := id in ops && IsUnreconciled(ops[id]);
      if ok { ops := ops[id := LegacyCompleteRow(ops[id], result).value]; }
      Step(id, P.LegacyComplete(result));
    }

    method Fail(id: string, reason: string)
      requires Valid()
      modifies this
      ensures Valid() && Took(id, P.LegacyFail(reason))
      ensures ops == if id in old(ops) && old(ops)[id].status in {Pending, Running}
                     then old(ops)[id := old(ops)[id].(status := Failed, result := Some(reason), lastError := Some(reason))]
                     else old(ops)
    {
      if id in ops && IsUnreconciled(ops[id]) { ops := ops[id := LegacyFailRow(ops[id], reason).value]; }
      Step(id, P.LegacyFail(reason));
    }

    method RepoComplete(id: string, result: string, version: int) returns (ok: bool)
      requires Valid()
      modifies this
      ensures Valid() && Took(id, P.RepoComplete(result, version))
      ensures ok <==> id in old(ops) && old(ops)[id].status in {Pending, Running} && old(ops)[id].version == version
      ensures ops == if ok then old(ops)[id := old(ops)[id].(
        status := Completed, result := Some(result), version := version + 1)] else old(ops)
    {
      ok := id in ops && IsUnreconciled(ops[id]) && ops[id].version == version;
      if ok { ops := ops[id := RepoCompleteRow(ops[id], result, version).value]; }
      Step(id, P.RepoComplete(result, version));
    }

    method RepoFail(id: string, reason: string, version: int)
      requires Valid()
      modifies this
      ensures Valid() && Took(id, P.RepoFail(reason, version))
      ensures ops == if id in old(ops) && old(ops)[id].status in {Pending, Running} && old(ops)[id].version == version
                     then old(ops)[id := old(ops)[id].(status := Failed, result := Some(reason), version := version + 1)]
                     else old(ops)
    {
      if id in ops && IsUnreconciled(ops[id]) && ops[id].version == version {
        ops := ops[id := RepoFailRow(ops[id], reason, version).value];
      }
      Step(id, P.RepoFail(reason, version));
    }
  }
}

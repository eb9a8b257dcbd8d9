/**
 The calls of the claim API as one caller sees them, on the whole table and the real clock. Each is
 proved to be a run of the claim protocol on the row of its key, so what the protocol keeps in every
 interleaving holds of the table between any calls.
 */
module IdempotencyStores {
  import opened Options
  import opened Runs
  import opened Timestamps
  import opened IdempotencyRecords
  import P = ClaimProtocol

  /** `run` has no call in flight, and has seen no later time and no newer token than the store. */
  ghost predicate Backs(run: P.State, row: Record, clock: int, nextToken: Token) {
    && P.Reachable(run) && run.row == Some(row) && run.calls == map[] && run.clock <= clock
    && forall t :: t in run.issued ==> t < nextToken
  }

  /** As for a row, or for a key that has no row yet. */
  ghost predicate BacksKey(run: P.State, row: Option<Record>, clock: int, nextToken: Token) {
    if row.Some? then Backs(run, row.value, clock, nextToken) else run == P.Initial(clock)
  }

  ghost predicate IsLatest(run: P.State, token: Token) {
    |run.grants| > 0 && run.grants[|run.grants| - 1].token == token
  }

  /** A call that starts at `start`, reads the row, and writes `delay` later. */
  function ClaimSteps(run: P.State, token: Token, hash: string, secs: nat, start: int, delay: nat): P.State
    requires run.clock <= start
  {
    var read := P.Next(P.Next(P.Next(run, P.Tick(start - run.clock)), P.Begin(0, token, hash, secs)), P.Select(0));
    P.Next(P.Next(read, P.Tick(delay)), P.Write(0))
  }

  function ClaimWrites(row: Option<Record>, token: Token, hash: string, lease: int, now: int): Option<Record> {
    ClaimRow(Decide(row, hash), row, token, hash, lease, now)
  }

  lemma {:induction false} ClaimIsReachable(start: P.State, run: P.State, token: Token, hash: string, secs: nat, clock: int, delay: nat)
    requires Reaches(P.Next, start, run) && run.clock <= clock
    ensures Reaches(P.Next, start, ClaimSteps(run, token, hash, secs, clock, delay))
  {
    var run1 := P.Next(run, P.Tick(clock - run.clock));
    ReachesNext(P.Next, start, run, P.Tick(clock - run.clock));
    var run2 := P.Next(run1, P.Begin(0, token, hash, secs));
    ReachesNext(P.Next, start, run1, P.Begin(0, token, hash, secs));
    var run3 := P.Next(run2, P.Select(0));
    ReachesNext(P.Next, start, run2, P.Select(0));
    ReachesNext(P.Next, start, run3, P.Tick(delay));
    ReachesNext(P.Next, start, P.Next(run3, P.Tick(delay)), P.Write(0));
  }

  lemma {:induction false} ClaimHasEffect(run: P.State, token: Token, hash: string, secs: nat, start: int, delay: nat)
    requires run.calls == map[] && run.clock <= start && token !in run.issued
    ensures var after, w := ClaimSteps(run, token, hash, secs, start, delay), ClaimWrites(run.row, token, hash, Expiry(start, secs), start + delay);
      && after.row == (if w.Some? then w else run.row) && after.calls == map[] && after.clock == start + delay
      && after.issued == run.issued + {token}
      && after.grants == run.grants + (if w.Some? then [P.Grant(token, start, secs)] else [])
  {
    var ticked := P.Next(run, P.Tick(start - run.clock));
    P.SelectDecides(ticked, 0, token, hash, secs);
    var read := P.Next(P.Next(ticked, P.Begin(0, token, hash, secs)), P.Select(0));
    WriteHasEffect(read, run, token, hash, secs, start, delay);
  }

  lemma {:induction false} WriteHasEffect(read: P.State, run: P.State, token: Token, hash: string, secs: nat, start: int, delay: nat)
    requires read.row == run.row && read.clock == start && read.grants == run.grants && read.issued == run.issued + {token}
    requires var d := Decide(run.row, hash);
      read.calls == if d.Finished? || d.Mismatch? then map[] else map[0 := P.Call(token, hash, start, secs, P.Decided(run.row, d))]
    ensures var after, w := P.Next(P.Next(read, P.Tick(delay)), P.Write(0)), ClaimWrites(run.row, token, hash, Expiry(start, secs), start + delay);
      && after.row == (if w.Some? then w else run.row) && after.calls == map[] && after.clock == start + delay
      && after.issued == run.issued + {token}
      && after.grants == run.grants + (if w.Some? then [P.Grant(token, start, secs)] else [])
  {
  }

  lemma {:induction false} InitialBacks(clock: int, nextToken: Token)
    ensures P.Reachable(P.Initial(clock)) && P.Initial(clock).row == None && P.Initial(clock).issued == {}
  {
    assert P.Initial(clock) == Run(P.Next, P.Initial(clock), []);
  }

  lemma {:induction false} GrantedIsIssued(run: P.State)
    requires P.Reachable(run)
    ensures forall g :: g in run.grants ==> g.token in run.issued
  {
    P.ReachableInv(run);
  }

  lemma {:induction false} ClaimIsRun(run: P.State, row: Option<Record>, hash: string, secs: nat, clock: int, delay: nat, token: Token)
    returns (after: P.State)
    requires BacksKey(run, row, clock, token)
    ensures Reaches(P.Next, run, after)
    ensures var w := ClaimWrites(row, token, hash, Expiry(clock, secs), clock + delay);
      && (w.Some? || row.Some?) && Backs(after, if w.Some? then w.value else row.value, clock + delay, token + 1)
      && (w.Some? ==> IsLatest(after, token))
    ensures forall g :: g in run.grants ==> g.token != token
  {
    InitialBacks(clock, token);
    GrantedIsIssued(run);
    after := ClaimSteps(run, token, hash, secs, clock, delay);
    assert run == Run(P.Next, run, []);
    ClaimIsReachable(run, run, token, hash, secs, clock, delay);
    var start :| Reaches(P.Next, P.Initial(start), run);
    ClaimIsReachable(P.Initial(start), run, token, hash, secs, clock, delay);
    ClaimHasEffect(run, token, hash, secs, clock, delay);
  }

  lemma {:induction false} CallIsStep(run: P.State, a: P.Action, clock: int, nextToken: Token)
    requires run.row.Some? && Backs(run, run.row.value, clock, nextToken) && (a.Renew? || a.Complete? || a.Fail? || a.RecordKey?)
    ensures P.Next(run, a).row.Some?
    ensures Backs(P.Next(run, a), P.Written(run, a).GetOr(run.row.value), clock, nextToken)
    ensures !a.RecordKey? && Holds(run.row, a.token) ==> IsLatest(run, a.token)
  {
    P.ReachableNext(run, a);
    P.ReachableInv(run);
  }

  lemma {:induction false} RecordIsRun(key: string, result: string, clock: int, nextToken: Token)
    ensures RecordRow(None, key, result).Some?
    ensures Backs(P.Next(P.Initial(clock), P.RecordKey(key, result)), RecordRow(None, key, result).value, clock, nextToken)
  {
    InitialBacks(clock, nextToken);
    P.ReachableNext(P.Initial(clock), P.RecordKey(key, result));
  }

  ghost predicate AllBack(runs: map<string, P.State>, records: map<string, Record>, clock: int, nextToken: Token) {
    runs.Keys == records.Keys && forall key :: key in records ==> Backs(runs[key], records[key], clock, nextToken)
  }

  lemma {:induction false} OneKeyChanges(
    runs: map<string, P.State>, records: map<string, Record>, key: string, run: P.State, row: Record,
    clock: int, later: int, nextToken: Token, newerToken: Token)
    requires AllBack(runs, records, clock, nextToken) && clock <= later && nextToken <= newerToken
    requires Backs(run, row, later, newerToken)
    ensures AllBack(runs[key := run], records[key := row], later, newerToken)
  {
  }

  function RowIn(records: map<string, Record>, key: string): Option<Record> {
    if key in records then Some(records[key]) else None
  }

  /** A key without a row has no history yet. */
  function RunIn(runs: map<string, P.State>, key: string, clock: int): P.State {
    if key in runs then runs[key] else P.Initial(clock)
  }

  lemma {:induction false} RunOfKeyBacks(runs: map<string, P.State>, records: map<string, Record>, key: string, clock: int, nextToken: Token)
    requires AllBack(runs, records, clock, nextToken)
    ensures BacksKey(RunIn(runs, key, clock), RowIn(records, key), clock, nextToken)
  {
  }

  class IdempotencyStore {
    var records: map<string, Record>
    var clock: int
    var nextToken: Token
    ghost var runs: map<string, P.State>

    function Row(key: string): (r: Option<Record>)
      reads this
    {
      RowIn(records, key)
    }

    ghost predicate Valid()
      reads this
    {
      AllBack(runs, records, clock, nextToken)
    }

    ghost function RunOf(key: string): P.State
      reads this
    {
      RunIn(runs, key, clock)
    }

    constructor (clock: int)
      ensures Valid() && records == map[]
    {
      this.clock, records, nextToken, runs := clock, map[], 0, map[];
    }

    method Wait(millis: nat)
      requires Valid()
      modifies this`clock
      ensures Valid() && clock == old(clock) + millis
    {
      clock := clock + millis;
    }

    /**
     What the protocol gives for the table between any calls: a row is pending exactly when it is owned
     and exactly when it is leased, and then by the token granted last; its counters count the grants.
     */
    lemma TableIsSound(key: string)
      requires Valid() && key in records
      ensures var r, run := records[key], runs[key];
        && (r.status.Pending? <==> r.owner.Some?) && (r.status.Pending? <==> r.lease.Some?)
        && (r.owner.Some? ==> IsLatest(run, r.owner.value))
        && r.version == r.fencing == r.attempts == |run.grants| + (if run.recorded then 1 else 0)
        && (r.status.Completed? ==> run.completions != [] && r.result == Some(run.completions[|run.completions| - 1].result))
    {
      P.ReachableInv(runs[key]);
    }

    /** What the call does with the row it reads, `now` being the time at which it writes. */
    method ClaimRowOf(key: string, hash: string, token: Token, expires: int, now: int)
      returns (r: ClaimResult, ghost w: Option<Record>)
      modifies this`records
      ensures r == Granted(token) <==> Claimable(old(Row(key)), hash, now)
      ensures r == HashMismatch <==>
        old(Row(key)).Some? && !IsFinal(old(Row(key)).value) && old(Row(key)).value.hash != hash
      ensures r.Granted? ==> r.token == token && Row(key).Some?
      ensures r.Granted? ==> ClaimedFrom(old(Row(key)), Row(key).value, token, hash, expires)
      ensures w == ClaimWrites(old(Row(key)), token, hash, expires, now) && (r.Granted? <==> w.Some?)
      ensures records == if w.Some? then old(records)[key := w.value] else old(records)
    {
      w := ClaimWrites(Row(key), token, hash, expires, now);
      if key in records {
        var existing := records[key];
        match existing.status {
          case Completed => return NotGranted, w;
          case FailedFinal => return NotGranted, w;
          case FailedRetryable =>
            if existing.hash != hash { return HashMismatch, w; }
          case Pending =>
            if existing.hash != hash { return HashMismatch, w; }
            var taken := TakeOverRow(Some(records[key]), existing.version, token, hash, expires, now);
            if taken.Some? {
              records := records[key := taken.value];
              return Granted(token), w;
            }
            return NotGranted, w;
        }
      }
      var written := UpsertRow(Row(key), token, hash, expires, now);
      if written.None? { return NotGranted, w; }
      records := records[key := written.value];
      return Granted(token), w;
    }

    /** Follows a claim that began at `start` with `before` as its table, and has written. */
    ghost method ClaimStep(
      key: string, before: map<string, Record>, w: Option<Record>, hash: string, secs: nat, start: int, delay: nat, token: Token)
      requires AllBack(runs, before, start, token) && clock == start + delay && nextToken == token + 1
      requires w == ClaimWrites(RowIn(before, key), token, hash, Expiry(start, secs), clock)
      requires records == if w.Some? then before[key := w.value] else before
      modifies this`runs
      ensures Valid()
      ensures key in runs && runs == old(runs)[key := runs[key]] && Reaches(P.Next, RunIn(old(runs), key, start), runs[key])
      ensures w.Some? ==> IsLatest(runs[key], token)
      ensures forall g :: g in RunIn(old(runs), key, start).grants ==> g.token != token
    {
      var row := RowIn(before, key);
      RunOfKeyBacks(runs, before, key, start, token);
      var after := ClaimIsRun(RunIn(runs, key, start), row, hash, secs, start, delay, token);
      var now := if w.Some? then w.value else row.value;
      OneKeyChanges(runs, before, key, after, now, start, clock, token, nextToken);
      assert records == before[key := now];
      runs := runs[key := after];
    }

    /** The call, not interleaved with others. It draws a new token, and `delay` passes until it writes. */
    method TryClaim(key: string, hash: string, secs: nat, delay: nat) returns (r: ClaimResult)
      requires Valid()
      modifies this
      ensures Valid() && clock == old(clock) + delay
      ensures r == Granted(old(nextToken)) <==>
        || key !in old(records)
        || (old(records)[key].hash == hash &&
            var row := old(records)[key];
            || row.status.FailedRetryable?
            || (row.status.Pending? && row.lease.Some? && 1000 * (row.lease.value + 1) <= clock))
      ensures r == HashMismatch <==>
        key in old(records) && old(records)[key].status in {Pending, FailedRetryable} && old(records)[key].hash != hash
      ensures r.Granted? ==> r.token == old(nextToken) && Row(key).Some?
      ensures r.Granted? ==> ClaimedFrom(old(Row(key)), Row(key).value, r.token, hash, Expiry(old(clock), secs))
      ensures r.Granted? ==>
        && key in records && records[key].status.Pending? && records[key].owner == Some(r.token) && records[key].hash == hash
        && records[key].lease == Some(Expiry(old(clock), secs))
      ensures !r.Granted? ==> records == old(records)
      ensures forall k :: k != key ==> Row(k) == old(Row(k))
      ensures key in runs && runs == old(runs)[key := runs[key]] && Reaches(P.Next, old(RunOf(key)), runs[key])
      ensures r.Granted? ==> IsLatest(runs[key], r.token) && forall g :: g in old(RunOf(key)).grants ==> g.token != r.token
    {
      var start, token := clock, nextToken;
      nextToken, clock := nextToken + 1, clock + delay;
      ghost var w;
      r, w := ClaimRowOf(key, hash, token, Expiry(start, secs), clock);
      ClaimStep(key, old(records), w, hash, secs, start, delay, token);
    }

    /** Follows a call that has written what the step `a` writes. */
    ghost method Step(key: string, a: P.Action)
      requires runs.Keys == records.Keys && (a.Renew? || a.Complete? || a.Fail? || a.RecordKey?)
      requires forall k :: k in records && k != key ==> Backs(runs[k], records[k], clock, nextToken)
      requires key in records ==>
        && runs[key].row.Some? && Backs(runs[key], runs[key].row.value, clock, nextToken)
        && records[key] == P.Written(runs[key], a).GetOr(runs[key].row.value)
      modifies this`runs
      ensures Valid()
      ensures runs == if key in records then old(runs)[key := P.Next(old(runs)[key], a)] else old(runs)
      ensures key in records && !a.RecordKey? && Holds(old(runs)[key].row, a.token) ==> IsLatest(old(runs)[key], a.token)
    {
      if key in records {
        CallIsStep(runs[key], a, clock, nextToken);
        runs := runs[key := P.Next(runs[key], a)];
      }
    }

    /** The call is the step `a` on its key, and nothing else. */
    twostate predicate Took(key: string, a: P.Action)
      reads this
    {
      && clock == old(clock) && nextToken == old(nextToken)
      && runs == (if key in old(runs) then old(runs)[key := P.Next(old(runs)[key], a)] else old(runs))
    }

    method RenewClaim(key: string, token: Token, secs: nat) returns (ok: bool)
      requires Valid()
      modifies this
      ensures Valid() && Took(key, P.Renew(token, Expiry(clock, secs)))
      ensures ok <==> key in old(records) && old(records)[key].status.Pending? && old(records)[key].owner == Some(token)
      ensures !ok ==> records == old(records)
      ensures ok ==> records == old(records)[key := old(records)[key].(lease := Some(Expiry(clock, secs)))]
      ensures ok ==> IsLatest(old(RunOf(key)), token)
    {
      var row := RenewRow(Row(key), token, Expiry(clock, secs));
      ok := row.Some?;
      if ok { records := records[key := row.value]; }
      Step(key, P.Renew(token, Expiry(clock, secs)));
    }

    method CompleteClaim(key: string, token: Token, result: string) returns (ok: bool)
      requires Valid()
      modifies this
      ensures Valid() && Took(key, P.Complete(token, result))
      ensures ok <==> key in old(records) && old(records)[key].status.Pending? && old(records)[key].owner == Some(token)
      ensures !ok ==> records == old(records)
      ensures ok ==> records == old(records)[key :=
        old(records)[key].(status := Completed, result := Some(result), owner := None, lease := None)]
      ensures ok ==> IsLatest(old(RunOf(key)), token) && forall t :: !Holds(Row(key), t)
    {
      var row := CompleteRow(Row(key), token, result);
      ok := row.Some?;
      if ok { records := records[key := row.value]; }
      Step(key, P.Complete(token, result));
    }

    method FailClaim(key: string, token: Token, error: string, isFinal: bool) returns (ok: bool)
      requires Valid()
      modifies this
      ensures Valid() && Took(key, P.Fail(token, error, isFinal))
      ensures ok <==> key in old(records) && old(records)[key].status.Pending? && old(records)[key].owner == Some(token)
      ensures !ok ==> records == old(records)
      ensures ok ==> records == old(records)[key :=
        old(records)[key].(status := if isFinal then FailedFinal else FailedRetryable,
                           error := Some(error), owner := None, lease := None)]
      ensures ok ==> IsLatest(old(RunOf(key)), token) && forall t :: !Holds(Row(key), t)
    {
      var row := FailRow(Row(key), token, error, isFinal);
      ok := row.Some?;
      if ok { records := records[key := row.value]; }
      Step(key, P.Fail(token, error, isFinal));
    }

    /** Answers on completed keys, and then with the result that was stored last in the history of the key. */
    method GetResult(key: string) returns (r: Option<string>)
      requires Valid()
      ensures r.Some? <==> key in records && records[key].status.Completed?
      ensures r.Some? ==>
        |runs[key].completions| > 0 && r.value == runs[key].completions[|runs[key].completions| - 1].result
    {
      if key in records && records[key].status.Completed? {
        TableIsSound(key);
        return Some(records[key].result.GetOr(""));
      }
      return None;
    }

    method IsDuplicate(key: string) returns (r: bool)
      requires Valid()
      ensures r <==> key in records && records[key].status.Completed?
      ensures r ==> runs[key].completions != []
    {
      r := key in records && records[key].status.Completed?;
      if r { TableIsSound(key); }
    }

    /** Legacy record of a finished key; a key that has a row is left as it is, also under a claim. */
    method RecordInTx(key: string, result: string)
      requires Valid()
      modifies this
      ensures Valid()
      ensures key in old(records) ==> records == old(records)
      ensures key !in old(records) ==> records == old(records)[key := Record(Completed, key, None, None, 1, 1, 1, Some(result), None)]
      ensures RunOf(key) == P.Next(old(RunOf(key)), P.RecordKey(key, result))
    {
      if key in records {
        Step(key, P.RecordKey(key, result));
      } else {
        RecordIsRun(key, result, clock, nextToken);
        records := records[key := RecordRow(None, key, result).value];
        runs := runs[key := P.Next(P.Initial(clock), P.RecordKey(key, result))];
      }
    }
  }
}

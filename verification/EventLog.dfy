/**
 The append-only `event_log` table, with its two unique indexes, the read by stream, and a reader
 that polls a stream with the last version it has seen.
 */
module EventLog {
  import opened Lifecycles

  type Id = string

  /** What the log holds: the moves of the transition service, and the events of every other writer. */
  datatype Body = Moved(kind: Kind, from: Lifecycle, to: Lifecycle) | Other(text: string)

  datatype Event = Event(stream: Id, version: int, body: Body, key: string)

  /** `UNIQUE(idempotency_key)` and `UNIQUE(stream_id, stream_version)` admit `e` after `log`. */
  predicate Admits(log: seq<Event>, e: Event) {
    forall i :: 0 <= i < |log| ==>
      log[i].key != e.key && !(log[i].stream == e.stream && log[i].version == e.version)
  }

  ghost predicate Unique(log: seq<Event>) {
    forall i, j :: 0 <= i < j < |log| ==>
      log[i].key != log[j].key && !(log[i].stream == log[j].stream && log[i].version == log[j].version)
  }

  class Log {
    var events: seq<Event>

    constructor ()
      ensures events == []
    {
      events := [];
    }

    /** Inserts one by one and stops at the first refusal, which the surrounding transaction then rolls back. */
    method AppendInTx(batch: seq<Event>) returns (ok: bool, ghost inserted: nat)
      requires Unique(events)
      modifies this
      ensures Unique(events)
      ensures inserted <= |batch| && events == old(events) + batch[..inserted]
      ensures ok <==> Unique(old(events) + batch)
      ensures ok <==> inserted == |batch|
    {
      inserted := 0;
      var i := 0;
      while i < |batch|
        invariant i <= |batch| && inserted == i
        invariant events == old(events) + batch[..i] && Unique(events)
      {
        if !Admits(events, batch[i]) {
          ghost var j :| 0 <= j < |events| && (events[j].key == batch[i].key ||
            (events[j].stream == batch[i].stream && events[j].version == batch[i].version));
          ghost var whole := old(events) + batch;
          assert whole[j] == events[j] && whole[|events|] == batch[i];
          return false, inserted;
        }
        events := events + [batch[i]];
        assert batch[..i + 1] == batch[..i] + [batch[i]];
        i := i + 1;
        inserted := i;
      }
      assert batch[..i] == batch;
      ok := true;
    }
  }

  // ----- reading a stream -----

  /** The events of a stream, in commit order. */
  function Stream(log: seq<Event>, id: Id): seq<Event> {
    if log == [] then []
    else
      var e := log[|log| - 1];
      Stream(log[..|log| - 1], id) + (if e.stream == id then [e] else [])
  }

  /** Those of the transition service alone. */
  function Moves(log: seq<Event>, id: Id): seq<Event> {
    if log == [] then []
    else
      var e := log[|log| - 1];
      Moves(log[..|log| - 1], id) + (if e.stream == id && e.body.Moved? then [e] else [])
  }

  lemma AppendOne(log: seq<Event>, e: Event, id: Id)
    ensures Stream(log + [e], id) == Stream(log, id) + (if e.stream == id then [e] else [])
    ensures Moves(log + [e], id) == Moves(log, id) + (if e.stream == id && e.body.Moved? then [e] else [])
  {
    assert (log + [e])[..|log|] == log;
  }

  function Above(events: seq<Event>, since: int): seq<Event> {
    if events == [] then []
    else
      var e := events[|events| - 1];
      Above(events[..|events| - 1], since) + (if e.version > since then [e] else [])
  }

  function Insert(e: Event, sorted: seq<Event>): seq<Event> {
    if sorted == [] || sorted[|sorted| - 1].version <= e.version then sorted + [e]
    else Insert(e, sorted[..|sorted| - 1]) + [sorted[|sorted| - 1]]
  }

  /** `ORDER BY stream_version`. */
  function OrderByVersion(events: seq<Event>): seq<Event> {
    if events == [] then [] else Insert(events[|events| - 1], OrderByVersion(events[..|events| - 1]))
  }

  /** `WHERE stream_id = ? AND stream_version > ? ORDER BY stream_version`. */
  function Query(log: seq<Event>, id: Id, since: int): seq<Event> {
    OrderByVersion(Above(Stream(log, id), since))
  }

  ghost predicate Increasing(events: seq<Event>) {
    forall i, j :: 0 <= i < j < |events| ==> events[i].version < events[j].version
  }

  ghost predicate Sorted(events: seq<Event>) {
    forall i, j :: 0 <= i < j < |events| ==> events[i].version <= events[j].version
  }

  lemma {:induction false} InsertKeepsEvents(e: Event, sorted: seq<Event>)
    ensures multiset(Insert(e, sorted)) == multiset(sorted) + multiset{e}
  {
    if sorted != [] && sorted[|sorted| - 1].version > e.version {
      var front := sorted[..|sorted| - 1];
      assert sorted == front + [sorted[|sorted| - 1]];
      InsertKeepsEvents(e, front);
    }
  }

  lemma {:induction false} InsertIsSorted(e: Event, sorted: seq<Event>)
    requires Sorted(sorted)
    ensures Sorted(Insert(e, sorted))
  {
    if sorted != [] && sorted[|sorted| - 1].version > e.version {
      var front, last := sorted[..|sorted| - 1], sorted[|sorted| - 1];
      InsertIsSorted(e, front);
      InsertKeepsEvents(e, front);
      var r := Insert(e, front);
      forall i | 0 <= i < |r| ensures r[i].version <= last.version {
        assert r[i] in multiset(r);
        assert r[i] == e || r[i] in multiset(front);
      }
    }
  }

  /** The query orders the chosen events by version, and neither loses nor repeats one. */
  lemma {:induction false} OrderByVersionIsSorted(events: seq<Event>)
    ensures multiset(OrderByVersion(events)) == multiset(events)
    ensures Sorted(OrderByVersion(events))
  {
    if events != [] {
      var front, last := events[..|events| - 1], events[|events| - 1];
      assert events == front + [last];
      OrderByVersionIsSorted(front);
      InsertIsSorted(last, OrderByVersion(front));
      InsertKeepsEvents(last, OrderByVersion(front));
    }
  }

  // ----- a polling reader -----

  const U32: int := 0x1_0000_0000

  /** The version a caller sees: the column cast to 32 bits. */
  function SeenVersion(e: Event): int {
    e.version % U32
  }

  /** The cursor after a batch: the version of its last entry. */
  function Advance(cursor: int, batch: seq<Event>): int {
    if batch == [] then cursor else SeenVersion(batch[|batch| - 1])
  }

  /** Everything a reader receives that polls once in each state of the log from the `i`th on. */
  function PollsFrom(logs: seq<seq<Event>>, i: nat, id: Id, cursor: int): seq<Event>
    requires i <= |logs|
    decreases |logs| - i
  {
    if i == |logs| then []
    else
      var batch := Query(logs[i], id, cursor);
      batch + PollsFrom(logs, i + 1, id, Advance(cursor, batch))
  }

  /** A reader that has seen nothing sends no version, which the query takes for 0. */
  function Polls(logs: seq<seq<Event>>, id: Id): seq<Event> {
    PollsFrom(logs, 0, id, 0)
  }

  /** The versions of a stream are what the cast and a first cursor of 0 can represent. */
  ghost predicate Fits(events: seq<Event>) {
    forall e :: e in events ==> 0 < e.version < U32
  }

  ghost predicate AllFit(logs: seq<seq<Event>>, id: Id) {
    forall k :: 0 <= k < |logs| ==> Fits(Stream(logs[k], id))
  }

  lemma {:induction false} AboveIsAbove(events: seq<Event>, since: int)
    ensures forall e :: e in Above(events, since) <==> e in events && e.version > since
  {
    if events != [] {
      var front := events[..|events| - 1];
      assert events == front + [events[|events| - 1]];
      AboveIsAbove(front, since);
    }
  }

  /** A batch holds exactly the events of the stream above the cursor, and ends with the highest. */
  lemma {:induction false} BatchIsAboveCursor(log: seq<Event>, id: Id, cursor: int)
    ensures forall e :: e in Query(log, id, cursor) <==> e in Stream(log, id) && e.version > cursor
    ensures forall e :: e in Query(log, id, cursor) ==> e.version <= Query(log, id, cursor)[|Query(log, id, cursor)| - 1].version
  {
    var chosen, batch := Above(Stream(log, id), cursor), Query(log, id, cursor);
    OrderByVersionIsSorted(chosen);
    AboveIsAbove(Stream(log, id), cursor);
    forall e ensures e in batch <==> e in chosen {
      assert e in batch <==> e in multiset(batch);
      assert e in chosen <==> e in multiset(chosen);
    }
  }

  /** The cursor after a poll is the largest version shown so far. */
  lemma {:induction false} CursorIsLargestShown(log: seq<Event>, id: Id, cursor: int)
    requires 0 <= cursor && Fits(Stream(log, id))
    ensures var next := Advance(cursor, Query(log, id, cursor));
      && cursor <= next
      && (forall f :: f in Stream(log, id) ==> f.version <= next)
      && (next == cursor || exists f :: f in Stream(log, id) && f.version == next)
  {
    BatchIsAboveCursor(log, id, cursor);
    var batch := Query(log, id, cursor);
    if batch != [] {
      assert batch[|batch| - 1] in batch;
    }
  }

  /** `e` is there at poll `k`, and the polls from the `i`th up to that one showed lower versions only. */
  ghost predicate ShownInTime(logs: seq<seq<Event>>, i: nat, k: nat, id: Id, e: Event) {
    i <= k < |logs| && e in Stream(logs[k], id) && AllShownBelow(logs, i, k, id, e.version)
  }

  ghost predicate AllShownBelow(logs: seq<seq<Event>>, i: nat, k: nat, id: Id, version: int)
    requires k <= |logs|
  {
    forall j, f :: i <= j < k && f in Stream(logs[j], id) ==> f.version < version
  }

  /**
   What a reader with a cursor receives, on any stream and whoever writes to it: exactly the events
   above the cursor that are there at some poll before which no poll showed a version as high.
   */
  lemma {:induction false} PollsResume(logs: seq<seq<Event>>, i: nat, id: Id, cursor: int, e: Event)
    requires i <= |logs| && 0 <= cursor && AllFit(logs, id)
    ensures e in PollsFrom(logs, i, id, cursor) <==> e.version > cursor && exists k: nat :: ShownInTime(logs, i, k, id, e)
    decreases |logs| - i
  {
    if i < |logs| {
      var batch := Query(logs[i], id, cursor);
      var next := Advance(cursor, batch);
      BatchIsAboveCursor(logs[i], id, cursor);
      CursorIsLargestShown(logs[i], id, cursor);
      PollsResume(logs, i + 1, id, next, e);
      assert e in PollsFrom(logs, i, id, cursor) <==> e in batch || e in PollsFrom(logs, i + 1, id, next);
      if e in batch {
        assert ShownInTime(logs, i, i, id, e);
      } else if e in PollsFrom(logs, i + 1, id, next) {
        var k: nat :| ShownInTime(logs, i + 1, k, id, e);
        assert ShownInTime(logs, i, k, id, e);
      }
      if k: nat :| e.version > cursor && ShownInTime(logs, i, k, id, e) {
        if k > i {
          assert ShownInTime(logs, i + 1, k, id, e);
        }
      }
    }
  }

  /** A reader that starts with nothing receives exactly what no earlier poll has overtaken. */
  lemma {:induction false} ReceivedExactly(logs: seq<seq<Event>>, id: Id, e: Event)
    requires AllFit(logs, id)
    ensures e in Polls(logs, id) <==> exists k: nat :: ShownInTime(logs, 0, k, id, e)
  {
    PollsResume(logs, 0, id, 0, e);
    if k: nat :| ShownInTime(logs, 0, k, id, e) {
      assert Fits(Stream(logs[k], id));
    }
  }

  // ----- order and repetition -----

  ghost predicate DistinctVersions(events: seq<Event>) {
    forall i, j :: 0 <= i < j < |events| ==> events[i].version != events[j].version
  }

  lemma {:induction false} UniqueHasDistinctVersions(log: seq<Event>, id: Id)
    requires Unique(log)
    ensures DistinctVersions(Stream(log, id))
    ensures forall e :: e in Stream(log, id) ==> e in log && e.stream == id
  {
    if log != [] {
      var front := log[..|log| - 1];
      UniqueHasDistinctVersions(front, id);
      forall e | e in Stream(front, id) ensures e.stream == id && (log[|log| - 1].stream == id ==> e.version != log[|log| - 1].version) {
        var i :| 0 <= i < |front| && front[i] == e;
        assert log[i] == e;
      }
    }
  }

  lemma {:induction false} AboveKeepsDistinct(events: seq<Event>, since: int)
    requires DistinctVersions(events)
    ensures DistinctVersions(Above(events, since))
  {
    if events != [] {
      var front, last := events[..|events| - 1], events[|events| - 1];
      AboveKeepsDistinct(front, since);
      AboveIsAbove(front, since);
      forall e | e in Above(front, since) ensures e.version != last.version {
        var i :| 0 <= i < |front| && front[i] == e;
      }
    }
  }

  lemma {:induction false} InsertIsIncreasing(e: Event, sorted: seq<Event>)
    requires Increasing(sorted) && forall f :: f in sorted ==> f.version != e.version
    ensures Increasing(Insert(e, sorted))
  {
    if sorted != [] && sorted[|sorted| - 1].version > e.version {
      var front, last := sorted[..|sorted| - 1], sorted[|sorted| - 1];
      InsertIsIncreasing(e, front);
      InsertKeepsEvents(e, front);
      var r := Insert(e, front);
      forall i | 0 <= i < |r| ensures r[i].version < last.version {
        assert r[i] in multiset(r);
        assert r[i] == e || r[i] in multiset(front);
      }
    }
  }

  lemma {:induction false} OrderIsIncreasing(events: seq<Event>)
    requires DistinctVersions(events)
    ensures Increasing(OrderByVersion(events))
  {
    if events != [] {
      var front, last := events[..|events| - 1], events[|events| - 1];
      OrderIsIncreasing(front);
      OrderByVersionIsSorted(front);
      forall f | f in OrderByVersion(front) ensures f.version != last.version {
        assert f in multiset(front);
      }
      InsertIsIncreasing(last, OrderByVersion(front));
    }
  }

  lemma {:induction false} PollsRise(logs: seq<seq<Event>>, i: nat, id: Id, cursor: int)
    requires i <= |logs| && 0 <= cursor && AllFit(logs, id)
    requires forall k :: 0 <= k < |logs| ==> DistinctVersions(Stream(logs[k], id))
    ensures Increasing(PollsFrom(logs, i, id, cursor))
    ensures forall e :: e in PollsFrom(logs, i, id, cursor) ==> e.version > cursor
    decreases |logs| - i
  {
    if i < |logs| {
      var batch := Query(logs[i], id, cursor);
      AboveKeepsDistinct(Stream(logs[i], id), cursor);
      OrderIsIncreasing(Above(Stream(logs[i], id), cursor));
      BatchIsAboveCursor(logs[i], id, cursor);
      CursorIsLargestShown(logs[i], id, cursor);
      PollsRise(logs, i + 1, id, Advance(cursor, batch));
      RisesAcross(batch, PollsFrom(logs, i + 1, id, Advance(cursor, batch)), Advance(cursor, batch));
    }
  }

  lemma {:induction false} RisesAcross(a: seq<Event>, b: seq<Event>, between: int)
    requires Increasing(a) && Increasing(b)
    requires forall e :: e in a ==> e.version <= between
    requires forall e :: e in b ==> between < e.version
    ensures Increasing(a + b)
  {
    forall i, j | 0 <= i < j < |a + b| ensures (a + b)[i].version < (a + b)[j].version {
      if i < |a| <= j {
        assert a[i] in a && b[j - |a|] in b;
      }
    }
  }

  /** As the log is unique per stream and version, versions rise strictly over all polls, so nothing arrives twice. */
  lemma {:induction false} NothingTwice(logs: seq<seq<Event>>, id: Id)
    requires AllFit(logs, id) && forall k :: 0 <= k < |logs| ==> Unique(logs[k])
    ensures Increasing(Polls(logs, id))
    ensures forall i, j :: 0 <= i < j < |Polls(logs, id)| ==> Polls(logs, id)[i] != Polls(logs, id)[j]
  {
    forall k | 0 <= k < |logs| ensures DistinctVersions(Stream(logs[k], id)) {
      UniqueHasDistinctVersions(logs[k], id);
    }
    PollsRise(logs, 0, id, 0);
  }

  // ----- when nothing is missed -----

  /** No event appears for the first time at or below a version that an earlier poll has shown. */
  ghost predicate NothingOvertaken(logs: seq<seq<Event>>, id: Id) {
    forall k: nat, e :: FirstShown(logs, k, id, e) ==> AllShownBelow(logs, 0, k, id, e.version)
  }

  ghost predicate FirstShown(logs: seq<seq<Event>>, k: nat, id: Id, e: Event) {
    k < |logs| && e in Stream(logs[k], id) && forall j :: 0 <= j < k ==> e !in Stream(logs[j], id)
  }

  lemma {:induction false} FirstPollWith(logs: seq<seq<Event>>, k: nat, id: Id, e: Event) returns (first: nat)
    requires k < |logs| && e in Stream(logs[k], id)
    ensures first <= k && FirstShown(logs, first, id, e)
  {
    if j: nat :| j < k && e in Stream(logs[j], id) {
      first := FirstPollWith(logs, j, id, e);
    } else {
      first := k;
    }
  }

  /** Every event that any poll could have shown is received, if and only if none is overtaken. */
  lemma {:induction false} NothingMissedExactly(logs: seq<seq<Event>>, id: Id)
    requires AllFit(logs, id)
    ensures (forall k, e :: 0 <= k < |logs| && e in Stream(logs[k], id) ==> e in Polls(logs, id)) <==> NothingOvertaken(logs, id)
  {
    forall k, e | 0 <= k < |logs| && e in Stream(logs[k], id) && NothingOvertaken(logs, id) ensures e in Polls(logs, id) {
      var first := FirstPollWith(logs, k, id, e);
      assert ShownInTime(logs, 0, first, id, e);
      ReceivedExactly(logs, id, e);
    }
    forall k: nat, e | FirstShown(logs, k, id, e) && e in Polls(logs, id) ensures AllShownBelow(logs, 0, k, id, e.version) {
      ReceivedExactly(logs, id, e);
      var k': nat :| ShownInTime(logs, 0, k', id, e);
    }
  }

  ghost predicate Growing(logs: seq<seq<Event>>) {
    forall i, j :: 0 <= i <= j < |logs| ==> logs[i] <= logs[j]
  }

  lemma {:induction false} StreamOfPrefix(log: seq<Event>, more: seq<Event>, id: Id)
    requires log <= more
    ensures Stream(log, id) <= Stream(more, id)
    decreases more
  {
    if |log| < |more| {
      var front := more[..|more| - 1];
      assert log <= front;
      StreamOfPrefix(log, front, id);
    } else {
      assert log == more;
    }
  }

  lemma NonEmptyHasMember(events: seq<Event>)
    ensures events == [] || exists e :: e in events
  {
    if events != [] { assert events[0] in events; }
  }

  lemma PrefixHas(front: seq<Event>, all: seq<Event>, n: nat)
    requires front <= all && n < |all|
    ensures n < |front| ==> all[n] in front
  {
    if n < |front| { assert front[n] == all[n]; }
  }

  lemma {:induction false} SameIncreasing(a: seq<Event>, b: seq<Event>)
    requires Increasing(a) && Increasing(b) && forall e :: e in a <==> e in b
    ensures a == b
  {
    if a == [] {
      NonEmptyHasMember(b);
    } else {
      var x := a[|a| - 1];
      assert x in b;
      var y := b[|b| - 1];
      assert y in a;
      assert x == y;
      var a', b' := a[..|a| - 1], b[..|b| - 1];
      forall e ensures e in a' <==> e in b' {
        assert e in a <==> e in a' || e == x;
        assert e in b <==> e in b' || e == y;
        assert x !in a' && y !in b';
      }
      SameIncreasing(a', b');
      assert a == a' + [x] && b == b' + [y];
    }
  }

  lemma {:induction false} GrowingStreams(logs: seq<seq<Event>>, id: Id)
    requires logs != [] && Growing(logs)
    ensures forall k :: 0 <= k < |logs| ==> Stream(logs[k], id) <= Stream(logs[|logs| - 1], id)
  {
    forall k | 0 <= k < |logs| ensures Stream(logs[k], id) <= Stream(logs[|logs| - 1], id) {
      StreamOfPrefix(logs[k], logs[|logs| - 1], id);
    }
  }

  /** If versions rise in commit order, every event arrives exactly once and in commit order. */
  lemma {:induction false} GaplessCursor(logs: seq<seq<Event>>, id: Id)
    requires logs != [] && Growing(logs)
    requires var all := Stream(logs[|logs| - 1], id); Increasing(all) && Fits(all)
    ensures Polls(logs, id) == Stream(logs[|logs| - 1], id)
  {
    var all := Stream(logs[|logs| - 1], id);
    GrowingStreams(logs, id);
    PollsRise(logs, 0, id, 0);
    forall k: nat, e | FirstShown(logs, k, id, e) ensures AllShownBelow(logs, 0, k, id, e.version) {
      RisingIsNotOvertaken(logs, k, id, e);
    }
    NothingMissedExactly(logs, id);
    forall e ensures e in Polls(logs, id) <==> e in all {
      ReceivedExactly(logs, id, e);
      assert e in all ==> e in Stream(logs[|logs| - 1], id);
    }
    SameIncreasing(Polls(logs, id), all);
  }

  lemma {:induction false} RisingIsNotOvertaken(logs: seq<seq<Event>>, k: nat, id: Id, e: Event)
    requires k < |logs| && Growing(logs) && Increasing(Stream(logs[k], id)) && FirstShown(logs, k, id, e)
    ensures AllShownBelow(logs, 0, k, id, e.version)
  {
    var now := Stream(logs[k], id);
    var n :| 0 <= n < |now| && now[n] == e;
    forall j, f | 0 <= j < k && f in Stream(logs[j], id) ensures f.version < e.version {
      StreamOfPrefix(logs[j], logs[k], id);
      var m :| 0 <= m < |Stream(logs[j], id)| && Stream(logs[j], id)[m] == f;
      assert now[m] == f;
      PrefixHas(Stream(logs[j], id), now, n);
    }
  }

  /** The cast to 32 bits matters exactly from version 2^32 on: polling again then delivers the last event again. */
  lemma {:induction false} PollAgainIsEmptyIffVersionFits(log: seq<Event>, id: Id, cursor: int)
    requires 0 <= cursor && Query(log, id, cursor) != []
    ensures var batch := Query(log, id, cursor);
      var last, again := batch[|batch| - 1], Query(log, id, Advance(cursor, batch));
      (again == [] <==> last.version < U32) && (again != [] ==> last in again)
  {
    var batch := Query(log, id, cursor);
    var last := batch[|batch| - 1];
    assert last in batch;
    BatchIsAboveCursor(log, id, cursor);
    var next := Advance(cursor, batch);
    BatchIsAboveCursor(log, id, next);
    if last.version < U32 {
      var again := Query(log, id, next);
      NonEmptyHasMember(again);
    } else {
      assert last in Query(log, id, next);
    }
  }
}

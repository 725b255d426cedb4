/** The outbox table: leased, fenced rows (internal/repo/notification_outbox.go) and the worker's batch loop. */
module Outbox {
  import opened Common
  import opened Notification

  datatype Status = Pending | Publishing | Published

  datatype Row = Row(eventId: string, draft: Draft, status: Status, retryCount: nat, nextRetryAt: Option<Time>,
                     lockedUntil: Option<Time>, leaseToken: string, lastError: string, publishedAt: Option<Time>)

  function NewRow(eventId: string, d: Draft): Row {
    Row(eventId, d, Pending, 0, None, None, "", "", None)
  }

  // ---- the WHERE clauses and SET lists of the four statements ----

  predicate Claimable(r: Row, now: Time) {
    || (r.status.Pending? && (r.nextRetryAt.None? || r.nextRetryAt.value <= now))
    || (r.status.Publishing? && r.lockedUntil.Some? && r.lockedUntil.value <= now)
  }

  predicate Holds(r: Row, token: string) {
    r.status.Publishing? && r.leaseToken == token
  }

  function Leased(r: Row, now: Time, lease: Time, token: string): Row {
    r.(status := Publishing, lockedUntil := Some(now + lease), leaseToken := token)
  }

  function Marked(r: Row, now: Time): Row {
    r.(status := Published, publishedAt := Some(now), lockedUntil := None, leaseToken := "", lastError := "")
  }

  function Rescheduled(r: Row, seen: nat, cause: Option<string>, now: Time): Row {
    r.(status := Pending, retryCount := seen + 1, nextRetryAt := Some(now + Delay(seen)),
       lastError := (if cause.None? then "unknown publish error" else cause.value),
       lockedUntil := None, leaseToken := "")
  }

  // The operator's UPDATE for a published event (README.md).
  function Reopened(r: Row): Row {
    r.(status := Pending, retryCount := 0, nextRetryAt := None, lockedUntil := None, leaseToken := "",
       lastError := "", publishedAt := None)
  }

  function Pow2(n: nat): nat { if n == 0 then 1 else 2 * Pow2(n - 1) }

  const MAX_DELAY: Time := 300 * SECOND

  function Delay(retryCount: nat): Time {
    var d := SECOND * Pow2(Min(retryCount, 8));
    if d > MAX_DELAY then MAX_DELAY else d
  }

  /** The five-minute cap never binds: the longest delay is 256 s. */
  lemma DelayNeverCapped(n: nat)
    ensures Delay(n) == SECOND * Pow2(Min(n, 8))
    ensures SECOND <= Delay(n) <= 256 * SECOND < MAX_DELAY
    ensures Delay(n) <= Delay(n + 1)
    ensures Delay(n) == 256 * SECOND <==> n >= 8
  {
    assert Pow2(3) == 8;
    assert Pow2(6) == 64;
    assert Pow2(8) == 256;
    if n < 8 {
      Pow2Monotone(n, 7);
      assert Pow2(n + 1) == 2 * Pow2(n);
    }
  }

  lemma {:induction false} Pow2Monotone(a: nat, b: nat)
    requires a <= b
    ensures 1 <= Pow2(a) <= Pow2(b)
    decreases b
  {
    if a < b {
      Pow2Monotone(a, b - 1);
    } else if a > 0 {
      Pow2Monotone(a - 1, b - 1);
    }
  }

  /** A row that is claimed is in lease until the lease runs out, whatever the clock of the claimer. */
  lemma LeaseExcludes(r: Row, now: Time, lease: Time, token: string, later: Time)
    ensures Claimable(Leased(r, now, lease, token), later) <==> now + lease <= later
  {
  }

  /** The rows a statement at this moment may claim, rows locked by concurrent claims skipped. */
  function Candidates(rows: map<nat, Row>, now: Time, locked: set<nat>): set<nat> {
    set id | id in rows && id !in locked && Claimable(rows[id], now)
  }

  /** notification_outbox_events. */
  class Table {
    var rows: map<nat, Row>
    var nextId: nat

    ghost predicate Valid()
      reads this
    {
      forall id :: id in rows ==> id < nextId
    }

    constructor ()
      ensures Valid() && rows == map[]
    {
      rows := map[];
      nextId := 1;
    }

    method Create(eventId: string, d: Draft) returns (id: nat)
      requires Valid()
      modifies this
      ensures Valid()
      ensures id !in old(rows) && rows == old(rows)[id := NewRow(eventId, d)]
      ensures forall x :: x in old(rows) ==> x < id
    {
      id := nextId;
      rows := rows[id := NewRow(eventId, d)];
      nextId := nextId + 1;
    }

    // ORDER BY id ASC LIMIT 1 FOR UPDATE SKIP LOCKED, then the lease.
    method ClaimNext(now: Time, lease: Time, token: string, locked: set<nat>) returns (claimed: Option<nat>)
      requires Valid()
      modifies this`rows
      ensures Valid()
      ensures claimed.None? <==> forall id :: id in old(rows) && id !in locked ==> !Claimable(old(rows)[id], now)
      ensures claimed.None? ==> rows == old(rows)
      ensures claimed.Some? ==>
                && claimed.value in old(rows) && claimed.value !in locked && Claimable(old(rows)[claimed.value], now)
                && (forall id :: id in old(rows) && id !in locked && Claimable(old(rows)[id], now) ==>
                      claimed.value <= id)
                && rows == old(rows)[claimed.value := Leased(old(rows)[claimed.value], now, lease, token)]
    {
      var id := 0;
      while id < nextId
        invariant 0 <= id <= nextId
        invariant forall x :: x in rows && x !in locked && Claimable(rows[x], now) ==> id <= x
        invariant rows == old(rows)
      {
        if id in rows && id !in locked && Claimable(rows[id], now) {
          rows := rows[id := Leased(rows[id], now, lease, token)];
          return Some(id);
        }
        id := id + 1;
      }
      return None;
    }

    method MarkPublished(id: nat, token: string, now: Time) returns (ok: bool)
      requires Valid()
      modifies this`rows
      ensures Valid()
      ensures ok <==> id in old(rows) && Holds(old(rows)[id], token)
      ensures rows == if ok then old(rows)[id := Marked(old(rows)[id], now)] else old(rows)
    {
      ok := id in rows && Holds(rows[id], token);
      if ok {
        rows := rows[id := Marked(rows[id], now)];
      }
    }

    // First statement of MarkRetry.
    method FindForRetry(id: nat, token: string) returns (seen: Option<nat>)
      ensures seen == if id in rows && Holds(rows[id], token) then Some(rows[id].retryCount) else None
    {
      seen := if id in rows && Holds(rows[id], token) then Some(rows[id].retryCount) else None;
    }

    // Second statement of MarkRetry.
    method RecordRetry(id: nat, token: string, seen: nat, cause: Option<string>, now: Time) returns (ok: bool)
      requires Valid()
      modifies this`rows
      ensures Valid()
      ensures ok <==> id in old(rows) && Holds(old(rows)[id], token)
      ensures rows == if ok then old(rows)[id := Rescheduled(old(rows)[id], seen, cause, now)] else old(rows)
    {
      ok := id in rows && Holds(rows[id], token);
      if ok {
        rows := rows[id := Rescheduled(rows[id], seen, cause, now)];
      }
    }

    // The two statements with nothing in between.
    method MarkRetry(id: nat, token: string, cause: Option<string>, now: Time) returns (ok: bool)
      requires Valid()
      modifies this`rows
      ensures Valid()
      ensures ok <==> id in old(rows) && Holds(old(rows)[id], token)
      ensures rows == if ok then old(rows)[id := Rescheduled(old(rows)[id], old(rows)[id].retryCount, cause, now)]
                      else old(rows)
    {
      var seen := FindForRetry(id, token);
      if seen.None? {
        return false;
      }
      ok := RecordRetry(id, token, seen.value, cause, now);
    }
  }

  datatype Outcome = Worked | Idle | Failed

  ghost function PublishedIds(rows: map<nat, Row>): set<nat> {
    set id | id in rows && rows[id].status.Published?
  }

  /** A publisher worker alone on its table, its clock standing at now. */
  class Worker {
    const table: Table
    const now: Time
    const lease: Time

    constructor (table: Table, now: Time, lease: Time)
      ensures this.table == table && this.now == now && this.lease == lease
    {
      this.table := table;
      this.now := now;
      this.lease := lease;
    }

    // published: what the publisher answers for this event.
    method RunOne(token: string, published: bool) returns (o: Outcome)
      requires table.Valid()
      modifies table`rows
      ensures table.Valid()
      ensures o.Idle? <==> Candidates(old(table.rows), now, {}) == {}
      ensures o.Idle? ==> table.rows == old(table.rows)
      ensures !o.Idle? ==> (o.Worked? <==> published)
      ensures !o.Idle? ==> Served(old(table.rows), table.rows, token, published)
    {
      var claimed := table.ClaimNext(now, lease, token, {});
      assert forall id :: id in Candidates(old(table.rows), now, {}) <==>
          id in old(table.rows) && id !in {} && Claimable(old(table.rows)[id], now);
      if claimed.None? {
        return Idle;
      }
      var id := claimed.value;
      if !published {
        var _ := table.MarkRetry(id, token, Some("publish failed"), now);
        assert ServedRow(old(table.rows), table.rows, token, false, id);
        return Failed;
      }
      var ok := table.MarkPublished(id, token, now);
      assert ok && ServedRow(old(table.rows), table.rows, token, true, id);
      return Worked;
    }

    ghost function After(r: Row, token: string, published: bool): (a: Row)
      ensures a.eventId == r.eventId && a.draft == r.draft && (a.status.Published? <==> published)
      ensures !Claimable(a, now)
    {
      DelayNeverCapped(r.retryCount);
      if published then Marked(Leased(r, now, lease, token), now)
      else Rescheduled(Leased(r, now, lease, token), r.retryCount, Some("publish failed"), now)
    }

    // What a batch that started from start has done so far.
    ghost predicate Progress(start: map<nat, Row>, rows: map<nat, Row>, processed: int) {
      && rows.Keys == start.Keys
      && PublishedIds(start) <= PublishedIds(rows)
      && |PublishedIds(rows) - PublishedIds(start)| == processed
      && InOrder(start, rows)
      && OnlyPublished(start, rows)
    }

    ghost predicate InOrder(start: map<nat, Row>, rows: map<nat, Row>) {
      forall p, q :: p in PublishedIds(rows) - PublishedIds(start) && q in Candidates(rows, now, {}) ==> p < q
    }

    ghost predicate OnlyPublished(start: map<nat, Row>, rows: map<nat, Row>)
      requires rows.Keys == start.Keys
    {
      forall id :: id in rows && rows[id] != start[id] ==> id in PublishedIds(rows) && id in Candidates(start, now, {})
    }

    ghost predicate Served(before: map<nat, Row>, rows: map<nat, Row>, token: string, published: bool) {
      exists id :: ServedRow(before, rows, token, published, id)
    }

    ghost predicate ServedRow(before: map<nat, Row>, rows: map<nat, Row>, token: string, published: bool, id: nat) {
      && id in Candidates(before, now, {})
      && (forall x :: x in Candidates(before, now, {}) ==> id <= x)
      && rows == before[id := After(before[id], token, published)]
    }

    lemma ServedKeepsOrder(start: map<nat, Row>, before: map<nat, Row>, rows: map<nat, Row>, token: string,
                           published: bool, id: nat)
      requires InOrder(start, before) && ServedRow(before, rows, token, published, id)
      ensures InOrder(start, rows)
    {
      forall p, q | p in PublishedIds(rows) - PublishedIds(start) && q in Candidates(rows, now, {})
        ensures p < q
      {
        assert q in Candidates(before, now, {}) && q != id;
        assert p == id || p in PublishedIds(before) - PublishedIds(start);
      }
    }

    lemma ServedTouchesOne(start: map<nat, Row>, before: map<nat, Row>, rows: map<nat, Row>, token: string, id: nat)
      requires start.Keys == before.Keys && OnlyPublished(start, before) && ServedRow(before, rows, token, true, id)
      ensures rows.Keys == start.Keys && OnlyPublished(start, rows) && id !in PublishedIds(start)
    {
      assert before[id] == start[id];
      forall x | x in rows && rows[x] != start[x]
        ensures x in PublishedIds(rows) && x in Candidates(start, now, {})
      {
        if x != id {
          assert rows[x] == before[x];
          assert x in PublishedIds(before);
        }
      }
    }

    lemma OneMore(start: set<nat>, before: set<nat>, after: set<nat>, id: nat)
      requires id !in start && id !in before && after == before + {id}
      ensures |after - start| == |before - start| + 1
    {
      assert after - start == before - start + {id};
    }

    lemma ServedPublishes(start: map<nat, Row>, before: map<nat, Row>, rows: map<nat, Row>, token: string,
                          processed: int)
      requires Progress(start, before, processed) && Served(before, rows, token, true)
      ensures Progress(start, rows, processed + 1)
    {
      var id :| ServedRow(before, rows, token, true, id);
      ServedKeepsOrder(start, before, rows, token, true, id);
      ServedTouchesOne(start, before, rows, token, id);
      OneMore(PublishedIds(start), PublishedIds(before), PublishedIds(rows), id);
    }

    lemma ServedFails(start: map<nat, Row>, before: map<nat, Row>, rows: map<nat, Row>, token: string, processed: int)
      requires Progress(start, before, processed) && Served(before, rows, token, false)
      ensures rows.Keys == start.Keys && PublishedIds(rows) == PublishedIds(before)
      ensures InOrder(start, rows)
    {
      var id :| ServedRow(before, rows, token, false, id);
      ServedKeepsOrder(start, before, rows, token, false, id);
    }

    /** Publishes in id order, counts exactly what it published, stops early only on an error or an empty table. */
    method RunBatch(limit: int, tokens: int -> string, published: int -> bool) returns (processed: int, failed: bool)
      requires table.Valid()
      modifies table`rows
      ensures table.Valid()
      ensures table.rows.Keys == old(table.rows).Keys
      ensures 0 <= processed <= (if limit < 0 then 0 else limit)
      ensures PublishedIds(old(table.rows)) <= PublishedIds(table.rows)
      ensures |PublishedIds(table.rows) - PublishedIds(old(table.rows))| == processed
      ensures !failed && processed < limit ==> Candidates(table.rows, now, {}) == {}
      ensures InOrder(old(table.rows), table.rows)
      ensures !failed ==> Progress(old(table.rows), table.rows, processed)
    {
      processed, failed := 0, false;
      if limit < 1 {
        return;
      }
      ghost var start := table.rows;
      assert PublishedIds(start) - PublishedIds(start) == {};
      while processed < limit
        invariant table.Valid()
        invariant 0 <= processed <= limit
        invariant Progress(start, table.rows, processed)
      {
        ghost var before := table.rows;
        var o := RunOne(tokens(processed), published(processed));
        if o.Idle? {
          break;
        }
        if o.Failed? {
          ServedFails(start, before, table.rows, tokens(processed), processed);
          return processed, true;
        }
        ServedPublishes(start, before, table.rows, tokens(processed), processed);
        processed := processed + 1;
      }
    }
  }
}

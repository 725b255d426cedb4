/** Drafts, stored notifications and the two delivery modes (internal/service/notification.go). */
module Notification {
  import opened Common

  datatype Draft = Draft(userId: nat, kind: string, title: string, content: string,
                         resourceType: string, resourceId: nat, actorId: nat)

  // A row of the notifications table; the event id is NULL for directly created rows.
  datatype Notice = Notice(eventId: Option<string>, body: Draft)

  datatype Mode = Sync | Outbox

  // A notification about one's own action is never produced.
  predicate Deliverable(d: Option<Draft>) {
    d.Some? && d.value.userId != d.value.actorId
  }

  // What the consumer insists on before it inserts.
  predicate Complete(eventId: string, d: Draft) {
    eventId != "" && d.userId != 0 && d.kind != "" && d.title != ""
  }

  predicate Stored(notices: seq<Notice>, eventId: string) {
    exists i :: 0 <= i < |notices| && notices[i].eventId == Some(eventId)
  }

  // At most one notification per event id: the unique index on event_id, NULLs excepted.
  ghost predicate UniqueEvents(notices: seq<Notice>) {
    forall i, j :: 0 <= i < j < |notices| && notices[i].eventId.Some? ==> notices[i].eventId != notices[j].eventId
  }

  // INSERT .. ON CONFLICT (event_id) DO NOTHING.
  function InsertOnce(notices: seq<Notice>, eventId: string, d: Draft): (r: seq<Notice>)
    ensures notices <= r && |r| <= |notices| + 1
    ensures exists i :: 0 <= i < |r| && r[i].eventId == Some(eventId)
    ensures UniqueEvents(notices) ==> UniqueEvents(r)
    ensures forall i :: 0 <= i < |r| ==> r[i] in notices || r[i] == Notice(Some(eventId), d)
    ensures Stored(notices, eventId) ==> r == notices
  {
    if Stored(notices, eventId) then notices
    else
      var r := notices + [Notice(Some(eventId), d)];
      assert r[|notices|].eventId == Some(eventId);
      r
  }

  /** The notifications table. */
  class NoticeTable {
    var rows: seq<Notice>

    constructor ()
      ensures rows == []
    {
      rows := [];
    }

    method CreateFromOutboxEvent(eventId: string, d: Draft)
      modifies this
      ensures rows == InsertOnce(old(rows), eventId, d)
    {
      var i := 0;
      while i < |rows|
        invariant 0 <= i <= |rows|
        invariant forall j :: 0 <= j < i ==> rows[j].eventId != Some(eventId)
        invariant rows == old(rows)
      {
        if rows[i].eventId == Some(eventId) {
          return;
        }
        i := i + 1;
      }
      rows := rows + [Notice(Some(eventId), d)];
    }

    method Create(d: Draft)
      modifies this
      ensures rows == old(rows) + [Notice(None, d)]
    {
      rows := rows + [Notice(None, d)];
    }
  }

  /** The consumer handler: decode, validate, then insert idempotently. payload None: it does not decode; inserts:
      whether the statement reaches the database. */
  method Process(table: NoticeTable, payload: Option<(string, Draft)>, inserts: bool) returns (ok: bool)
    modifies table
    ensures ok <==> inserts && payload.Some? && payload.value.0 != "" && payload.value.1.userId != 0
                    && payload.value.1.kind != "" && payload.value.1.title != ""
    ensures table.rows == if ok then InsertOnce(old(table.rows), payload.value.0, payload.value.1) else old(table.rows)
    ensures ok ==> Stored(table.rows, payload.value.0)
  {
    if payload.None? {
      return false;
    }
    var (eventId, d) := payload.value;
    if eventId == "" || d.userId == 0 || d.kind == "" || d.title == "" || !inserts {
      return false;
    }
    table.CreateFromOutboxEvent(eventId, d);
    return true;
  }

  /** Handling the same event any number of times stores it once, with the first draft's fields. */
  function Redelivered(notices: seq<Notice>, eventId: string, d: Draft, times: nat): seq<Notice> {
    if times == 0 then notices else InsertOnce(Redelivered(notices, eventId, d, times - 1), eventId, d)
  }

  lemma {:induction false} RedeliveryIsIdempotent(notices: seq<Notice>, eventId: string, d: Draft, times: nat)
    requires times > 0
    ensures Redelivered(notices, eventId, d, times) == InsertOnce(notices, eventId, d)
  {
    if times > 1 {
      RedeliveryIsIdempotent(notices, eventId, d, times - 1);
    } else {
      assert Redelivered(notices, eventId, d, 0) == notices;
    }
  }

  /** One committed interaction: the enqueue inside its transaction, then the delivery after the commit. */
  class Service {
    var mode: Mode
    var outboxConfigured: bool
    var enqueued: seq<(string, Draft)>
    const notices: NoticeTable

    constructor (notices: NoticeTable)
      ensures this.notices == notices && mode == Sync && enqueued == [] && !outboxConfigured
    {
      this.notices := notices;
      mode := Sync;
      outboxConfigured := false;
      enqueued := [];
    }

    method ConfigureMode(m: Mode, configured: bool)
      modifies this`mode, this`outboxConfigured
      ensures mode == m && outboxConfigured == configured
    {
      mode := m;
      outboxConfigured := configured;
    }

    // eventId None: no id could be generated; inserts: whether the row is written. The caller rolls the transaction
    // back when this fails.
    method EnqueueInTx(eventId: Option<string>, d: Option<Draft>, inserts: bool) returns (ok: bool)
      modifies this`enqueued
      ensures ok <==> mode == Sync || !Deliverable(d) || (outboxConfigured && eventId.Some? && inserts)
      ensures enqueued == if ok && mode == Outbox && Deliverable(d) then old(enqueued) + [(eventId.value, d.value)]
                          else old(enqueued)
    {
      if mode != Outbox || d.None? || d.value.userId == d.value.actorId {
        return true;
      }
      if !outboxConfigured || eventId.None? || !inserts {
        return false;
      }
      enqueued := enqueued + [(eventId.value, d.value)];
      return true;
    }

    // stored: whether the best-effort insert reached the database.
    method DeliverAfterCommit(d: Option<Draft>, stored: bool)
      modifies notices
      ensures notices.rows == if mode == Sync && Deliverable(d) && stored
                              then old(notices.rows) + [Notice(None, d.value)]
                              else old(notices.rows)
    {
      if mode == Outbox || d.None? {
        return;
      }
      if d.value.userId != d.value.actorId && stored {
        notices.Create(d.value);
      }
    }

    /** An interaction: its own writes, the enqueue and the commit as one transaction, then the delivery. In outbox
        mode only an outbox row is written, in sync mode only a notification, and neither unless the transaction
        commits. writes, inserts, commits, stored: whether the statements and the commit succeed. */
    method Interact(eventId: Option<string>, d: Option<Draft>, writes: bool, inserts: bool, commits: bool, stored: bool)
      returns (committed: bool)
      modifies this`enqueued, notices
      ensures committed <==> writes && commits
                             && (mode == Sync || !Deliverable(d) || (outboxConfigured && eventId.Some? && inserts))
      ensures enqueued == if committed && mode == Outbox && Deliverable(d)
                          then old(enqueued) + [(eventId.value, d.value)]
                          else old(enqueued)
      ensures notices.rows == if committed && mode == Sync && Deliverable(d) && stored
                              then old(notices.rows) + [Notice(None, d.value)] else old(notices.rows)
      ensures d.Some? && d.value.userId != d.value.actorId && committed && (mode == Sync ==> stored) ==>
                |enqueued| + |notices.rows| == old(|enqueued| + |notices.rows|) + 1
      ensures d.None? || d.value.userId == d.value.actorId ==>
                enqueued == old(enqueued) && notices.rows == old(notices.rows)
    {
      if !writes {
        return false;
      }
      var before := enqueued;
      committed := EnqueueInTx(eventId, d, inserts);
      if !committed || !commits {
        enqueued := before;
        return false;
      }
      DeliverAfterCommit(d, stored);
    }
  }
}

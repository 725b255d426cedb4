/** Exactly-once effect, provenance and dead-lettering, on any run of the pipeline. */
module PipelineOnce {
  import opened Common
  import opened Notification
  import opened Outbox
  import opened RetryPolicy
  import opened Pipeline

  // A committed outbox row with this event id and this draft.
  predicate Committed(rows: map<nat, Row>, event: string, d: Draft) {
    exists id :: id in rows && rows[id].eventId == event && rows[id].draft == d
  }

  // The retry counts a message can have in each place.
  predicate Placed(h: Header, p: Place) {
    var n := RetryCount(h);
    && InRange(h)
    && match p
       case Main => 0 <= n <= MAX_RETRIES
       case Unacked(_) => 0 <= n <= MAX_RETRIES
       case Waiting(q) =>
         1 <= n <= MAX_RETRIES && q == (if n >= 5 then Retry30s else if n >= 3 then Retry5s else Retry1s)
       case Dead => n == MAX_RETRIES + 1
  }

  predicate Sourced(s: State, m: Message, p: Place) {
    Committed(s.rows, m.event, m.draft) && Placed(m.header, p)
  }

  ghost predicate RowsDistinct(rows: map<nat, Row>) {
    && (forall x :: x in rows ==> rows[x].eventId != "")
    && (forall x, y :: x in rows && y in rows && rows[x].eventId == rows[y].eventId ==> x == y)
  }

  ghost predicate MessagesOk(s: State) {
    && (forall c :: c in s.copies ==> Sourced(s, s.copies[c].msg, s.copies[c].place))
    && (forall t :: t in s.transit ==> !t.1.Unacked? && Sourced(s, t.0, t.1))
    && (forall p :: p in s.strays ==> Committed(s.rows, p.0, p.1))
    && (forall w :: w in s.workers && s.workers[w].Claimed? ==> Sourced(s, s.workers[w].msg, Main))
  }

  ghost predicate NoticesOk(s: State) {
    && UniqueEvents(s.notices)
    && (forall i :: 0 <= i < |s.notices| && s.notices[i].eventId.Some? ==>
          Committed(s.rows, s.notices[i].eventId.value, s.notices[i].body))
  }

  ghost predicate Once(s: State) {
    RowsDistinct(s.rows) && MessagesOk(s) && NoticesOk(s)
  }

  ghost predicate RowsGrow(a: map<nat, Row>, b: map<nat, Row>) {
    a.Keys <= b.Keys && forall id :: id in a ==> b[id].eventId == a[id].eventId && b[id].draft == a[id].draft
  }

  // ---- one component changes, the others stay ----

  lemma GrowRows(s: State, t: State)
    requires Once(s) && RowsGrow(s.rows, t.rows) && RowsDistinct(t.rows)
    requires t == s.(rows := t.rows, tokens := t.tokens)
    ensures Once(t)
  {
  }

  lemma UpdateRow(s: State, t: State, id: nat)
    requires Once(s) && id in s.rows && id in t.rows && t == s.(rows := s.rows[id := t.rows[id]], tokens := t.tokens)
    requires t.rows[id].eventId == s.rows[id].eventId && t.rows[id].draft == s.rows[id].draft
    ensures Once(t)
  {
    forall x, y | x in t.rows && y in t.rows && t.rows[x].eventId == t.rows[y].eventId
      ensures x == y
    {
      assert s.rows[x].eventId == s.rows[y].eventId;
    }
    GrowRows(s, t);
  }

  lemma DropWorker(s: State, w: nat)
    requires Once(s)
    ensures Once(s.(workers := s.workers - {w}))
  {
  }

  lemma PutCopy(s: State, t: State, c: nat)
    requires Once(s) && c in t.copies && Sourced(s, t.copies[c].msg, t.copies[c].place)
    requires t == s.(copies := s.copies[c := t.copies[c]], origin := t.origin, next := t.next)
    ensures Once(t)
  {
  }

  lemma DropCopy(s: State, c: nat)
    requires Once(s)
    ensures Once(s.(copies := s.copies - {c})) && Once(s.(copies := s.copies - {c}, lost := s.lost + {c}))
  {
  }

  // ---- the steps ----

  lemma CommitOnce(s: State, id: nat, event: string, d: Draft)
    requires Once(s) && CanCommit(s, id, event, d)
    ensures Once(Commit(s, id, event, d))
  {
    GrowRows(s, Commit(s, id, event, d));
  }

  lemma NotifyOnce(s: State, d: Draft)
    requires Once(s)
    ensures Once(Notify(s, d))
  {
  }

  lemma ClaimOnce(s: State, w: nat, id: nat, now: Time, lease: Time, token: string)
    requires Once(s) && id in s.rows && !At(s, w)
    ensures Once(Claim(s, w, id, now, lease, token))
  {
    var r := s.rows[id];
    var t := s.(rows := s.rows[id := Leased(r, now, lease, token)], tokens := s.tokens + {token});
    UpdateRow(s, t, id);
    assert Committed(t.rows, r.eventId, r.draft) by {
      assert t.rows[id].eventId == r.eventId;
    }
  }

  lemma MarkOnce(s: State, w: nat, now: Time, cause: Option<string>)
    requires Once(s) && At(s, w)
    ensures s.workers[w].Confirmed? ==> Once(MarkPublished(s, w, now))
    ensures s.workers[w].Counted? ==> Once(WriteRetry(s, w, cause))
  {
    var k := s.workers[w];
    DropWorker(s, w);
    var t := s.(workers := s.workers - {w});
    if k.id in s.rows && Holds(s.rows[k.id], k.token) {
      if k.Confirmed? {
        UpdateRow(t, MarkPublished(s, w, now), k.id);
      }
      if k.Counted? {
        UpdateRow(t, WriteRetry(s, w, cause), k.id);
      }
    }
  }

  lemma ReadOnce(s: State, w: nat, now: Time)
    requires Once(s) && At(s, w) && s.workers[w].Refused?
    ensures Once(ReadRetry(s, w, now))
  {
    DropWorker(s, w);
  }

  lemma GiveUpOnce(s: State, w: nat)
    requires Once(s) && At(s, w)
    ensures Once(Crash(s, w))
    ensures s.workers[w].Claimed? || s.workers[w].Sent? ==> Once(PublishError(s, w))
  {
    DropWorker(s, w);
  }

  lemma AcceptOnce(s: State, w: nat)
    requires Once(s) && At(s, w) && s.workers[w].Claimed?
    ensures Once(Accept(s, w))
  {
    var k := s.workers[w];
    var t := AddCopy(s, k.msg, Main);
    PutCopy(s, t, s.next);
  }

  lemma SettleOnce(s: State, d: nat)
    requires Once(s)
    ensures Once(Settle(s, d))
  {
    if d in s.copies {
      PutCopy(s, Settle(s, d), d);
    }
  }

  lemma ConfirmOnce(s: State, w: nat)
    requires Once(s) && At(s, w) && s.workers[w].Sent?
    ensures Once(Confirm(s, w))
  {
    var k := s.workers[w];
    SettleOnce(s, k.copy);
  }

  // A failing delivery goes to the right queue with its count one higher, and to the dead-letter queue after the last.
  lemma NextPlaced(m: Message, p: Place)
    requires Placed(m.header, p) && (p.Main? || p.Unacked?)
    ensures Placed(Next(m).0.header, Next(m).1) && !Next(m).1.Unacked?
    ensures Next(m).0.event == m.event && Next(m).0.draft == m.draft
  {
    FailureStep(m.header);
  }

  lemma MoveOnce(s: State, c: nat, p: Place)
    requires Once(s) && c in s.copies && (p == Main || (p.Unacked? && !s.copies[c].place.Waiting?))
             && s.copies[c].place != Dead
    ensures Once(Move(s, c, p))
  {
    assert Sourced(s, s.copies[c].msg, s.copies[c].place);
    PutCopy(s, Move(s, c, p), c);
  }

  lemma StrayOnce(s: State, c: nat)
    requires Once(s) && c in s.copies
    ensures Once(Stray(s, c))
  {
    var k := s.copies[c];
    assert Sourced(s, k.msg, k.place);
    if k.place == Unacked(Failing) {
      NextPlaced(k.msg, k.place);
    }
  }

  lemma ForwardOnce(s: State, c: nat)
    requires Once(s) && c in s.copies && s.copies[c].place.Unacked? && s.next !in s.copies
    ensures Once(Forward(s, c))
  {
    var k := s.copies[c];
    assert Sourced(s, k.msg, k.place);
    NextPlaced(k.msg, k.place);
    var t := AddCopy(s, Next(k.msg).0, Next(k.msg).1);
    PutCopy(s, t, s.next);
    MoveOnce(t, c, Unacked(Forwarded(s.next)));
  }

  lemma InsertKeeps(s: State, event: string, d: Draft)
    requires Once(s) && Committed(s.rows, event, d)
    ensures Once(Insert(s, event, d))
  {
    var t := Insert(s, event, d);
    if !Stored(s.notices, event) {
      forall i | 0 <= i < |t.notices| && t.notices[i].eventId.Some?
        ensures Committed(t.rows, t.notices[i].eventId.value, t.notices[i].body)
      {
        assert i < |s.notices| ==> t.notices[i] == s.notices[i];
      }
    }
  }

  lemma ProcessOnce(s: State, c: nat)
    requires Once(s) && Lies(s, c, Unacked(Received))
    ensures Once(Handle(s, c))
  {
    var m := s.copies[c].msg;
    assert Sourced(s, m, s.copies[c].place);
    InsertKeeps(s, m.event, m.draft);
    MoveOnce(Insert(s, m.event, m.draft), c, Unacked(Inserted));
  }

  // Copy numbers are never used twice.
  ghost predicate Numbered(s: State) {
    forall c :: c in s.copies ==> c < s.next
  }

  lemma WorkerNumbered(s: State, e: Step)
    requires Numbered(s) && Enabled(s, e) && PublisherStep(e)
    ensures Numbered(Apply(s, e))
  {
  }

  lemma StepNumbered(s: State, e: Step)
    requires Numbered(s) && Enabled(s, e)
    ensures Numbered(Apply(s, e))
  {
    if PublisherStep(e) {
      WorkerNumbered(s, e);
    }
  }

  lemma RequeueOnce(s: State, c: nat)
    requires Once(s) && c in s.copies && s.copies[c].place.Unacked?
    ensures Once(Requeue(s, c))
  {
    StrayOnce(s, c);
    MoveOnce(Stray(s, c), c, Main);
  }

  lemma LoseOnce(s: State, c: nat)
    requires Once(s) && c in s.copies
    ensures Once(Lose(s, c))
  {
    StrayOnce(s, c);
    StraySame(s, c);
    DropCopy(Stray(s, c), c);
  }

  lemma ConfirmRetryOnce(s: State, c: nat, d: nat)
    requires Once(s) && c in s.copies && s.copies[c].place.Unacked?
    ensures Once(ConfirmRetry(s, c, d))
  {
    SettleOnce(s, d);
    MoveOnce(Settle(s, d), c, Unacked(Scheduled));
  }

  predicate PublisherStep(e: Step) {
    || e.SClaim? || e.SMarkPublished? || e.SWriteRetry? || e.SReadRetry?
    || e.SAccept? || e.SConfirm? || e.SPublishError? || e.SCrash?
  }

  predicate ConsumerStep(e: Step) {
    e.SDeliver? || e.SRequeue? || e.SLose? || e.SFail? || e.SProcess? || e.SForward? || e.SConfirmRetry?
  }

  lemma PublisherStepOnce(s: State, e: Step)
    requires Once(s) && Enabled(s, e) && PublisherStep(e)
    ensures Once(Apply(s, e))
  {
    match e {
      case SClaim(w, id, now, lease, token) => ClaimOnce(s, w, id, now, lease, token);
      case SMarkPublished(w, now) => MarkOnce(s, w, now, None);
      case SWriteRetry(w, cause) => MarkOnce(s, w, 0, cause);
      case SReadRetry(w, now) => ReadOnce(s, w, now);
      case SAccept(w) => AcceptOnce(s, w);
      case SConfirm(w) => ConfirmOnce(s, w);
      case SPublishError(w) => GiveUpOnce(s, w);
      case SCrash(w) => GiveUpOnce(s, w);
    }
  }

  predicate DeliveryStep(e: Step) {
    e.SDeliver? || e.SRequeue? || e.SLose? || e.SFail?
  }

  lemma TakenBackOnce(s: State, e: Step)
    requires Once(s) && Enabled(s, e) && (e.SRequeue? || e.SLose?)
    ensures Once(Apply(s, e))
  {
    if e.SRequeue? {
      RequeueOnce(s, e.c);
    } else {
      LoseOnce(s, e.c);
    }
  }

  lemma DeliveryStepOnce(s: State, e: Step)
    requires Once(s) && Enabled(s, e) && DeliveryStep(e)
    ensures Once(Apply(s, e))
  {
    if e.SDeliver? {
      MoveOnce(s, e.c, Unacked(Received));
    } else if e.SFail? {
      MoveOnce(s, e.c, Unacked(Failing));
    } else {
      TakenBackOnce(s, e);
    }
  }

  lemma ConsumerStepOnce(s: State, e: Step)
    requires Once(s) && Numbered(s) && Enabled(s, e) && ConsumerStep(e)
    ensures Once(Apply(s, e))
  {
    if DeliveryStep(e) {
      DeliveryStepOnce(s, e);
    } else {
      ForwardStepOnce(s, e);
    }
  }

  lemma ForwardStepOnce(s: State, e: Step)
    requires Once(s) && Numbered(s) && Enabled(s, e) && (e.SProcess? || e.SForward? || e.SConfirmRetry?)
    ensures Once(Apply(s, e))
  {
    match e {
      case SProcess(c) => ProcessOnce(s, c);
      case SForward(c) => ForwardOnce(s, c);
      case SConfirmRetry(c) => ConfirmRetryOnce(s, c, s.copies[c].place.phase.copy);
    }
  }

  lemma OtherStepOnce(s: State, e: Step)
    requires Once(s) && Enabled(s, e) && !PublisherStep(e) && !ConsumerStep(e)
    ensures Once(Apply(s, e))
  {
    match e {
      case SConfigure(_) =>
      case SCommit(id, event, d) => CommitOnce(s, id, event, d);
      case SNotify(d) => NotifyOnce(s, d);
      case SReopen(id) => UpdateRow(s, Reopen(s, id), id);
      case SLateAccept(t) => PutCopy(s, LateAccept(s, t), s.next);
      case SStrayInsert(p) => InsertKeeps(s, p.0, p.1);
      case SExpire(c) => MoveOnce(s, c, Main);
      case SPurge(c) => DropCopy(s, c);
      case SAck(c) => DropCopy(s, c);
    }
  }

  lemma StepOnce(s: State, e: Step)
    requires Once(s) && Numbered(s) && Enabled(s, e)
    ensures Once(Apply(s, e))
  {
    if PublisherStep(e) {
      PublisherStepOnce(s, e);
    } else if ConsumerStep(e) {
      ConsumerStepOnce(s, e);
    } else {
      OtherStepOnce(s, e);
    }
  }

  lemma {:induction false} RunOnce(s: State, es: seq<Step>)
    requires Once(s) && Numbered(s) && Run(s, es)
    ensures Once(Final(s, es)) && Numbered(Final(s, es))
    decreases |es|
  {
    if es != [] {
      StepOnce(s, es[0]);
      StepNumbered(s, es[0]);
      RunOnce(Apply(s, es[0]), es[1..]);
    }
  }

  /** On every run each event id has at most one notification, and it carries exactly the draft committed with the
      business transaction, however often the message was published or retried. */
  lemma StoredAtMostOnce(mode: Mode, es: seq<Step>, i: nat)
    requires Run(Init(mode), es) && i < |Final(Init(mode), es).notices|
    ensures var s := Final(Init(mode), es); var n := s.notices[i];
            n.eventId.Some? ==>
              && (forall j :: 0 <= j < |s.notices| && s.notices[j].eventId == n.eventId ==> j == i)
              && (exists id :: id in s.rows && s.rows[id].eventId == n.eventId.value && s.rows[id].draft == n.body)
              && (forall id :: id in s.rows && s.rows[id].eventId == n.eventId.value ==> s.rows[id].draft == n.body)
  {
    RunOnce(Init(mode), es);
    var s := Final(Init(mode), es);
    assert UniqueEvents(s.notices);
  }

  /** On every run a message is in the dead-letter queue exactly when it carries nine failures, and in the retry queue
      its count calls for otherwise. */
  lemma DeadAfterNine(mode: Mode, es: seq<Step>, c: nat)
    requires Run(Init(mode), es) && c in Final(Init(mode), es).copies
    ensures var k := Final(Init(mode), es).copies[c]; var n := RetryCount(k.msg.header);
            && (k.place == Dead <==> n == 9)
            && (k.place.Waiting? ==> Ttl(k.place.queue) == (if n <= 2 then 1 else if n <= 4 then 5 else 30) * SECOND)
            && 0 <= n <= 9
  {
    RunOnce(Init(mode), es);
    var s := Final(Init(mode), es);
    assert Sourced(s, s.copies[c].msg, s.copies[c].place);
  }
}

/** What messages and notifications carry, on any run of the pipeline. */
module PipelineContents {
  import opened Common
  import opened Notification
  import opened Outbox
  import opened RetryPolicy
  import opened Pipeline
  import opened PipelineOnce

  // ---- notifications ----

  predicate NoticeFit(n: Notice) {
    if n.eventId.None? then n.body.userId != n.body.actorId
    else n.eventId.value != "" && n.body.userId != 0 && n.body.kind != "" && n.body.title != ""
  }

  ghost predicate Fit(s: State) {
    && (forall id :: id in s.rows ==> s.rows[id].draft.userId != s.rows[id].draft.actorId)
    && (forall i :: 0 <= i < |s.notices| ==> NoticeFit(s.notices[i]))
  }

  lemma StepNotices(s: State, e: Step)
    requires Enabled(s, e) && forall i :: 0 <= i < |s.notices| ==> NoticeFit(s.notices[i])
    ensures forall i :: 0 <= i < |Apply(s, e).notices| ==> NoticeFit(Apply(s, e).notices[i])
  {
    var t := Apply(s, e);
    if t.notices != s.notices {
      var n := t.notices[|s.notices|];
      assert t.notices == s.notices + [n];
      assert NoticeFit(n);
    }
  }

  lemma StepRows(s: State, e: Step)
    requires Enabled(s, e) && forall id :: id in s.rows ==> s.rows[id].draft.userId != s.rows[id].draft.actorId
    ensures forall id :: id in Apply(s, e).rows ==>
              Apply(s, e).rows[id].draft.userId != Apply(s, e).rows[id].draft.actorId
  {
    if !WritesRow(e) {
      OthersKeepRows(s, e);
    } else {
      WriterRows(s, e);
    }
  }

  // Only a commit brings a new draft.
  lemma WriterRows(s: State, e: Step)
    requires Enabled(s, e) && WritesRow(e)
    ensures forall id :: id in Apply(s, e).rows ==>
              (e.SCommit? && id == e.id && Apply(s, e).rows[id].draft == e.draft)
              || (id in s.rows && Apply(s, e).rows[id].draft == s.rows[id].draft)
  {
  }

  lemma {:induction false} RunFit(s: State, es: seq<Step>)
    requires Fit(s) && Run(s, es)
    ensures Fit(Final(s, es))
    decreases |es|
  {
    if es != [] {
      StepNotices(s, es[0]);
      StepRows(s, es[0]);
      RunFit(Apply(s, es[0]), es[1..]);
    }
  }

  /** On every run nobody is notified of what they did themselves, and every notification of an event names a user, a
      type and a title. */
  lemma NobodyNotifiedOfOwnAction(mode: Mode, es: seq<Step>, i: nat)
    requires Run(Init(mode), es) && i < |Final(Init(mode), es).notices|
    ensures var n := Final(Init(mode), es).notices[i];
            && n.body.userId != n.body.actorId
            && (n.eventId.Some? ==> n.body.userId != 0 && n.body.kind != "" && n.body.title != "")
  {
    RunFit(Init(mode), es);
    StoredAtMostOnce(mode, es, i);
    var n := Final(Init(mode), es).notices[i];
    assert NoticeFit(n);
  }

  // ---- retry counts ----

  predicate CountWithin(h: Header, n: nat) {
    h.Absent? || (h.Int32? && 1 <= h.i <= n)
  }

  // One failure less: it has just failed, and does not count that yet.
  predicate Fewer(h: Header, n: nat) {
    n > 0 && CountWithin(h, n - 1)
  }

  predicate CopyWithin(k: Copy, event: string, n: nat) {
    k.msg.event == event ==>
      if k.place == Unacked(Failing) then Fewer(k.msg.header, n) else CountWithin(k.msg.header, n)
  }

  predicate MessageWithin(t: (Message, Place), event: string, n: nat) {
    !t.1.Unacked? && (t.0.event == event ==> CountWithin(t.0.header, n))
  }

  // No message of the event counts more than n failures, and none on its way to the broker counts any.
  ghost predicate Within(s: State, event: string, n: nat) {
    && (forall c :: c in s.copies ==> CopyWithin(s.copies[c], event, n))
    && (forall t :: t in s.transit ==> MessageWithin(t, event, n))
    && (forall w :: w in s.workers && s.workers[w].Claimed? ==> s.workers[w].msg.header.Absent?)
  }

  predicate FailsEvent(s: State, e: Step, event: string) {
    e.SFail? && e.c in s.copies && s.copies[e.c].msg.event == event
  }

  // How often a delivery of the event failed in the run.
  function Failures(s: State, es: seq<Step>, event: string): nat
    requires Run(s, es)
    decreases |es|
  {
    if es == [] then 0
    else (if FailsEvent(s, es[0], event) then 1 else 0) + Failures(Apply(s, es[0]), es[1..], event)
  }

  lemma NextWithin(m: Message, p: Place, n: nat)
    requires Placed(m.header, p) && (p.Main? || p.Unacked?) && Fewer(m.header, n)
    ensures CountWithin(Next(m).0.header, n) && Next(m).0.event == m.event
  {
    FailureStep(m.header);
  }

  lemma PutWithin(s: State, t: State, c: nat, event: string, n: nat)
    requires Within(s, event, n) && c in t.copies && CopyWithin(t.copies[c], event, n)
    requires t == s.(copies := s.copies[c := t.copies[c]], origin := t.origin, next := t.next)
    ensures Within(t, event, n)
  {
  }

  lemma DropWithin(s: State, c: nat, event: string, n: nat)
    requires Within(s, event, n)
    ensures Within(s.(copies := s.copies - {c}), event, n)
    ensures Within(s.(copies := s.copies - {c}, lost := s.lost + {c}), event, n)
  {
  }

  lemma StrayWithin(s: State, c: nat, event: string, n: nat)
    requires Once(s) && Within(s, event, n) && c in s.copies
    ensures Within(Stray(s, c), event, n)
  {
    var k := s.copies[c];
    if k.place == Unacked(Failing) {
      assert Sourced(s, k.msg, k.place) && CopyWithin(k, event, n);
      NextPlaced(k.msg, k.place);
      if k.msg.event == event {
        NextWithin(k.msg, k.place, n);
      }
    }
  }

  lemma TakenBackWithin(s: State, e: Step, event: string, n: nat)
    requires Once(s) && Within(s, event, n) && Enabled(s, e) && (e.SRequeue? || e.SLose?)
    ensures Within(Apply(s, e), event, n)
  {
    var t := Stray(s, e.c);
    StrayWithin(s, e.c, event, n);
    StraySame(s, e.c);
    if e.SLose? {
      DropWithin(t, e.c, event, n);
    } else {
      assert CopyWithin(s.copies[e.c], event, n);
      PutWithin(t, Move(t, e.c, Main), e.c, event, n);
    }
  }

  lemma ForwardWithin(s: State, c: nat, event: string, n: nat)
    requires Once(s) && Numbered(s) && Within(s, event, n) && Enabled(s, SForward(c))
    ensures Within(Forward(s, c), event, n)
  {
    var k := s.copies[c];
    assert Sourced(s, k.msg, k.place) && CopyWithin(k, event, n);
    NextPlaced(k.msg, k.place);
    if k.msg.event == event {
      NextWithin(k.msg, k.place, n);
    }
    var t := AddCopy(s, Next(k.msg).0, Next(k.msg).1);
    PutWithin(s, t, s.next, event, n);
    PutWithin(t, Move(t, c, Unacked(Forwarded(s.next))), c, event, n);
  }

  lemma MoreFailures(s: State, event: string, n: nat)
    requires Within(s, event, n)
    ensures Within(s, event, n + 1)
  {
    forall c | c in s.copies
      ensures CopyWithin(s.copies[c], event, n + 1)
    {
      assert CopyWithin(s.copies[c], event, n);
    }
    forall t | t in s.transit
      ensures MessageWithin(t, event, n + 1)
    {
      assert MessageWithin(t, event, n);
    }
  }

  lemma FailWithin(s: State, c: nat, event: string, n: nat)
    requires Within(s, event, n) && Enabled(s, SFail(c))
    ensures Within(Move(s, c, Unacked(Failing)), event, n + if s.copies[c].msg.event == event then 1 else 0)
  {
    assert CopyWithin(s.copies[c], event, n);
    if s.copies[c].msg.event == event {
      MoreFailures(s, event, n);
      PutWithin(s, Move(s, c, Unacked(Failing)), c, event, n + 1);
    } else {
      PutWithin(s, Move(s, c, Unacked(Failing)), c, event, n);
    }
  }

  lemma SettleWithin(s: State, d: nat, event: string, n: nat)
    requires Within(s, event, n)
    ensures Within(Settle(s, d), event, n)
  {
    if d in s.copies {
      assert CopyWithin(s.copies[d], event, n);
      PutWithin(s, Settle(s, d), d, event, n);
    }
  }

  lemma WorkerWithin(s: State, t: State, event: string, n: nat)
    requires Within(s, event, n) && t == s.(workers := t.workers, rows := t.rows, tokens := t.tokens)
    requires forall w :: w in t.workers && t.workers[w].Claimed? ==> t.workers[w].msg.header.Absent?
    ensures Within(t, event, n)
  {
  }

  lemma AcceptWithin(s: State, w: nat, event: string, n: nat)
    requires Within(s, event, n) && At(s, w) && s.workers[w].Claimed?
    ensures Within(Accept(s, w), event, n)
  {
    var m := AddCopy(s, s.workers[w].msg, Main);
    PutWithin(s, m, s.next, event, n);
    WorkerWithin(m, Accept(s, w), event, n);
  }

  lemma ConfirmWithin(s: State, w: nat, event: string, n: nat)
    requires Within(s, event, n) && At(s, w) && s.workers[w].Sent?
    ensures Within(Confirm(s, w), event, n)
  {
    var t := Settle(s, s.workers[w].copy);
    SettleWithin(s, s.workers[w].copy, event, n);
    WorkerWithin(t, Confirm(s, w), event, n);
  }

  lemma TableWithin(s: State, e: Step, event: string, n: nat)
    requires Within(s, event, n) && Enabled(s, e)
    requires e.SClaim? || e.SMarkPublished? || e.SReadRetry? || e.SWriteRetry?
    ensures Within(Apply(s, e), event, n)
  {
    WorkerWithin(s, Apply(s, e), event, n);
  }

  lemma PublisherWithin(s: State, e: Step, event: string, n: nat)
    requires Within(s, event, n) && Enabled(s, e) && PublisherStep(e)
    ensures Within(Apply(s, e), event, n)
  {
    if e.SAccept? {
      AcceptWithin(s, e.w, event, n);
    } else if e.SConfirm? {
      ConfirmWithin(s, e.w, event, n);
    } else if !e.SPublishError? && !e.SCrash? {
      TableWithin(s, e, event, n);
    }
  }

  lemma MoveWithin(s: State, c: nat, p: Place, event: string, n: nat)
    requires Within(s, event, n) && c in s.copies && p != Unacked(Failing)
    ensures Within(Move(s, c, p), event, n)
  {
    assert CopyWithin(s.copies[c], event, n);
    PutWithin(s, Move(s, c, p), c, event, n);
  }

  lemma InsertWithin(s: State, t: State, event: string, n: nat)
    requires Within(s, event, n) && t == s.(notices := t.notices, rows := t.rows, mode := t.mode)
    ensures Within(t, event, n)
  {
  }

  lemma OtherWithin(s: State, e: Step, event: string, n: nat)
    requires Within(s, event, n) && Enabled(s, e)
    requires !PublisherStep(e) && !e.SFail? && !e.SForward? && !e.SRequeue? && !e.SLose?
    ensures Within(Apply(s, e), event, n)
  {
    match e {
      case SPurge(c) => DropWithin(s, c, event, n);
      case SAck(c) => DropWithin(s, c, event, n);
      case SDeliver(c) => MoveWithin(s, c, Unacked(Received), event, n);
      case SExpire(c) => MoveWithin(s, c, Main, event, n);
      case SLateAccept(t) =>
        assert MessageWithin(t, event, n);
        PutWithin(s, LateAccept(s, t), s.next, event, n);
      case SProcess(c) =>
        var m := s.copies[c].msg;
        InsertWithin(s, Insert(s, m.event, m.draft), event, n);
        MoveWithin(Insert(s, m.event, m.draft), c, Unacked(Inserted), event, n);
      case SConfirmRetry(c) =>
        var d := s.copies[c].place.phase.copy;
        SettleWithin(s, d, event, n);
        MoveWithin(Settle(s, d), c, Unacked(Scheduled), event, n);
      case SConfigure(_) => InsertWithin(s, Apply(s, e), event, n);
      case SCommit(_, _, _) => InsertWithin(s, Apply(s, e), event, n);
      case SNotify(_) => InsertWithin(s, Apply(s, e), event, n);
      case SReopen(_) => InsertWithin(s, Apply(s, e), event, n);
      case SStrayInsert(_) => InsertWithin(s, Apply(s, e), event, n);
    }
  }

  lemma DeliveryWithin(s: State, e: Step, event: string, n: nat)
    requires Once(s) && Numbered(s) && Within(s, event, n) && Enabled(s, e)
    requires e.SFail? || e.SForward? || e.SRequeue? || e.SLose?
    ensures Within(Apply(s, e), event, n + if FailsEvent(s, e, event) then 1 else 0)
  {
    if e.SFail? {
      FailWithin(s, e.c, event, n);
    } else if e.SForward? {
      ForwardWithin(s, e.c, event, n);
    } else {
      TakenBackWithin(s, e, event, n);
    }
  }

  lemma StepWithin(s: State, e: Step, event: string, n: nat)
    requires Once(s) && Numbered(s) && Within(s, event, n) && Enabled(s, e)
    ensures Within(Apply(s, e), event, n + if FailsEvent(s, e, event) then 1 else 0)
  {
    if PublisherStep(e) {
      PublisherWithin(s, e, event, n);
    } else if e.SFail? || e.SForward? || e.SRequeue? || e.SLose? {
      DeliveryWithin(s, e, event, n);
    } else {
      OtherWithin(s, e, event, n);
    }
  }

  ghost predicate Tracked(s: State, event: string, n: nat) {
    Once(s) && Numbered(s) && Within(s, event, n)
  }

  lemma StepTracked(s: State, e: Step, event: string, n: nat)
    requires Tracked(s, event, n) && Enabled(s, e)
    ensures Tracked(Apply(s, e), event, n + if FailsEvent(s, e, event) then 1 else 0)
  {
    StepWithin(s, e, event, n);
    StepOnce(s, e);
    StepNumbered(s, e);
  }

  lemma FailuresStep(s: State, es: seq<Step>, event: string)
    requires es != [] && Run(s, es)
    ensures Failures(s, es, event)
            == (if FailsEvent(s, es[0], event) then 1 else 0) + Failures(Apply(s, es[0]), es[1..], event)
  {
  }

  lemma {:induction false} RunTracked(s: State, es: seq<Step>, event: string, n: nat, m: nat)
    requires Tracked(s, event, n) && Run(s, es) && m == n + Failures(s, es, event)
    ensures Tracked(Final(s, es), event, m)
    decreases |es|
  {
    if es != [] {
      StepTracked(s, es[0], event, n);
      FailuresStep(s, es, event);
      RunTracked(Apply(s, es[0]), es[1..], event, n + if FailsEvent(s, es[0], event) then 1 else 0, m);
    }
  }

  /** On every run a message counts at most as many failures as its event has had: none waits for a retry before a
      failure, and none is dead-lettered before the ninth. */
  lemma NoRetryWithoutFailure(mode: Mode, es: seq<Step>, c: nat)
    requires Run(Init(mode), es) && c in Final(Init(mode), es).copies
    ensures var k := Final(Init(mode), es).copies[c]; var n := Failures(Init(mode), es, k.msg.event);
            && (k.msg.header == Absent || exists i: nat :: 1 <= i <= n && k.msg.header == Int32(i))
            && (k.place.Waiting? ==> n >= 1)
            && (k.place == Dead ==> n >= 9)
  {
    var s := Final(Init(mode), es);
    var k := s.copies[c];
    RunTracked(Init(mode), es, k.msg.event, 0, Failures(Init(mode), es, k.msg.event));
    assert Sourced(s, k.msg, k.place);
    assert CopyWithin(k, k.msg.event, Failures(Init(mode), es, k.msg.event));
  }

  // ---- what cannot be taken back ----

  lemma WrittenStays(s: State, e: Step)
    requires Enabled(s, e) && (e.SPublishError? || e.SCrash?) && s.workers[e.w].Claimed?
    ensures (s.workers[e.w].msg, Main) in Apply(s, e).transit
  {
  }

  lemma StartedStays(s: State, e: Step)
    requires Enabled(s, e) && (e.SRequeue? || e.SLose?)
    ensures var m, t := s.copies[e.c].msg, Apply(s, e);
            && (s.copies[e.c].place == Unacked(Received) ==> (m.event, m.draft) in t.strays)
            && (s.copies[e.c].place == Unacked(Failing) ==> Next(m) in t.transit)
  {
    StraySame(s, e.c);
  }

  // A delivery that is taken back is in its queue again; a copy that is lost or purged is gone.
  lemma TakenBack(s: State, e: Step)
    requires Enabled(s, e)
    ensures e.SRequeue? ==> Apply(s, e).copies == s.copies[e.c := s.copies[e.c].(place := Main)]
    ensures e.SLose? || e.SPurge? ==> Apply(s, e).copies == s.copies - {e.c}
  {
    if e.SRequeue? || e.SLose? {
      StraySame(s, e.c);
    }
  }

  /** What was written to a connection, or started by a consumer, can still take effect after whoever did it gave up,
      crashed or lost the delivery: the broker may take the message, the insert may go through. */
  lemma NothingIsRecalled(s: State, e: Step)
    requires Enabled(s, e)
    ensures (e.SPublishError? || e.SCrash?) && s.workers[e.w].Claimed? ==>
              var t, m := Apply(s, e), s.workers[e.w].msg;
              && Enabled(t, SLateAccept((m, Main)))
              && Apply(t, SLateAccept((m, Main))).copies == t.copies[t.next := Copy(m, Main, false)]
    ensures (e.SRequeue? || e.SLose?) && s.copies[e.c].place == Unacked(Received) ==>
              var t, m := Apply(s, e), s.copies[e.c].msg;
              m.event != "" && m.draft.userId != 0 && m.draft.kind != "" && m.draft.title != "" ==>
                Enabled(t, SStrayInsert((m.event, m.draft)))
    ensures (e.SRequeue? || e.SLose?) && s.copies[e.c].place == Unacked(Failing) ==>
              var t, m := Apply(s, e), Next(s.copies[e.c].msg);
              && Enabled(t, SLateAccept(m))
              && Apply(t, SLateAccept(m)).copies == t.copies[t.next := Copy(m.0, m.1, false)]
  {
    if (e.SPublishError? || e.SCrash?) && s.workers[e.w].Claimed? {
      WrittenStays(s, e);
    }
    if e.SRequeue? || e.SLose? {
      StartedStays(s, e);
    }
  }
}

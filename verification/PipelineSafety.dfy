/** No committed event is lost, on any run of the pipeline. */
module PipelineSafety {
  import opened Common
  import opened Notification
  import opened Pipeline

  // A confirmed copy that still has to be dealt with: not one whose successor is already confirmed.
  predicate Bears(s: State, c: nat, event: string, from: nat) {
    && c in s.copies && c >= from && s.copies[c].msg.event == event && s.copies[c].durable
    && s.copies[c].place != Unacked(Scheduled)
  }

  // The event is stored, or a live confirmed copy numbered from or later carries it.
  ghost predicate Accounted(s: State, event: string, from: nat) {
    Stored(s.notices, event) || exists c :: Bears(s, c, event, from)
  }

  ghost predicate Stable(s: State, t: State) {
    forall event, from :: Accounted(s, event, from) ==> Accounted(t, event, from)
  }

  // One copy, whether or not it is still there.
  ghost predicate CopyOk(s: State, c: nat)
    requires c in s.origin
  {
    && (c in s.copies ==>
          var k := s.copies[c];
          && c !in s.lost && k.msg.event == s.origin[c]
          && (k.place == Unacked(Inserted) ==> Stored(s.notices, s.origin[c]))
          && (k.place == Unacked(Scheduled) ==> Accounted(s, s.origin[c], c + 1))
          && (k.place.Unacked? && k.place.phase.Forwarded? ==>
                var d := k.place.phase.copy; d > c && d in s.origin && s.origin[d] == s.origin[c]))
    && (c !in s.copies && c !in s.lost ==> Accounted(s, s.origin[c], c + 1))
  }

  ghost predicate CopiesOk(s: State) {
    && s.copies.Keys <= s.origin.Keys
    && (forall c :: c in s.origin ==> c < s.next)
    && s.lost <= s.origin.Keys
    && (forall c :: c in s.origin ==> CopyOk(s, c))
  }

  ghost predicate WorkerOk(s: State, w: nat)
    requires w in s.workers
  {
    var k := s.workers[w];
    && k.id in s.rows
    && (k.Claimed? ==> s.rows[k.id].eventId == k.msg.event)
    && (k.Sent? ==> s.rows[k.id].eventId == k.event && k.copy in s.origin && s.origin[k.copy] == k.event)
    && (k.Confirmed? ==> s.rows[k.id].eventId == k.event && Accounted(s, k.event, 0))
  }

  ghost predicate RowOk(s: State, id: nat)
    requires id in s.rows
  {
    s.rows[id].status.Published? ==> Accounted(s, s.rows[id].eventId, 0)
  }

  ghost predicate Safe(s: State) {
    && CopiesOk(s)
    && (forall w :: w in s.workers ==> WorkerOk(s, w))
    && (forall id :: id in s.rows ==> RowOk(s, id))
  }

  // ---- what keeps events accounted for ----

  // The state as far as copies are concerned has only grown.
  lemma SameCopies(s: State, t: State)
    requires CopiesOk(s) && s.notices <= t.notices
    requires t.copies == s.copies && t.origin == s.origin && t.next == s.next && t.lost == s.lost
    ensures Stable(s, t) && CopiesOk(t)
  {
    forall c, event, from | Bears(s, c, event, from)
      ensures Accounted(t, event, from)
    {
      assert Bears(t, c, event, from);
    }
    forall c | c in t.origin
      ensures CopyOk(t, c)
    {
      assert CopyOk(s, c);
    }
  }

  // A copy changes its place only.
  lemma MoveStable(s: State, c: nat, p: Place, t: State)
    requires CopiesOk(s) && c in s.copies && s.notices <= t.notices
    requires t.copies == Move(s, c, p).copies && t.origin == s.origin && t.next == s.next && t.lost == s.lost
    requires p == Unacked(Scheduled) ==> s.copies[c].place == p
    requires p == Unacked(Inserted) ==> Stored(t.notices, s.origin[c])
    requires p.Unacked? && p.phase.Forwarded? ==>
               p.phase.copy > c && p.phase.copy in s.origin && s.origin[p.phase.copy] == s.origin[c]
    ensures Stable(s, t) && CopiesOk(t)
  {
    forall x, event, from | Bears(s, x, event, from)
      ensures Accounted(t, event, from)
    {
      assert Bears(t, x, event, from);
    }
    forall x | x in t.origin
      ensures CopyOk(t, x)
    {
      assert CopyOk(s, x);
    }
  }

  // A copy that is stored, or whose confirmed successor accounts for the event, may go.
  lemma RemoveStable(s: State, c: nat, t: State)
    requires CopiesOk(s) && c in s.copies
    requires t.copies == s.copies - {c} && t.origin == s.origin && t.next == s.next && t.lost == s.lost
             && t.notices == s.notices
    requires Accounted(s, s.origin[c], c + 1)
    ensures Stable(s, t) && CopiesOk(t)
  {
    forall x, event, from | Bears(s, x, event, from)
      ensures Accounted(t, event, from)
    {
      if x == c {
        assert CopyOk(s, c);
        if !Stored(s.notices, event) {
          var y :| Bears(s, y, event, c + 1);
          assert Bears(t, y, event, from);
        }
      } else {
        assert Bears(t, x, event, from);
      }
    }
    forall x | x in t.origin
      ensures CopyOk(t, x)
    {
      assert CopyOk(s, x);
    }
  }

  lemma LoseStable(s: State, c: nat, t: State)
    requires CopiesOk(s) && c in s.copies && !s.copies[c].durable
    requires t.copies == s.copies - {c} && t.lost == s.lost + {c} && t.origin == s.origin && t.next == s.next
             && t.notices == s.notices
    ensures Stable(s, t) && CopiesOk(t)
  {
    forall x, event, from | Bears(s, x, event, from)
      ensures Accounted(t, event, from)
    {
      assert Bears(t, x, event, from);
    }
    forall x | x in t.origin
      ensures CopyOk(t, x)
    {
      assert CopyOk(s, x);
    }
  }

  lemma AddStable(s: State, m: Message, p: Place, t: State)
    requires CopiesOk(s) && !p.Unacked?
    requires t.copies == AddCopy(s, m, p).copies && t.origin == AddCopy(s, m, p).origin && t.next == s.next + 1
    requires t.lost == s.lost && t.notices == s.notices
    ensures Stable(s, t) && CopiesOk(t)
  {
    assert s.next !in s.origin;
    forall x, event, from | Bears(s, x, event, from)
      ensures Accounted(t, event, from)
    {
      assert Bears(t, x, event, from);
    }
    forall x | x in t.origin
      ensures CopyOk(t, x)
    {
      if x in s.origin {
        assert CopyOk(s, x);
      }
    }
  }

  // A confirm: the copy is confirmed, or was already dealt with.
  lemma SettleStable(s: State, d: nat, t: State)
    requires CopiesOk(s)
    requires t.copies == Settle(s, d).copies && t.origin == s.origin && t.next == s.next && t.lost == s.lost
             && t.notices == s.notices
    ensures Stable(s, t) && CopiesOk(t)
    ensures d in s.origin && d !in s.lost ==> Accounted(t, s.origin[d], d)
  {
    forall x, event, from | Bears(s, x, event, from)
      ensures Accounted(t, event, from)
    {
      assert Bears(t, x, event, from);
    }
    forall x | x in t.origin
      ensures CopyOk(t, x)
    {
      assert CopyOk(s, x);
    }
    if d in s.origin && d !in s.lost {
      assert CopyOk(t, d);
      Later(t, s.origin[d], d);
      assert d in t.copies && t.copies[d].place != Unacked(Scheduled) ==> Bears(t, d, s.origin[d], d);
    }
  }

  lemma Later(s: State, event: string, c: nat)
    ensures Accounted(s, event, c + 1) ==> Accounted(s, event, c) && Accounted(s, event, 0)
    ensures Accounted(s, event, c) ==> Accounted(s, event, 0)
  {
    if Accounted(s, event, c + 1) && !Stored(s.notices, event) {
      var x :| Bears(s, x, event, c + 1);
      assert Bears(s, x, event, c) && Bears(s, x, event, 0);
    }
    if Accounted(s, event, c) && !Stored(s.notices, event) {
      var x :| Bears(s, x, event, c);
      assert Bears(s, x, event, 0);
    }
  }

  // The original is given up only now that the scheduled copy is confirmed. The copy has a larger number, so what
  // accounts for the event from there on is never the original itself.
  lemma ScheduleStable(s: State, c: nat, d: nat, t: State)
    requires CopiesOk(s) && c in s.copies && d in s.origin && d > c && s.origin[d] == s.origin[c]
    requires Accounted(s, s.origin[d], d)
    requires t.copies == Move(s, c, Unacked(Scheduled)).copies && t.origin == s.origin && t.next == s.next
    requires t.lost == s.lost && t.notices == s.notices
    ensures Stable(s, t) && CopiesOk(t)
  {
    assert CopyOk(s, c);
    assert Accounted(t, s.origin[c], c + 1) by {
      if !Stored(s.notices, s.origin[c]) {
        var y :| Bears(s, y, s.origin[d], d);
        assert Bears(t, y, s.origin[c], c + 1);
      }
    }
    forall x, event, from | Bears(s, x, event, from)
      ensures Accounted(t, event, from)
    {
      if x == c {
        if !Stored(t.notices, event) {
          var y :| Bears(t, y, event, c + 1);
          assert Bears(t, y, event, from);
        }
      } else {
        assert Bears(t, x, event, from);
      }
    }
    forall x | x in t.origin
      ensures CopyOk(t, x)
    {
      assert CopyOk(s, x);
    }
  }

  // ---- every step keeps the invariant ----

  ghost predicate Extends(s: State, t: State) {
    && s.rows.Keys <= t.rows.Keys && s.origin.Keys <= t.origin.Keys
    && (forall id :: id in s.rows ==> t.rows[id].eventId == s.rows[id].eventId)
    && (forall c :: c in s.origin ==> t.origin[c] == s.origin[c])
  }

  // Workers and rows a step leaves alone, and rows it does not mark published, stay as they should be.
  lemma OthersKept(s: State, t: State)
    requires Safe(s) && Stable(s, t) && Extends(s, t)
    ensures forall w :: w in s.workers && w in t.workers && t.workers[w] == s.workers[w] ==> WorkerOk(t, w)
    ensures forall id :: id in s.rows && (t.rows[id].status.Published? ==> s.rows[id].status.Published?) ==>
              RowOk(t, id)
  {
    forall w | w in s.workers && w in t.workers && t.workers[w] == s.workers[w]
      ensures WorkerOk(t, w)
    {
      assert WorkerOk(s, w);
    }
    forall id | id in s.rows && (t.rows[id].status.Published? ==> s.rows[id].status.Published?)
      ensures RowOk(t, id)
    {
      assert RowOk(s, id);
    }
  }

  // Stages that promise nothing about the broker.
  predicate Plain(s: State, k: Stage) {
    !k.Sent? && !k.Confirmed? && k.id in s.rows && (k.Claimed? ==> s.rows[k.id].eventId == k.msg.event)
  }

  // Steps on rows and workers that neither mark a row published nor hear from the broker.
  lemma RowsOnly(s: State, t: State)
    requires Safe(s) && s.notices <= t.notices && Extends(s, t)
    requires t.copies == s.copies && t.origin == s.origin && t.next == s.next && t.lost == s.lost
    requires forall w :: w in t.workers ==> (w in s.workers && t.workers[w] == s.workers[w]) || Plain(t, t.workers[w])
    requires forall id :: id in t.rows && t.rows[id].status.Published? ==> id in s.rows && s.rows[id].status.Published?
    ensures Safe(t)
  {
    SameCopies(s, t);
    OthersKept(s, t);
  }

  lemma GiveUpSafe(s: State, w: nat)
    requires Safe(s) && At(s, w)
    ensures Safe(Crash(s, w))
    ensures s.workers[w].Claimed? || s.workers[w].Sent? ==> Safe(PublishError(s, w))
  {
    assert WorkerOk(s, w);
    RowsOnly(s, Crash(s, w));
    if s.workers[w].Claimed? || s.workers[w].Sent? {
      RowsOnly(s, PublishError(s, w));
    }
  }

  lemma ReadRetrySafe(s: State, w: nat, now: Time)
    requires Safe(s) && At(s, w) && s.workers[w].Refused?
    ensures Safe(ReadRetry(s, w, now))
  {
    assert WorkerOk(s, w);
    RowsOnly(s, ReadRetry(s, w, now));
  }

  lemma WriteRetrySafe(s: State, w: nat, cause: Option<string>)
    requires Safe(s) && At(s, w) && s.workers[w].Counted?
    ensures Safe(WriteRetry(s, w, cause))
  {
    var t := WriteRetry(s, w, cause);
    assert t.workers == s.workers - {w};
    assert Extends(s, t);
    RowsOnly(s, t);
  }

  lemma RowStepSafe(s: State, e: Step)
    requires Safe(s) && Enabled(s, e)
    requires e.SConfigure? || e.SCommit? || e.SNotify? || e.SReopen? || e.SClaim?
    ensures Safe(Apply(s, e))
  {
    RowsOnly(s, Apply(s, e));
  }

  lemma MarkSafe(s: State, w: nat, now: Time)
    requires Safe(s) && At(s, w) && s.workers[w].Confirmed?
    ensures Safe(MarkPublished(s, w, now))
  {
    var t := MarkPublished(s, w, now);
    SameCopies(s, t);
    OthersKept(s, t);
    assert WorkerOk(s, w);
    forall id | id in t.rows
      ensures RowOk(t, id)
    {
      if id == s.workers[w].id {
        assert Accounted(t, s.workers[w].event, 0);
      }
    }
  }

  lemma AcceptSafe(s: State, w: nat)
    requires Safe(s) && At(s, w) && s.workers[w].Claimed?
    ensures Safe(Accept(s, w))
  {
    var t := Accept(s, w);
    AddStable(s, s.workers[w].msg, Main, t);
    assert WorkerOk(s, w);
    assert s.next !in s.origin;
    OthersKept(s, t);
  }

  lemma ConfirmSafe(s: State, w: nat)
    requires Safe(s) && At(s, w) && s.workers[w].Sent? && s.workers[w].copy !in s.lost
    ensures Safe(Confirm(s, w))
  {
    var t := Confirm(s, w);
    assert WorkerOk(s, w);
    SettleStable(s, s.workers[w].copy, t);
    Later(t, s.workers[w].event, s.workers[w].copy);
    OthersKept(s, t);
  }

  lemma TakenBackSafe(s: State, e: Step)
    requires Safe(s) && Enabled(s, e) && (e.SRequeue? || e.SLose?)
    ensures Safe(Apply(s, e))
  {
    var t := Apply(s, e);
    StraySame(s, e.c);
    if e.SRequeue? {
      MoveStable(s, e.c, Main, t);
    } else {
      LoseStable(s, e.c, t);
    }
    OthersKept(s, t);
  }

  lemma CopyStepSafe(s: State, e: Step)
    requires Safe(s) && Enabled(s, e)
    requires e.SDeliver? || e.SExpire? || e.SFail?
    ensures Safe(Apply(s, e))
  {
    var t := Apply(s, e);
    MoveStable(s, e.c, if e.SDeliver? then Unacked(Received) else if e.SExpire? then Main else Unacked(Failing), t);
    OthersKept(s, t);
  }

  lemma InsertStepSafe(s: State, e: Step)
    requires Safe(s) && Enabled(s, e) && (e.SProcess? || e.SStrayInsert?)
    ensures Safe(Apply(s, e))
  {
    var t := Apply(s, e);
    if e.SProcess? {
      assert CopyOk(s, e.c);
      MoveStable(s, e.c, Unacked(Inserted), t);
    } else {
      SameCopies(s, t);
    }
    OthersKept(s, t);
  }

  lemma RemoveSafe(s: State, c: nat)
    requires Safe(s) && c in s.copies
    requires Lies(s, c, Unacked(Inserted)) || Lies(s, c, Unacked(Scheduled)) || InDeadQueue(s, c)
    ensures Safe(Ack(s, c))
  {
    assert CopyOk(s, c);
    RemoveStable(s, c, Ack(s, c));
    OthersKept(s, Ack(s, c));
  }

  lemma LateAcceptSafe(s: State, t: (Message, Place))
    requires Safe(s) && !t.1.Unacked?
    ensures Safe(LateAccept(s, t))
  {
    AddStable(s, t.0, t.1, LateAccept(s, t));
    assert s.next !in s.origin;
    OthersKept(s, LateAccept(s, t));
  }

  lemma ForwardSafe(s: State, c: nat)
    requires Safe(s) && Lies(s, c, Unacked(Failing))
    ensures Safe(Forward(s, c))
  {
    var (m, p) := Next(s.copies[c].msg);
    var u := AddCopy(s, m, p);
    AddStable(s, m, p, u);
    assert CopyOk(s, c);
    assert c in s.origin && c < s.next;
    MoveStable(u, c, Unacked(Forwarded(s.next)), Forward(s, c));
    OthersKept(s, Forward(s, c));
  }

  lemma ConfirmRetrySafe(s: State, c: nat)
    requires Safe(s) && Enabled(s, SConfirmRetry(c))
    ensures Safe(Apply(s, SConfirmRetry(c)))
  {
    var d := s.copies[c].place.phase.copy;
    assert CopyOk(s, c);
    var u := Settle(s, d);
    SettleStable(s, d, u);
    assert u.origin == s.origin;
    ScheduleStable(u, c, d, ConfirmRetry(s, c, d));
    OthersKept(s, ConfirmRetry(s, c, d));
  }

  // Messages still under way to the broker are bound for a queue.
  ghost predicate TransitOk(s: State) {
    forall t :: t in s.transit ==> !t.1.Unacked?
  }

  lemma StepSafe(s: State, e: Step)
    requires Safe(s) && TransitOk(s) && Enabled(s, e)
    ensures Safe(Apply(s, e))
  {
    match e {
      case SAccept(w) => AcceptSafe(s, w);
      case SConfirm(w) => ConfirmSafe(s, w);
      case SMarkPublished(w, now) => MarkSafe(s, w, now);
      case SPurge(c) => RemoveSafe(s, c);
      case SAck(c) => RemoveSafe(s, c);
      case SLateAccept(t) => LateAcceptSafe(s, t);
      case SForward(c) => ForwardSafe(s, c);
      case SConfirmRetry(c) => ConfirmRetrySafe(s, c);
      case SDeliver(_) => CopyStepSafe(s, e);
      case SExpire(_) => CopyStepSafe(s, e);
      case SRequeue(_) => TakenBackSafe(s, e);
      case SProcess(_) => InsertStepSafe(s, e);
      case SFail(_) => CopyStepSafe(s, e);
      case SStrayInsert(_) => InsertStepSafe(s, e);
      case SLose(_) => TakenBackSafe(s, e);
      case SPublishError(w) => GiveUpSafe(s, w);
      case SCrash(w) => GiveUpSafe(s, w);
      case SReadRetry(w, now) => ReadRetrySafe(s, w, now);
      case SWriteRetry(w, cause) => WriteRetrySafe(s, w, cause);
      case _ => RowStepSafe(s, e);
    }
  }

  lemma {:induction false} RunSafe(s: State, es: seq<Step>)
    requires Safe(s) && TransitOk(s) && Run(s, es)
    ensures Safe(Final(s, es))
    decreases |es|
  {
    if es != [] {
      StepSafe(s, es[0]);
      RunSafe(Apply(s, es[0]), es[1..]);
    }
  }

  predicate InBroker(s: State, event: string) {
    exists c :: c in s.copies && s.copies[c].msg.event == event
  }

  /** On every run, a committed event is still pending or publishing, or its notification is stored, or a confirmed
      copy of it is in the main, a retry, the dead-letter queue or unacknowledged with a consumer. */
  lemma NoEventLost(mode: Mode, es: seq<Step>, id: nat)
    requires Run(Init(mode), es) && id in Final(Init(mode), es).rows
    ensures var s := Final(Init(mode), es); var r := s.rows[id];
            || r.status.Pending? || r.status.Publishing?
            || Stored(s.notices, r.eventId)
            || exists c :: c in s.copies && s.copies[c].msg.event == r.eventId && s.copies[c].durable
  {
    RunSafe(Init(mode), es);
    var s := Final(Init(mode), es);
    assert RowOk(s, id);
    if s.rows[id].status.Published? && !Stored(s.notices, s.rows[id].eventId) {
      var c :| Bears(s, c, s.rows[id].eventId, 0);
    }
  }

  /** Once the broker holds nothing of a published event, its notification is there. */
  lemma DrainedMeansStored(mode: Mode, es: seq<Step>, id: nat)
    requires Run(Init(mode), es) && id in Final(Init(mode), es).rows
    requires Final(Init(mode), es).rows[id].status.Published?
    requires !InBroker(Final(Init(mode), es), Final(Init(mode), es).rows[id].eventId)
    ensures Stored(Final(Init(mode), es).notices, Final(Init(mode), es).rows[id].eventId)
  {
    NoEventLost(mode, es, id);
  }
}

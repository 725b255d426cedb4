/** An event that can be claimed can always still be delivered. */
module PipelineDelivery {
  import opened Common
  import opened Notification
  import opened Outbox
  import opened RetryPolicy
  import opened Pipeline
  import opened PipelineSafety
  import PipelineOnce
  import PipelineContents

  predicate CanClaim(s: State, w: nat, id: nat, now: Time, token: string) {
    w !in s.workers && id in s.rows && Claimable(s.rows[id], now) && token != "" && token !in s.tokens
  }

  function Undisturbed(s: State, w: nat, id: nat, now: Time, lease: Time, token: string): seq<Step> {
    [SClaim(w, id, now, lease, token), SAccept(w), SConfirm(w), SMarkPublished(w, now),
     SDeliver(s.next), SProcess(s.next), SAck(s.next)]
  }

  // What the publisher leaves behind: the row marked, one confirmed copy in the main queue.
  function Handed(s: State, id: nat, now: Time, lease: Time, token: string): State
    requires id in s.rows
  {
    var r := s.rows[id];
    s.(rows := s.rows[id := Marked(Leased(r, now, lease, token), now)], tokens := s.tokens + {token},
       copies := s.copies[s.next := Copy(Message(r.eventId, r.draft, Absent), Main, true)],
       origin := s.origin[s.next := r.eventId], next := s.next + 1)
  }

  lemma FourSteps(s: State, w: nat, id: nat, now: Time, lease: Time, token: string)
    requires CanClaim(s, w, id, now, token)
    ensures MarkPublished(Confirm(Accept(Claim(s, w, id, now, lease, token), w), w), w, now)
            == Handed(s, id, now, lease, token)
  {
    var d := MarkPublished(Confirm(Accept(Claim(s, w, id, now, lease, token), w), w), w, now);
    var h := Handed(s, id, now, lease, token);
    assert d.workers == s.workers;
    assert d.rows == h.rows;
    assert d.copies == h.copies;
  }

  lemma Published(s: State, w: nat, id: nat, now: Time, lease: Time, token: string, rest: seq<Step>)
    requires CanClaim(s, w, id, now, token) && s.next !in s.lost && Run(Handed(s, id, now, lease, token), rest)
    ensures var es := [SClaim(w, id, now, lease, token), SAccept(w), SConfirm(w), SMarkPublished(w, now)] + rest;
            Run(s, es) && Final(s, es) == Final(Handed(s, id, now, lease, token), rest)
  {
    var a := Claim(s, w, id, now, lease, token);
    var b := Accept(a, w);
    var c := Confirm(b, w);
    FourSteps(s, w, id, now, lease, token);
    Prepend(c, SMarkPublished(w, now), rest);
    Prepend(b, SConfirm(w), [SMarkPublished(w, now)] + rest);
    Prepend(a, SAccept(w), [SConfirm(w)] + ([SMarkPublished(w, now)] + rest));
    Prepend(s, SClaim(w, id, now, lease, token), [SAccept(w)] + ([SConfirm(w)] + ([SMarkPublished(w, now)] + rest)));
    Unnest(SClaim(w, id, now, lease, token), SAccept(w), SConfirm(w), SMarkPublished(w, now), rest);
  }

  lemma Unnest(a: Step, b: Step, c: Step, d: Step, rest: seq<Step>)
    ensures [a, b, c, d] + rest == [a] + ([b] + ([c] + ([d] + rest)))
  {
  }

  lemma Prepend(s: State, e: Step, rest: seq<Step>)
    requires Enabled(s, e) && Run(Apply(s, e), rest)
    ensures Run(s, [e] + rest) && Final(s, [e] + rest) == Final(Apply(s, e), rest)
  {
    assert ([e] + rest)[1..] == rest;
  }

  lemma ThreeSteps(s: State, c: nat)
    requires c in s.copies
    ensures var d := Ack(Handle(Move(s, c, Unacked(Received)), c), c);
            d.copies == s.copies - {c} && d.rows == s.rows && Stored(d.notices, s.copies[c].msg.event)
  {
    assert Ack(Handle(Move(s, c, Unacked(Received)), c), c).copies == s.copies - {c};
  }

  lemma Consumed(s: State, c: nat)
    requires Lies(s, c, Main) && Complete(s.copies[c].msg.event, s.copies[c].msg.draft)
    ensures var es := [SDeliver(c), SProcess(c), SAck(c)];
            && Run(s, es) && Stored(Final(s, es).notices, s.copies[c].msg.event)
            && Final(s, es).copies == s.copies - {c} && Final(s, es).rows == s.rows
  {
    var a := Move(s, c, Unacked(Received));
    var b := Handle(a, c);
    ThreeSteps(s, c);
    assert Run(Ack(b, c), []);
    Prepend(b, SAck(c), []);
    Prepend(a, SProcess(c), [SAck(c)] + []);
    Prepend(s, SDeliver(c), [SProcess(c)] + ([SAck(c)] + []));
    assert [SDeliver(c), SProcess(c), SAck(c)] == [SDeliver(c)] + ([SProcess(c)] + ([SAck(c)] + []));
  }

  /** An event that a worker can claim is delivered by seven steps without a fault: claim, publish, confirm, mark,
      deliver, insert, ack. They store its notification, publish its row, and leave no copy behind. */
  lemma StillDeliverable(s: State, w: nat, id: nat, now: Time, lease: Time, token: string)
    requires CanClaim(s, w, id, now, token) && Complete(s.rows[id].eventId, s.rows[id].draft)
    requires s.next !in s.lost && s.next !in s.copies
    ensures var more := Undisturbed(s, w, id, now, lease, token);
            && Run(s, more)
            && Stored(Final(s, more).notices, s.rows[id].eventId)
            && Final(s, more).rows == s.rows[id := Marked(Leased(s.rows[id], now, lease, token), now)]
            && Final(s, more).copies == s.copies
  {
    var c := s.next;
    var h := Handed(s, id, now, lease, token);
    Consumed(h, c);
    var rest := [SDeliver(c), SProcess(c), SAck(c)];
    Published(s, w, id, now, lease, token, rest);
    assert Undisturbed(s, w, id, now, lease, token)
        == [SClaim(w, id, now, lease, token), SAccept(w), SConfirm(w), SMarkPublished(w, now)] + rest;
    assert h.copies - {c} == s.copies;
  }

  // ---- after any run ----

  // A lease has an end.
  ghost predicate LeasesEnd(rows: map<nat, Row>) {
    forall id :: id in rows && rows[id].status.Publishing? ==> rows[id].lockedUntil.Some?
  }

  lemma StepLeases(s: State, e: Step)
    requires LeasesEnd(s.rows) && Enabled(s, e)
    ensures LeasesEnd(Apply(s, e).rows)
  {
    if !WritesRow(e) {
      OthersKeepRows(s, e);
    }
  }

  lemma {:induction false} RunLeases(s: State, es: seq<Step>)
    requires LeasesEnd(s.rows) && Run(s, es)
    ensures LeasesEnd(Final(s, es).rows)
    decreases |es|
  {
    if es != [] {
      StepLeases(s, es[0]);
      RunLeases(Apply(s, es[0]), es[1..]);
    }
  }

  // When a pending or publishing row can be claimed.
  function ClaimTime(r: Row): (now: Time)
    requires !r.status.Published? && (r.status.Publishing? ==> r.lockedUntil.Some?)
    ensures Claimable(r, now)
  {
    if r.status.Publishing? then r.lockedUntil.value
    else if r.nextRetryAt.Some? then r.nextRetryAt.value
    else 0
  }

  lemma FreshWorker(used: set<nat>) returns (w: nat)
    ensures forall x :: x in used ==> x < w
    decreases |used|
  {
    w := 0;
    if used != {} {
      var x :| x in used;
      var v := FreshWorker(used - {x});
      w := if x < v then v else x + 1;
      assert forall y :: y in used ==> y == x || y in used - {x};
    }
  }

  lemma FreshToken(used: set<string>) returns (token: string)
    ensures token != "" && forall x :: x in used ==> |x| < |token|
    decreases |used|
  {
    token := "t";
    if used != {} {
      var x :| x in used;
      var longer := FreshToken(used - {x});
      token := if |x| < |longer| then longer else x + "t";
      assert forall y :: y in used ==> y == x || y in used - {x};
    }
  }

  // The notification of the row's event, with its draft, is there.
  predicate Notified(s: State, r: Row) {
    exists i :: 0 <= i < |s.notices| && s.notices[i] == Notice(Some(r.eventId), r.draft)
  }

  // These steps deliver the event of the row and leave no copy behind.
  predicate Delivers(s: State, id: nat, more: seq<Step>) {
    && id in s.rows && Run(s, more) && Notified(Final(s, more), s.rows[id])
    && id in Final(s, more).rows && Final(s, more).rows[id].status.Published?
    && Final(s, more).copies == s.copies
  }

  lemma StoredIsNotified(s: State, id: nat)
    requires PipelineOnce.Once(s) && id in s.rows && Stored(s.notices, s.rows[id].eventId)
    ensures Notified(s, s.rows[id])
  {
    var i :| 0 <= i < |s.notices| && s.notices[i].eventId == Some(s.rows[id].eventId);
    assert PipelineOnce.Committed(s.rows, s.rows[id].eventId, s.notices[i].body);
    assert s.notices[i] == Notice(Some(s.rows[id].eventId), s.rows[id].draft);
  }

  lemma OpenDeliverable(s: State, id: nat) returns (more: seq<Step>)
    requires id in s.rows && !s.rows[id].status.Published? && Complete(s.rows[id].eventId, s.rows[id].draft)
    requires LeasesEnd(s.rows) && s.next !in s.lost && s.next !in s.copies
    requires PipelineOnce.Once(s) && PipelineOnce.Numbered(s)
    ensures Delivers(s, id, more)
  {
    var w := FreshWorker(s.workers.Keys);
    var token := FreshToken(s.tokens);
    var now := ClaimTime(s.rows[id]);
    more := Undisturbed(s, w, id, now, 0, token);
    StillDeliverable(s, w, id, now, 0, token);
    PipelineOnce.RunOnce(s, more);
    StoredIsNotified(Final(s, more), id);
  }

  lemma AnyDeliverable(s: State, id: nat) returns (more: seq<Step>)
    requires id in s.rows && Complete(s.rows[id].eventId, s.rows[id].draft)
    requires LeasesEnd(s.rows) && s.next !in s.lost && s.next !in s.copies
    requires PipelineOnce.Once(s) && PipelineOnce.Numbered(s)
    ensures Delivers(s, id, more)
  {
    if s.rows[id].status.Published? {
      PipelineOnce.StepOnce(s, SReopen(id));
      more := OpenDeliverable(Reopen(s, id), id);
      Prepend(s, SReopen(id), more);
      more := [SReopen(id)] + more;
    } else {
      more := OpenDeliverable(s, id);
    }
  }

  /** However a run went, a committed event can still be delivered, at once, after its lease or its backoff, or after
      re-opening if it is published already, if and only if its draft names a user, a type and a title. */
  lemma AlwaysDeliverable(mode: Mode, es: seq<Step>, id: nat)
    requires Run(Init(mode), es) && id in Final(Init(mode), es).rows
    ensures (exists more :: Delivers(Final(Init(mode), es), id, more))
       <==> var d := Final(Init(mode), es).rows[id].draft; d.userId != 0 && d.kind != "" && d.title != ""
  {
    RunSafe(Init(mode), es);
    RunLeases(Init(mode), es);
    PipelineOnce.RunOnce(Init(mode), es);
    PipelineContents.RunFit(Init(mode), es);
    var s := Final(Init(mode), es);
    if Complete(s.rows[id].eventId, s.rows[id].draft) {
      var more := AnyDeliverable(s, id);
    }
    if more :| Delivers(s, id, more) {
      PipelineContents.RunFit(s, more);
      var i :| 0 <= i < |Final(s, more).notices|
               && Final(s, more).notices[i] == Notice(Some(s.rows[id].eventId), s.rows[id].draft);
      assert PipelineContents.NoticeFit(Final(s, more).notices[i]);
    }
  }
}

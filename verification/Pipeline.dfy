/** The whole notification pipeline as a state machine: outbox rows, publisher workers, broker queues, consumer
    deliveries and stored notifications, under crashes, lost confirms, lease expiry, redelivery and re-opening.
    Every action is one atomic step; a run is any sequence of enabled steps. */
module Pipeline {
  import opened Common
  import opened Notification
  import opened Outbox
  import opened RetryPolicy

  // Where a consumer stands with a delivery it has not acknowledged.
  datatype Phase =
    | Received                 // handed out, nothing done yet
    | Inserted                 // the notification insert has committed, the ack is outstanding
    | Failing                  // processing or the ack failed: retryOrDeadLetter is running
    | Forwarded(copy: nat)     // the broker has the scheduled copy, its confirm is outstanding
    | Scheduled                // the copy is confirmed, the ack of the original is outstanding

  datatype Place = Main | Waiting(queue: Queue) | Dead | Unacked(phase: Phase)

  datatype Message = Message(event: string, draft: Draft, header: Header)

  // durable: the broker has confirmed the copy and keeps it over a restart.
  datatype Copy = Copy(msg: Message, place: Place, durable: bool)

  datatype Stage =
    | Claimed(id: nat, token: string, msg: Message)
    | Sent(id: nat, token: string, event: string, copy: nat)
    | Confirmed(id: nat, token: string, event: string)
    | Refused(id: nat, token: string)
    | Counted(id: nat, token: string, seen: nat, at: Time)

  // origin: the event of every copy the broker ever took, by copy number; lost: unconfirmed copies a restart dropped.
  // transit: messages written to a connection nobody waits on any more, which the broker may still take.
  // strays: events a consumer whose delivery was taken back may still insert.
  datatype State = State(mode: Mode, rows: map<nat, Row>, tokens: set<string>, workers: map<nat, Stage>,
                         copies: map<nat, Copy>, origin: map<nat, string>, next: nat, lost: set<nat>,
                         transit: set<(Message, Place)>, strays: set<(string, Draft)>, notices: seq<Notice>)

  function Init(mode: Mode): State {
    State(mode, map[], {}, map[], map[], map[], 0, {}, {}, {}, [])
  }

  // ---- the service and the operator; SConfigure is a restart in the other mode ----

  predicate CanCommit(s: State, id: nat, event: string, d: Draft) {
    && s.mode == Outbox && Deliverable(Some(d)) && id !in s.rows && event != ""
    && forall x :: x in s.rows ==> s.rows[x].eventId != event
  }

  function Commit(s: State, id: nat, event: string, d: Draft): State {
    s.(rows := s.rows[id := NewRow(event, d)])
  }

  // DeliverAfterCommit in sync mode.
  function Notify(s: State, d: Draft): State {
    s.(notices := s.notices + [Notice(None, d)])
  }

  function Reopen(s: State, id: nat): State
    requires id in s.rows
  {
    s.(rows := s.rows[id := Reopened(s.rows[id])])
  }

  predicate InDeadQueue(s: State, c: nat) {
    c in s.copies && s.copies[c].place == Dead && Stored(s.notices, s.copies[c].msg.event)
  }

  // Cleaning the dead-letter queue once the notification is seen to be stored.
  function Purge(s: State, c: nat): State {
    s.(copies := s.copies - {c})
  }

  // ---- publisher workers ----

  function Claim(s: State, w: nat, id: nat, now: Time, lease: Time, token: string): State
    requires id in s.rows
  {
    var r := s.rows[id];
    s.(rows := s.rows[id := Leased(r, now, lease, token)], tokens := s.tokens + {token},
       workers := s.workers[w := Claimed(id, token, Message(r.eventId, r.draft, Absent))])
  }

  predicate At(s: State, w: nat) {
    w in s.workers
  }

  function AddCopy(s: State, m: Message, place: Place): State {
    s.(copies := s.copies[s.next := Copy(m, place, false)], origin := s.origin[s.next := m.event], next := s.next + 1)
  }

  // The broker takes the worker's message.
  function Accept(s: State, w: nat): State
    requires At(s, w) && s.workers[w].Claimed?
  {
    var k := s.workers[w];
    AddCopy(s, k.msg, Main).(workers := s.workers[w := Sent(k.id, k.token, k.msg.event, s.next)])
  }

  function Settle(s: State, c: nat): State {
    if c in s.copies then s.(copies := s.copies[c := s.copies[c].(durable := true)]) else s
  }

  // publishConfirmed returns nil: the confirm for this very copy arrived.
  function Confirm(s: State, w: nat): State
    requires At(s, w) && s.workers[w].Sent?
  {
    var k := s.workers[w];
    Settle(s, k.copy).(workers := s.workers[w := Confirmed(k.id, k.token, k.event)])
  }

  // publishConfirmed returns an error; what was written may still reach the broker.
  function PublishError(s: State, w: nat): State
    requires At(s, w) && (s.workers[w].Claimed? || s.workers[w].Sent?)
  {
    var k := s.workers[w];
    s.(workers := s.workers[w := Refused(k.id, k.token)],
       transit := if k.Claimed? then s.transit + {(k.msg, Main)} else s.transit)
  }

  function Crash(s: State, w: nat): State
    requires At(s, w)
  {
    var k := s.workers[w];
    s.(workers := s.workers - {w}, transit := if k.Claimed? then s.transit + {(k.msg, Main)} else s.transit)
  }

  function MarkPublished(s: State, w: nat, now: Time): State
    requires At(s, w) && s.workers[w].Confirmed?
  {
    var k := s.workers[w];
    var t := s.(workers := s.workers - {w});
    if k.id in s.rows && Holds(s.rows[k.id], k.token) then t.(rows := s.rows[k.id := Marked(s.rows[k.id], now)]) else t
  }

  function ReadRetry(s: State, w: nat, now: Time): State
    requires At(s, w) && s.workers[w].Refused?
  {
    var k := s.workers[w];
    if k.id in s.rows && Holds(s.rows[k.id], k.token) then
      s.(workers := s.workers[w := Counted(k.id, k.token, s.rows[k.id].retryCount, now)])
    else s.(workers := s.workers - {w})
  }

  function WriteRetry(s: State, w: nat, cause: Option<string>): State
    requires At(s, w) && s.workers[w].Counted?
  {
    var k := s.workers[w];
    var t := s.(workers := s.workers - {w});
    if k.id in s.rows && Holds(s.rows[k.id], k.token) then
      t.(rows := s.rows[k.id := Rescheduled(s.rows[k.id], k.seen, cause, k.at)])
    else t
  }

  // ---- the broker ----

  predicate Lies(s: State, c: nat, p: Place) {
    c in s.copies && s.copies[c].place == p
  }

  function Move(s: State, c: nat, p: Place): State
    requires c in s.copies
  {
    s.(copies := s.copies[c := s.copies[c].(place := p)])
  }

  function Stray(s: State, c: nat): State
    requires c in s.copies
  {
    var k := s.copies[c];
    match k.place
    case Unacked(Received) => s.(strays := s.strays + {(k.msg.event, k.msg.draft)})
    case Unacked(Failing) => s.(transit := s.transit + {Next(k.msg)})
    case _ => s
  }

  lemma StraySame(s: State, c: nat)
    requires c in s.copies
    ensures var t := Stray(s, c);
            t.rows == s.rows && t.workers == s.workers && t.copies == s.copies && t.origin == s.origin
            && t.next == s.next && t.lost == s.lost && t.notices == s.notices && t.mode == s.mode
            && t.tokens == s.tokens
  {
  }

  // The delivery goes back to the main queue: nack, closed channel, crashed consumer.
  function Requeue(s: State, c: nat): State
    requires c in s.copies
  {
    Move(Stray(s, c), c, Main)
  }

  // A restart drops a copy that was never confirmed.
  function Lose(s: State, c: nat): State
    requires c in s.copies
  {
    Stray(s, c).(copies := s.copies - {c}, lost := s.lost + {c})
  }

  function LateAccept(s: State, t: (Message, Place)): State {
    AddCopy(s, t.0, t.1)
  }

  // ---- the consumer ----

  function Insert(s: State, event: string, d: Draft): State {
    s.(notices := InsertOnce(s.notices, event, d))
  }

  function Handle(s: State, c: nat): State
    requires c in s.copies
  {
    Move(Insert(s, s.copies[c].msg.event, s.copies[c].msg.draft), c, Unacked(Inserted))
  }

  function Ack(s: State, c: nat): State {
    s.(copies := s.copies - {c})
  }

  // What retryOrDeadLetter publishes for a failed message, and the queue its route leads to.
  function Next(m: Message): (Message, Place) {
    var (route, header) := Schedule(m.header);
    (m.(header := header), match route case Delayed(q) => Waiting(q) case DeadLetter => Dead)
  }

  function Forward(s: State, c: nat): State
    requires c in s.copies
  {
    var (m, p) := Next(s.copies[c].msg);
    Move(AddCopy(s, m, p), c, Unacked(Forwarded(s.next)))
  }

  function ConfirmRetry(s: State, c: nat, d: nat): State
    requires c in s.copies
  {
    Move(Settle(s, d), c, Unacked(Scheduled))
  }

  // ---- steps and runs ----

  datatype Step =
    | SConfigure(mode: Mode) | SCommit(id: nat, event: string, draft: Draft) | SNotify(draft: Draft)
    | SReopen(id: nat) | SPurge(c: nat)
    | SClaim(w: nat, id: nat, now: Time, lease: Time, token: string) | SAccept(w: nat) | SConfirm(w: nat)
    | SPublishError(w: nat) | SCrash(w: nat) | SMarkPublished(w: nat, now: Time) | SReadRetry(w: nat, now: Time)
    | SWriteRetry(w: nat, cause: Option<string>)
    | SDeliver(c: nat) | SExpire(c: nat) | SRequeue(c: nat) | SLose(c: nat) | SLateAccept(t: (Message, Place))
    | SProcess(c: nat) | SStrayInsert(p: (string, Draft)) | SFail(c: nat) | SAck(c: nat)
    | SForward(c: nat) | SConfirmRetry(c: nat)

  predicate Enabled(s: State, e: Step) {
    match e
    case SConfigure(_) => true
    case SCommit(id, event, d) => CanCommit(s, id, event, d)
    case SNotify(d) => s.mode == Sync && Deliverable(Some(d))
    case SReopen(id) => id in s.rows && s.rows[id].status.Published?
    case SPurge(c) => InDeadQueue(s, c)
    case SClaim(w, id, now, _, token) =>
      !At(s, w) && id in s.rows && Claimable(s.rows[id], now) && token != "" && token !in s.tokens
    case SAccept(w) => At(s, w) && s.workers[w].Claimed?
    case SConfirm(w) => At(s, w) && s.workers[w].Sent? && s.workers[w].copy !in s.lost
    case SPublishError(w) => At(s, w) && (s.workers[w].Claimed? || s.workers[w].Sent?)
    case SCrash(w) => At(s, w)
    case SMarkPublished(w, _) => At(s, w) && s.workers[w].Confirmed?
    case SReadRetry(w, _) => At(s, w) && s.workers[w].Refused?
    case SWriteRetry(w, _) => At(s, w) && s.workers[w].Counted?
    case SDeliver(c) => Lies(s, c, Main)
    case SExpire(c) => c in s.copies && s.copies[c].place.Waiting?
    case SRequeue(c) => c in s.copies && s.copies[c].place.Unacked?
    case SLose(c) => c in s.copies && !s.copies[c].durable
    case SLateAccept(t) => t in s.transit
    case SProcess(c) => Lies(s, c, Unacked(Received)) && Complete(s.copies[c].msg.event, s.copies[c].msg.draft)
    case SStrayInsert(p) => p in s.strays && Complete(p.0, p.1)
    case SFail(c) => Lies(s, c, Unacked(Received)) || Lies(s, c, Unacked(Inserted))
    case SAck(c) => Lies(s, c, Unacked(Inserted)) || Lies(s, c, Unacked(Scheduled))
    case SForward(c) => Lies(s, c, Unacked(Failing))
    case SConfirmRetry(c) => c in s.copies && s.copies[c].place.Unacked? && s.copies[c].place.phase.Forwarded?
                             && s.copies[c].place.phase.copy !in s.lost
  }

  function Apply(s: State, e: Step): State
    requires Enabled(s, e)
  {
    match e
    case SConfigure(mode) => s.(mode := mode)
    case SCommit(id, event, d) => Commit(s, id, event, d)
    case SNotify(d) => Notify(s, d)
    case SReopen(id) => Reopen(s, id)
    case SPurge(c) => Purge(s, c)
    case SClaim(w, id, now, lease, token) => Claim(s, w, id, now, lease, token)
    case SAccept(w) => Accept(s, w)
    case SConfirm(w) => Confirm(s, w)
    case SPublishError(w) => PublishError(s, w)
    case SCrash(w) => Crash(s, w)
    case SMarkPublished(w, now) => MarkPublished(s, w, now)
    case SReadRetry(w, now) => ReadRetry(s, w, now)
    case SWriteRetry(w, cause) => WriteRetry(s, w, cause)
    case SDeliver(c) => Move(s, c, Unacked(Received))
    case SExpire(c) => Move(s, c, Main)
    case SRequeue(c) => Requeue(s, c)
    case SLose(c) => Lose(s, c)
    case SLateAccept(t) => LateAccept(s, t)
    case SProcess(c) => Handle(s, c)
    case SStrayInsert(p) => Insert(s, p.0, p.1)
    case SFail(c) => Move(s, c, Unacked(Failing))
    case SAck(c) => Ack(s, c)
    case SForward(c) => Forward(s, c)
    case SConfirmRetry(c) => ConfirmRetry(s, c, s.copies[c].place.phase.copy)
  }

  predicate Run(s: State, es: seq<Step>)
    decreases |es|
  {
    es == [] || (Enabled(s, es[0]) && Run(Apply(s, es[0]), es[1..]))
  }

  function Final(s: State, es: seq<Step>): State
    requires Run(s, es)
    decreases |es|
  {
    if es == [] then s else Final(Apply(s, es[0]), es[1..])
  }

  predicate WritesRow(e: Step) {
    e.SCommit? || e.SReopen? || e.SClaim? || e.SMarkPublished? || e.SWriteRetry?
  }

  lemma SendersKeepRows(s: State, e: Step)
    requires Enabled(s, e) && (e.SAccept? || e.SConfirm? || e.SPublishError? || e.SCrash? || e.SReadRetry?)
    ensures Apply(s, e).rows == s.rows
  {
  }

  lemma OthersKeepRows(s: State, e: Step)
    requires Enabled(s, e) && !WritesRow(e)
    ensures Apply(s, e).rows == s.rows
  {
    if e.SAccept? || e.SConfirm? || e.SPublishError? || e.SCrash? || e.SReadRetry? {
      SendersKeepRows(s, e);
    } else if e.SRequeue? || e.SLose? {
      StraySame(s, e.c);
    }
  }
}

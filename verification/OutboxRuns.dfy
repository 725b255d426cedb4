/** Runs of outbox statements by any number of workers with arbitrary clocks: fencing and publisher backoff. */
module OutboxRuns {
  import opened Common
  import opened Notification
  import opened Outbox

  // A MarkRetry between its two statements: what it read, and the time it was given.
  datatype Reading = Reading(id: nat, token: string, seen: nat, at: Time)

  // failures: times of the effective MarkRetry calls since insertion or re-opening; marks: effective marks since the
  // last claim. Both are bookkeeping beside the real table.
  datatype State = State(rows: map<nat, Row>, tokens: set<string>, readings: set<Reading>,
                         failures: map<nat, seq<Time>>, marks: map<nat, nat>, claimedAt: map<nat, Time>, clock: Time)

  datatype Event =
    | Insert(id: nat, eventId: string, draft: Draft)
    | Claim(id: nat, now: Time, lease: Time, token: string)
    | Publish(id: nat, now: Time, token: string)
    | ReadRetry(id: nat, now: Time, token: string)
    | WriteRetry(reading: Reading, cause: Option<string>)
    | Reopen(id: nat)

  const EMPTY := State(map[], {}, {}, map[], map[], map[], 0)

  // Claims bring fresh, non-empty tokens; marks may come with any id and token whatever.
  predicate Enabled(s: State, e: Event) {
    match e
    case Insert(id, _, _) => id !in s.rows
    case Claim(id, now, _, token) => id in s.rows && Claimable(s.rows[id], now) && token != "" && token !in s.tokens
    case Publish(_, _, token) => token in s.tokens
    case ReadRetry(_, _, token) => token in s.tokens
    case WriteRetry(reading, _) => reading in s.readings
    case Reopen(id) => id in s.rows && s.rows[id].status.Published?
  }

  predicate HeldBy(s: State, id: nat, token: string) {
    id in s.rows && Holds(s.rows[id], token)
  }

  // Whether the statement affected a row; a mark that did not returns an error.
  predicate Effective(s: State, e: Event) {
    match e
    case Publish(id, _, token) => HeldBy(s, id, token)
    case ReadRetry(id, _, token) => HeldBy(s, id, token)
    case WriteRetry(reading, _) => HeldBy(s, reading.id, reading.token)
    case _ => true
  }

  function Bump(marks: map<nat, nat>, id: nat): map<nat, nat> {
    marks[id := (if id in marks then marks[id] else 0) + 1]
  }

  function Log(failures: map<nat, seq<Time>>, id: nat, at: Time): map<nat, seq<Time>> {
    failures[id := (if id in failures then failures[id] else []) + [at]]
  }

  function Apply(s: State, e: Event): State
    requires Enabled(s, e)
  {
    match e
    case Insert(id, eventId, d) =>
      s.(rows := s.rows[id := NewRow(eventId, d)], failures := s.failures[id := []], marks := s.marks[id := 0],
         claimedAt := s.claimedAt[id := s.clock])
    case Claim(id, now, lease, token) =>
      s.(rows := s.rows[id := Leased(s.rows[id], now, lease, token)], tokens := s.tokens + {token},
         marks := s.marks[id := 0], claimedAt := s.claimedAt[id := now], clock := now)
    case Publish(id, now, token) =>
      if !Effective(s, e) then s.(clock := now)
      else s.(rows := s.rows[id := Marked(s.rows[id], now)], marks := Bump(s.marks, id), clock := now)
    case ReadRetry(id, now, token) =>
      if !Effective(s, e) then s.(clock := now)
      else s.(readings := s.readings + {Reading(id, token, s.rows[id].retryCount, now)}, clock := now)
    case WriteRetry(r, cause) =>
      var t := s.(readings := s.readings - {r});
      if !Effective(s, e) then t
      else t.(rows := s.rows[r.id := Rescheduled(s.rows[r.id], r.seen, cause, r.at)], marks := Bump(s.marks, r.id),
              failures := Log(s.failures, r.id, r.at))
    case Reopen(id) =>
      s.(rows := s.rows[id := Reopened(s.rows[id])], failures := s.failures[id := []])
  }

  predicate Run(s: State, es: seq<Event>)
    decreases |es|
  {
    es == [] || (Enabled(s, es[0]) && Run(Apply(s, es[0]), es[1..]))
  }

  function Final(s: State, es: seq<Event>): State
    requires Run(s, es)
    decreases |es|
  {
    if es == [] then s else Final(Apply(s, es[0]), es[1..])
  }

  // ---- the invariant that needs nothing of the clocks ----

  predicate RowOk(s: State, id: nat)
    requires id in s.rows
  {
    var r := s.rows[id];
    && id in s.failures && id in s.marks && id in s.claimedAt
    && r.retryCount == |s.failures[id]|
    && s.marks[id] <= 1
    && (r.status.Publishing? ==> r.leaseToken in s.tokens && r.leaseToken != "" && s.marks[id] == 0)
    && (!r.status.Publishing? ==> r.leaseToken == "")
  }

  predicate ReadingOk(s: State, r: Reading) {
    && r.token in s.tokens && r.id in s.rows
    && (Holds(s.rows[r.id], r.token) ==> s.rows[r.id].retryCount == r.seen)
  }

  ghost predicate Inv(s: State) {
    && "" !in s.tokens
    && (forall id :: id in s.rows ==> RowOk(s, id))
    && (forall r :: r in s.readings ==> ReadingOk(s, r))
  }

  lemma RowsKept(s: State, e: Event)
    requires Inv(s) && Enabled(s, e)
    ensures forall id :: id in Apply(s, e).rows ==> RowOk(Apply(s, e), id)
  {
    var t := Apply(s, e);
    forall id | id in t.rows
      ensures RowOk(t, id)
    {
      if id in s.rows {
        assert RowOk(s, id);
      }
      if e.WriteRetry? {
        assert ReadingOk(s, e.reading);
      }
    }
  }

  lemma ReadingsKept(s: State, e: Event)
    requires Inv(s) && Enabled(s, e)
    ensures forall r :: r in Apply(s, e).readings ==> ReadingOk(Apply(s, e), r)
  {
    var t := Apply(s, e);
    forall r | r in t.readings
      ensures ReadingOk(t, r)
    {
      if r in s.readings {
        assert ReadingOk(s, r);
      }
    }
  }

  lemma InvKept(s: State, e: Event)
    requires Inv(s) && Enabled(s, e)
    ensures Inv(Apply(s, e))
  {
    RowsKept(s, e);
    ReadingsKept(s, e);
  }

  lemma {:induction false} InvAlways(s: State, es: seq<Event>)
    requires Inv(s) && Run(s, es)
    ensures Inv(Final(s, es))
    decreases |es|
  {
    if es != [] {
      InvKept(s, es[0]);
      InvAlways(Apply(s, es[0]), es[1..]);
    }
  }

  // ---- fencing ----

  /** A token that no longer holds its row never holds it again. */
  lemma {:induction false} TokenNeverReturns(s: State, es: seq<Event>, id: nat, token: string)
    requires Inv(s) && Run(s, es) && token in s.tokens && id in s.rows && !HeldBy(s, id, token)
    ensures id in Final(s, es).rows && !HeldBy(Final(s, es), id, token) && token in Final(s, es).tokens
    decreases |es|
  {
    if es != [] {
      InvKept(s, es[0]);
      TokenNeverReturns(Apply(s, es[0]), es[1..], id, token);
    }
  }

  // The row and token a mark is aimed at.
  function Target(e: Event): (nat, string)
    requires IsMark(e)
  {
    if e.Publish? then (e.id, e.token) else (e.reading.id, e.reading.token)
  }

  predicate IsMark(e: Event) {
    e.Publish? || e.WriteRetry?
  }

  predicate Supersedes(s: State, e: Event, id: nat)
  {
    || (e.Claim? && e.id == id)
    || (IsMark(e) && Effective(s, e) && Target(e).0 == id)
  }

  lemma SupersededIsReleased(s: State, e: Event, id: nat, token: string)
    requires Inv(s) && Enabled(s, e) && token in s.tokens && id in s.rows && Supersedes(s, e, id)
    ensures !HeldBy(Apply(s, e), id, token)
  {
  }

  /** Once a claim or an effective mark has followed on its row, a mark with the old token changes no row and errors. */
  lemma SupersededMarkFails(s: State, e: Event, es: seq<Event>, mark: Event, token: string)
    requires Inv(s) && Enabled(s, e) && Run(Apply(s, e), es)
    requires IsMark(mark) && Target(mark).1 == token && token in s.tokens && Target(mark).0 in s.rows
    requires Supersedes(s, e, Target(mark).0)
    requires Enabled(Final(Apply(s, e), es), mark)
    ensures !Effective(Final(Apply(s, e), es), mark)
    ensures Apply(Final(Apply(s, e), es), mark).rows == Final(Apply(s, e), es).rows
  {
    InvKept(s, e);
    SupersededIsReleased(s, e, Target(mark).0, token);
    TokenNeverReturns(Apply(s, e), es, Target(mark).0, token);
  }

  /** On every run from the empty table: at most one mark takes effect between two claims, the retry count is exactly
      the number of effective failures, and a row carries a lease token exactly while it is publishing. */
  lemma FencedRuns(es: seq<Event>, id: nat)
    requires Run(EMPTY, es) && id in Final(EMPTY, es).rows
    ensures var s := Final(EMPTY, es); var r := s.rows[id];
            && id in s.marks && id in s.failures
            && s.marks[id] <= 1
            && r.retryCount == |s.failures[id]|
            && (r.status.Publishing? <==> r.leaseToken != "")
            && (r.status.Publishing? ==> s.marks[id] == 0)
  {
    InvAlways(EMPTY, es);
    assert RowOk(Final(EMPTY, es), id);
  }

  // ---- backoff, under a clock that never goes back ----

  predicate Timely(s: State, e: Event) {
    match e
    case Claim(_, now, _, _) => now >= s.clock
    case Publish(_, now, _) => now >= s.clock
    case ReadRetry(_, now, _) => now >= s.clock
    case _ => true
  }

  // The times of the run never go back.
  predicate Forward(s: State, es: seq<Event>)
    requires Run(s, es)
    decreases |es|
  {
    es == [] || (Timely(s, es[0]) && Forward(Apply(s, es[0]), es[1..]))
  }

  predicate TimelyRun(s: State, es: seq<Event>) {
    Run(s, es) && Forward(s, es)
  }

  ghost predicate Spaced(f: seq<Time>) {
    forall k :: 0 < k < |f| ==> f[k] >= f[k - 1] + Delay(k - 1)
  }

  // The earliest moment at which the next failure of a row can be.
  function Due(f: seq<Time>): Time
    requires f != []
  {
    f[|f| - 1] + Delay(|f| - 1)
  }

  ghost predicate Spread(r: Row, f: seq<Time>, claimedAt: Time, clock: Time) {
    && Spaced(f)
    && claimedAt <= clock
    && (r.status.Pending? && f != [] ==> r.nextRetryAt == Some(Due(f)))
    && (r.status.Publishing? && f != [] ==> claimedAt >= Due(f))
  }

  ghost predicate RowTimed(s: State, id: nat)
    requires id in s.rows && RowOk(s, id)
  {
    Spread(s.rows[id], s.failures[id], s.claimedAt[id], s.clock)
  }

  predicate ReadingTimed(s: State, r: Reading)
    requires r.id in s.rows && r.id in s.claimedAt
  {
    Holds(s.rows[r.id], r.token) ==> r.at >= s.claimedAt[r.id]
  }

  ghost predicate TimedInv(s: State) {
    && Inv(s)
    && (forall id :: id in s.rows ==> RowTimed(s, id))
    && (forall r :: r in s.readings ==> ReadingOk(s, r) && RowOk(s, r.id) && ReadingTimed(s, r))
  }

  lemma SpacedGrows(f: seq<Time>, at: Time)
    requires Spaced(f) && (f != [] ==> at >= Due(f))
    ensures Spaced(f + [at]) && Due(f + [at]) == at + Delay(|f|)
  {
  }

  lemma SpreadGrows(r: Row, f: seq<Time>, claimedAt: Time, clock: Time, cause: Option<string>, at: Time)
    requires Spread(r, f, claimedAt, clock) && (f != [] ==> at >= Due(f))
    ensures Spread(Rescheduled(r, |f|, cause, at), f + [at], claimedAt, clock)
  {
    SpacedGrows(f, at);
  }

  // The row a failure was just recorded for.
  lemma FailureTimed(s: State, e: Event)
    requires TimedInv(s) && Enabled(s, e) && e.WriteRetry? && Effective(s, e)
    requires Inv(Apply(s, e)) && RowOk(Apply(s, e), e.reading.id)
    ensures RowTimed(Apply(s, e), e.reading.id)
  {
    var id, at := e.reading.id, e.reading.at;
    assert RowOk(s, id) && RowTimed(s, id);
    assert ReadingOk(s, e.reading) && ReadingTimed(s, e.reading);
    SpreadGrows(s.rows[id], s.failures[id], s.claimedAt[id], s.clock, e.cause, at);
    assert Apply(s, e).rows[id] == Rescheduled(s.rows[id], |s.failures[id]|, e.cause, at);
  }

  lemma RowTimedKept(s: State, e: Event, id: nat)
    requires TimedInv(s) && Enabled(s, e) && Timely(s, e)
    requires Inv(Apply(s, e)) && id in Apply(s, e).rows
    ensures RowOk(Apply(s, e), id) && RowTimed(Apply(s, e), id)
  {
    assert RowOk(Apply(s, e), id);
    if e.WriteRetry? && e.reading.id == id && Effective(s, e) {
      FailureTimed(s, e);
    } else if e.WriteRetry? {
      assert RowOk(s, id) && RowTimed(s, id);
    } else {
      OtherTimed(s, e, id);
    }
  }

  lemma OtherTimed(s: State, e: Event, id: nat)
    requires TimedInv(s) && Enabled(s, e) && Timely(s, e) && !e.WriteRetry?
    requires id in Apply(s, e).rows && RowOk(Apply(s, e), id)
    ensures RowTimed(Apply(s, e), id)
  {
    if id in s.rows {
      assert RowOk(s, id) && RowTimed(s, id);
    }
  }

  lemma ReadingTimedKept(s: State, e: Event, r: Reading)
    requires TimedInv(s) && Enabled(s, e) && Timely(s, e)
    requires Inv(Apply(s, e)) && r in Apply(s, e).readings
    ensures ReadingOk(Apply(s, e), r) && RowOk(Apply(s, e), r.id) && ReadingTimed(Apply(s, e), r)
  {
    assert ReadingOk(Apply(s, e), r);
    if r in s.readings {
      assert ReadingTimed(s, r) && ReadingOk(s, r) && RowOk(s, r.id);
    } else {
      assert RowTimed(s, r.id);
    }
  }

  lemma TimedKept(s: State, e: Event)
    requires TimedInv(s) && Enabled(s, e) && Timely(s, e)
    ensures TimedInv(Apply(s, e))
  {
    InvKept(s, e);
    var t := Apply(s, e);
    forall id | id in t.rows
      ensures RowOk(t, id) && RowTimed(t, id)
    {
      RowTimedKept(s, e, id);
    }
    forall r | r in t.readings
      ensures ReadingOk(t, r) && RowOk(t, r.id) && ReadingTimed(t, r)
    {
      ReadingTimedKept(s, e, r);
    }
  }

  lemma {:induction false} TimedAlways(s: State, es: seq<Event>)
    requires TimedInv(s) && TimelyRun(s, es)
    ensures TimedInv(Final(s, es))
    decreases |es|
  {
    if es != [] {
      TimedKept(s, es[0]);
      TimedAlways(Apply(s, es[0]), es[1..]);
    }
  }

  function SumDelays(n: nat): Time {
    if n == 0 then 0 else SumDelays(n - 1) + Delay(n - 1)
  }

  lemma {:induction false} SpacedSum(f: seq<Time>, n: nat)
    requires Spaced(f) && 0 < n <= |f|
    ensures f[n - 1] >= f[0] + SumDelays(n - 1)
  {
    if n > 1 {
      SpacedSum(f, n - 1);
      assert f[n - 1] >= f[n - 2] + Delay(n - 2);
    }
  }

  /** The delays double from one second up to 256 s and stay there. */
  lemma {:induction false} SumDelaysClosed(n: nat)
    ensures SumDelays(n) == if n <= 8 then SECOND * (Pow2(n) - 1) else SECOND * (255 + 256 * (n - 8))
  {
    if n > 0 {
      SumDelaysClosed(n - 1);
      DelayNeverCapped(n - 1);
      assert Pow2(4) == 16;
      assert Pow2(8) == 256;
    }
  }

  /** On every timely run the n-th recorded failure of a row comes at least the sum of the first n-1 delays after the
      first one. */
  lemma FailuresBackOff(es: seq<Event>, id: nat, n: nat)
    requires TimelyRun(EMPTY, es) && id in Final(EMPTY, es).rows
    requires id in Final(EMPTY, es).failures && 0 < n <= |Final(EMPTY, es).failures[id]|
    ensures var f := Final(EMPTY, es).failures[id]; f[n - 1] >= f[0] + SumDelays(n - 1)
  {
    TimedAlways(EMPTY, es);
    assert RowTimed(Final(EMPTY, es), id);
    SpacedSum(Final(EMPTY, es).failures[id], n);
  }

  // ---- leases ----

  // No claim and no effective mark of the row.
  predicate Untouched(s: State, es: seq<Event>, id: nat)
    requires Run(s, es)
    decreases |es|
  {
    es == [] || (!Supersedes(s, es[0], id) && Untouched(Apply(s, es[0]), es[1..], id))
  }

  lemma {:induction false} PublishingStays(s: State, es: seq<Event>, id: nat)
    requires Run(s, es) && Untouched(s, es, id) && id in s.rows && s.rows[id].status.Publishing?
    ensures id in Final(s, es).rows && Final(s, es).rows[id] == s.rows[id]
    decreases |es|
  {
    if es != [] {
      PublishingStays(Apply(s, es[0]), es[1..], id);
    }
  }

  /** Whatever others do and whatever their clocks show, a claimed row can be claimed again exactly from the end of its
      lease on. */
  lemma LeaseHolds(s: State, first: Event, es: seq<Event>, now: Time)
    requires first.Claim? && Enabled(s, first) && Run(Apply(s, first), es) && Untouched(Apply(s, first), es, first.id)
    ensures var t := Final(Apply(s, first), es);
            first.id in t.rows && (Claimable(t.rows[first.id], now) <==> now >= first.now + first.lease)
  {
    PublishingStays(Apply(s, first), es, first.id);
    LeaseExcludes(s.rows[first.id], first.now, first.lease, first.token, now);
  }

  // Under a clock that never goes back, claims in between do not matter either.

  // No mark takes effect on the row.
  predicate Unmarked(s: State, es: seq<Event>, id: nat)
    requires Run(s, es)
    decreases |es|
  {
    es == []
    || (!(IsMark(es[0]) && Effective(s, es[0]) && Target(es[0]).0 == id) && Unmarked(Apply(s, es[0]), es[1..], id))
  }

  // The row is in a lease that ends at this moment, or the moment has passed.
  predicate LeasedUntil(s: State, id: nat, end: Time) {
    id in s.rows && s.rows[id].status.Publishing? && (s.rows[id].lockedUntil == Some(end) || s.clock >= end)
  }

  lemma LeaseStep(s: State, e: Event, id: nat, end: Time)
    requires Enabled(s, e) && Timely(s, e) && LeasedUntil(s, id, end)
    requires !(IsMark(e) && Effective(s, e) && Target(e).0 == id)
    ensures LeasedUntil(Apply(s, e), id, end)
  {
  }

  lemma {:induction false} LeaseRun(s: State, es: seq<Event>, id: nat, end: Time)
    requires TimelyRun(s, es) && Unmarked(s, es, id) && LeasedUntil(s, id, end)
    ensures LeasedUntil(Final(s, es), id, end)
    decreases |es|
  {
    if es != [] {
      LeaseStep(s, es[0], id, end);
      LeaseRun(Apply(s, es[0]), es[1..], id, end);
    }
  }

  /** Two claims of one row without an effective mark in between are at least the first one's lease apart, whatever else
      happens in between. */
  lemma ClaimsLeaseApart(s: State, first: Event, es: seq<Event>, second: Event)
    requires first.Claim? && second.Claim? && first.id == second.id
    requires TimelyRun(s, [first] + es) && Unmarked(Apply(s, first), es, first.id)
    requires Enabled(Final(s, [first] + es), second) && Timely(Final(s, [first] + es), second)
    ensures second.now >= first.now + first.lease
  {
    assert ([first] + es)[1..] == es;
    LeaseRun(Apply(s, first), es, first.id, first.now + first.lease);
  }

  // ---- a row by the history of its events alone ----

  // What the events of a row leave: waiting to be claimed, at once or from a moment on; held under a token until a
  // moment; or published.
  datatype Life = Open(from: Option<Time>) | Held(token: string, until: Time) | Done(at: Time)

  datatype Account = Account(life: Life, failures: nat, error: string)

  predicate HeldUnder(x: Option<Account>, token: string) {
    x.Some? && x.value.life.Held? && x.value.life.token == token
  }

  // One event, told without the table.
  function Told(x: Option<Account>, e: Event, id: nat): Option<Account> {
    match e
    case Insert(i, _, _) => if i == id then Some(Account(Open(None), 0, "")) else x
    case Claim(i, now, lease, token) =>
      if i == id && x.Some? then Some(x.value.(life := Held(token, now + lease))) else x
    case Publish(i, now, token) =>
      if i == id && HeldUnder(x, token) then Some(Account(Done(now), x.value.failures, "")) else x
    case ReadRetry(_, _, _) => x
    case WriteRetry(r, cause) =>
      if r.id == id && HeldUnder(x, r.token) then
        var from := r.at + SECOND * Pow2(Min(x.value.failures, 8));
        Some(Account(Open(Some(from)), x.value.failures + 1,
                     if cause.Some? then cause.value else "unknown publish error"))
      else x
    case Reopen(i) => if i == id then Some(Account(Open(None), 0, "")) else x
  }

  function History(x: Option<Account>, es: seq<Event>, id: nat): Option<Account>
    decreases |es|
  {
    if es == [] then x else History(Told(x, es[0], id), es[1..], id)
  }

  predicate Shows(r: Row, x: Account) {
    && r.retryCount == x.failures && r.lastError == x.error
    && match x.life
       case Open(from) => r.status.Pending? && r.nextRetryAt == from && r.publishedAt.None?
       case Held(token, until) =>
         r.status.Publishing? && r.leaseToken == token && r.lockedUntil == Some(until) && r.publishedAt.None?
       case Done(at) => r.status.Published? && r.publishedAt == Some(at)
  }

  predicate Follows(s: State, id: nat, x: Option<Account>) {
    if id in s.rows then x.Some? && Shows(s.rows[id], x.value) else x.None?
  }

  lemma FollowsStep(s: State, e: Event, id: nat, x: Option<Account>)
    requires Inv(s) && Enabled(s, e) && Follows(s, id, x)
    ensures Follows(Apply(s, e), id, Told(x, e, id))
  {
    if e.WriteRetry? {
      WriteFollows(s, e, id, x);
    }
  }

  lemma WriteFollows(s: State, e: Event, id: nat, x: Option<Account>)
    requires Inv(s) && Enabled(s, e) && Follows(s, id, x) && e.WriteRetry?
    ensures Follows(Apply(s, e), id, Told(x, e, id))
  {
    assert ReadingOk(s, e.reading);
    DelayNeverCapped(e.reading.seen);
  }

  // What an effective failure leaves.
  lemma FailureFollows(s: State, e: Event, x: Option<Account>)
    requires e.WriteRetry? && Inv(s) && Enabled(s, e) && Follows(s, e.reading.id, x) && Effective(s, e)
    ensures var y := Told(x, e, e.reading.id);
            && Follows(Apply(s, e), e.reading.id, y)
            && y.Some? && y.value.failures > 0
            && y.value.life == Open(Some(e.reading.at + SECOND * Pow2(Min(y.value.failures - 1, 8))))
  {
    WriteFollows(s, e, e.reading.id, x);
  }

  lemma {:induction false} FollowsRun(s: State, es: seq<Event>, id: nat, x: Option<Account>)
    requires Inv(s) && Run(s, es) && Follows(s, id, x)
    ensures Follows(Final(s, es), id, History(x, es, id))
    decreases |es|
  {
    if es != [] {
      InvKept(s, es[0]);
      FollowsStep(s, es[0], id, x);
      FollowsRun(Apply(s, es[0]), es[1..], id, Told(x, es[0], id));
    }
  }

  /** On every run the history of a row's events decides what can be done with it: a new or re-opened row is claimable
      at once, a claimed one from the end of its lease, one whose n-th failure was recorded from 2^min(n-1,8) seconds
      after it, a published one never; and a mark takes effect exactly under the token of the last claim since. */
  lemma HistoryDecides(es: seq<Event>, id: nat, now: Time, token: string)
    requires Run(EMPTY, es)
    ensures var s := Final(EMPTY, es); var x := History(None, es, id);
            && (id in s.rows <==> x.Some?)
            && (id in s.rows ==>
                  && (Claimable(s.rows[id], now) <==>
                        match x.value.life
                        case Open(from) => from.None? || from.value <= now
                        case Held(_, until) => until <= now
                        case Done(_) => false)
                  && (HeldBy(s, id, token) <==> x.value.life.Held? && x.value.life.token == token)
                  && s.rows[id].retryCount == x.value.failures && s.rows[id].lastError == x.value.error
                  && s.rows[id].publishedAt == if x.value.life.Done? then Some(x.value.life.at) else None)
  {
    FollowsRun(EMPTY, es, id, None);
  }

  // No claim and no re-opening of the row.
  predicate Resting(es: seq<Event>, id: nat) {
    forall i :: 0 <= i < |es| ==> !((es[i].Claim? || es[i].Reopen? || es[i].Insert?) && es[i].id == id)
  }

  lemma {:induction false} RestingKeeps(x: Account, es: seq<Event>, id: nat)
    requires x.life.Open? && Resting(es, id)
    ensures History(Some(x), es, id) == Some(x)
    decreases |es|
  {
    if es != [] {
      RestingKeeps(x, es[1..], id);
    }
  }

  /** So after the n-th failure is recorded the row can be claimed exactly from 2^min(n-1,8) seconds after it on, until
      it is claimed or re-opened. */
  lemma BackoffHolds(before: seq<Event>, e: Event, after: seq<Event>, now: Time)
    requires e.WriteRetry? && Run(EMPTY, before)
    requires Enabled(Final(EMPTY, before), e) && Effective(Final(EMPTY, before), e)
    requires Run(Apply(Final(EMPTY, before), e), after) && Resting(after, e.reading.id)
    ensures var t := Final(Apply(Final(EMPTY, before), e), after); var id := e.reading.id;
            && id in t.rows && t.rows[id].retryCount > 0
            && (Claimable(t.rows[id], now) <==> now >= e.reading.at + SECOND * Pow2(Min(t.rows[id].retryCount - 1, 8)))
  {
    var id := e.reading.id;
    var s := Final(EMPTY, before);
    InvAlways(EMPTY, before);
    FollowsRun(EMPTY, before, id, None);
    var x := History(None, before, id);
    var y := Told(x, e, id);
    InvKept(s, e);
    FailureFollows(s, e, x);
    FollowsRun(Apply(s, e), after, id, y);
    RestingKeeps(y.value, after, id);
  }
}

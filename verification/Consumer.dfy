/** The consumer of one connection (consume and retryOrDeadLetter in internal/service/notification_mq.go): one delivery
    after the other until the first error it cannot hand on. */
module Consumer {
  import opened Common
  import opened Notification
  import opened RetryPolicy
  import opened Pipeline

  datatype Broker = Broker(main: seq<Message>, retry1s: seq<Message>, retry5s: seq<Message>, retry30s: seq<Message>,
                           dead: seq<Message>)

  // What the database and the broker answer to one delivery: whether the insert, the ack, the confirmed publication of
  // the scheduled copy, and the ack after it succeed. taken: whether the broker has a copy whose publication reported
  // an error.
  datatype Answers = Answers(insert: bool, ack: bool, publish: bool, taken: bool, ackCopy: bool)

  // Whether the broker has the scheduled copy.
  predicate Took(x: Answers) {
    x.publish || x.taken
  }

  function Routed(b: Broker, m: Message, p: Place): Broker
    requires p.Waiting? || p.Dead?
  {
    match p
    case Dead => b.(dead := b.dead + [m])
    case Waiting(Retry1s) => b.(retry1s := b.retry1s + [m])
    case Waiting(Retry5s) => b.(retry5s := b.retry5s + [m])
    case Waiting(Retry30s) => b.(retry30s := b.retry30s + [m])
  }

  datatype Run = Run(broker: Broker, notices: seq<Notice>, going: bool)

  predicate Inserts(m: Message, x: Answers) {
    x.insert && Complete(m.event, m.draft)
  }

  // One delivery. A delivery that is not acknowledged stays where it was.
  function Handled(b: Broker, notices: seq<Notice>, x: Answers): Run
    requires b.main != []
  {
    var m := b.main[0];
    var rest := b.(main := b.main[1..]);
    var after := if Inserts(m, x) then InsertOnce(notices, m.event, m.draft) else notices;
    var (copy, place) := Next(m);
    if Inserts(m, x) && x.ack then Run(rest, after, true)
    else if !Took(x) then Run(b, after, false)
    else if !x.publish || !x.ackCopy then Run(Routed(b, copy, place), after, false)
    else Run(Routed(rest, copy, place), after, true)
  }

  // The deliveries from the i-th answers on.
  function Consumed(b: Broker, notices: seq<Notice>, xs: seq<Answers>, i: nat): Run
    requires i <= |xs|
    decreases |xs| - i
  {
    if i == |xs| || b.main == [] then Run(b, notices, true)
    else
      var r := Handled(b, notices, xs[i]);
      if r.going then Consumed(r.broker, r.notices, xs, i + 1) else r
  }

  lemma ConsumedStep(b: Broker, notices: seq<Notice>, xs: seq<Answers>, i: nat)
    requires i < |xs| && b.main != []
    ensures var r := Handled(b, notices, xs[i]);
            Consumed(b, notices, xs, i) == if r.going then Consumed(r.broker, r.notices, xs, i + 1) else r
  {
  }

  function Count(ms: seq<Message>, event: string): nat {
    if ms == [] then 0 else Count(ms[..|ms| - 1], event) + (if ms[|ms| - 1].event == event then 1 else 0)
  }

  function Copies(b: Broker, event: string): nat {
    Count(b.main, event) + Count(b.retry1s, event) + Count(b.retry5s, event) + Count(b.retry30s, event)
    + Count(b.dead, event)
  }

  lemma CountPush(ms: seq<Message>, m: Message, event: string)
    ensures Count(ms + [m], event) == Count(ms, event) + (if m.event == event then 1 else 0)
  {
    assert (ms + [m])[..|ms|] == ms;
  }

  lemma {:induction false} CountFirst(ms: seq<Message>, event: string)
    requires ms != []
    ensures Count(ms, event) == (if ms[0].event == event then 1 else 0) + Count(ms[1..], event)
  {
    if |ms| > 1 {
      var init := ms[..|ms| - 1];
      CountFirst(init, event);
      CountPush(init[1..], ms[|ms| - 1], event);
      assert ms[1..] == init[1..] + [ms[|ms| - 1]];
    }
  }

  lemma CopiesRouted(b: Broker, m: Message, p: Place, event: string)
    requires p.Waiting? || p.Dead?
    ensures Copies(Routed(b, m, p), event) == Copies(b, event) + (if m.event == event then 1 else 0)
  {
    match p {
      case Dead => CountPush(b.dead, m, event);
      case Waiting(Retry1s) => CountPush(b.retry1s, m, event);
      case Waiting(Retry5s) => CountPush(b.retry5s, m, event);
      case Waiting(Retry30s) => CountPush(b.retry30s, m, event);
    }
  }

  lemma NewlyStored(notices: seq<Notice>, m: Message, x: Answers, event: string)
    ensures var after := if Inserts(m, x) then InsertOnce(notices, m.event, m.draft) else notices;
            Stored(after, event) <==> Stored(notices, event) || (event == m.event && Inserts(m, x))
  {
    var after := InsertOnce(notices, m.event, m.draft);
    if i :| 0 <= i < |notices| && notices[i].eventId == Some(event) {
      assert after[i] == notices[i];
    }
    if i :| 0 <= i < |after| && after[i].eventId == Some(event) {
      assert i < |notices| ==> after[i] == notices[i];
    }
  }

  /** What a delivery does to the copies of an event: one fewer exactly when its notification was inserted and the ack
      went through; one more exactly when the broker took a scheduled copy and the original was not acknowledged,
      because the confirm of the copy or the ack failed. The loop goes on exactly after an ack, and otherwise leaves the
      delivery where it was. */
  lemma CopiesHandled(b: Broker, notices: seq<Notice>, x: Answers, event: string)
    requires b.main != []
    ensures var m := b.main[0];
            var r := Handled(b, notices, x);
            && (event != m.event ==> Copies(r.broker, event) == Copies(b, event))
            && (event == m.event ==>
                  && (Copies(r.broker, event) == Copies(b, event) - 1 <==> Inserts(m, x) && x.ack)
                  && (Copies(r.broker, event) == Copies(b, event) + 1 <==>
                        !(Inserts(m, x) && x.ack) && Took(x) && !(x.publish && x.ackCopy))
                  && Copies(b, event) - 1 <= Copies(r.broker, event) <= Copies(b, event) + 1)
            && (r.going <==> (Inserts(m, x) && x.ack) || (x.publish && x.ackCopy))
            && r.broker.main == (if r.going then b.main[1..] else b.main)
            && (Stored(r.notices, event) <==> Stored(notices, event) || (event == m.event && Inserts(m, x)))
  {
    var m := b.main[0];
    var (copy, place) := Next(m);
    NewlyStored(notices, m, x, event);
    CountFirst(b.main, event);
    CopiesRouted(b, copy, place, event);
    CopiesRouted(b.(main := b.main[1..]), copy, place, event);
  }

  predicate Kept(b: Broker, notices: seq<Notice>, event: string) {
    Stored(notices, event) || Copies(b, event) > 0
  }

  lemma HandledKeeps(b: Broker, notices: seq<Notice>, x: Answers, event: string)
    requires b.main != []
    ensures var r := Handled(b, notices, x);
            && (Kept(b, notices, event) ==> Kept(r.broker, r.notices, event))
            && (UniqueEvents(notices) ==> UniqueEvents(r.notices))
  {
    CopiesHandled(b, notices, x, event);
  }

  /** Whatever fails, an event that is stored or in a queue still is when the consumer ends. None is stored twice. */
  lemma {:induction false} NothingDropped(b: Broker, notices: seq<Notice>, xs: seq<Answers>, i: nat, event: string)
    requires i <= |xs|
    ensures var r := Consumed(b, notices, xs, i);
            && (Kept(b, notices, event) ==> Kept(r.broker, r.notices, event))
            && (UniqueEvents(notices) ==> UniqueEvents(r.notices))
    decreases |xs| - i
  {
    if i < |xs| && b.main != [] {
      ConsumedStep(b, notices, xs, i);
      HandledKeeps(b, notices, xs[i], event);
      var r := Handled(b, notices, xs[i]);
      if r.going {
        NothingDropped(r.broker, r.notices, xs, i + 1, event);
      }
    }
  }

  predicate Faultless(x: Answers) {
    x.insert && x.ack && x.publish && x.ackCopy
  }

  /** Without faults the main queue is emptied and all of its well-formed messages are stored; the malformed ones
      wait. */
  lemma {:induction false} QueueDrained(b: Broker, notices: seq<Notice>, xs: seq<Answers>, i: nat)
    requires i + |b.main| <= |xs| && forall j :: i <= j < |xs| ==> Faultless(xs[j])
    ensures var r := Consumed(b, notices, xs, i);
            && r.going && r.broker.main == [] && notices <= r.notices
            && forall k :: 0 <= k < |b.main| && Complete(b.main[k].event, b.main[k].draft) ==>
                 Stored(r.notices, b.main[k].event)
    decreases |xs| - i
  {
    if b.main != [] {
      var q := Handled(b, notices, xs[i]);
      ConsumedStep(b, notices, xs, i);
      FaultlessStep(b, notices, xs[i]);
      QueueDrained(q.broker, q.notices, xs, i + 1);
      var r := Consumed(q.broker, q.notices, xs, i + 1);
      forall k | 0 <= k < |b.main| && Complete(b.main[k].event, b.main[k].draft)
        ensures Stored(r.notices, b.main[k].event)
      {
        if k == 0 {
          StaysStored(q.notices, r.notices, b.main[0].event);
        } else {
          assert b.main[1..][k - 1] == b.main[k];
        }
      }
    }
  }

  lemma FaultlessStep(b: Broker, notices: seq<Notice>, x: Answers)
    requires b.main != [] && Faultless(x)
    ensures var q := Handled(b, notices, x);
            && q.going && q.broker.main == b.main[1..] && notices <= q.notices
            && (Complete(b.main[0].event, b.main[0].draft) ==> Stored(q.notices, b.main[0].event))
  {
  }

  lemma StaysStored(a: seq<Notice>, b: seq<Notice>, event: string)
    requires a <= b && Stored(a, event)
    ensures Stored(b, event)
  {
    var i :| 0 <= i < |a| && a[i].eventId == Some(event);
    assert b[i] == a[i];
  }

  // ---- where the copies are ----

  // Messages with these events and drafts, that count from lo to hi failures.
  predicate Counting(ms: seq<Message>, known: set<(string, Draft)>, lo: int, hi: int) {
    forall i :: 0 <= i < |ms| ==>
      (ms[i].event, ms[i].draft) in known && ms[i].header.Int32? && lo <= ms[i].header.i <= hi
  }

  // A first failure waits a second, and so does a second one; from the ninth on nothing is retried.
  predicate Shelved(b: Broker, known: set<(string, Draft)>) {
    && Counting(b.retry1s, known, 1, 2) && Counting(b.retry5s, known, 3, 4) && Counting(b.retry30s, known, 5, 8)
    && Counting(b.dead, known, 9, 9)
    && forall i :: 0 <= i < |b.main| ==>
         (b.main[i].event, b.main[i].draft) in known
         && (b.main[i].header.Absent? || (b.main[i].header.Int32? && 1 <= b.main[i].header.i <= 8))
  }

  // The main queue is worked off from its head, the others grow at their tail.
  predicate Moved(a: Broker, b: Broker) {
    && |b.main| <= |a.main| && b.main == a.main[|a.main| - |b.main|..]
    && a.retry1s <= b.retry1s && a.retry5s <= b.retry5s && a.retry30s <= b.retry30s && a.dead <= b.dead
  }

  // The copy of a message that fails for the c-th time and one more.
  lemma NextShelf(m: Message, c: int)
    requires 0 <= c <= 8 && (m.header == Int32(c) || (c == 0 && m.header.Absent?))
    ensures Next(m).0 == m.(header := Int32(c + 1))
    ensures Next(m).1 == if c == 8 then Dead
                         else Waiting(if c >= 4 then Retry30s else if c >= 2 then Retry5s else Retry1s)
  {
    SaysCount(m.header, c);
    FailureStep(m.header);
  }

  lemma RoutedShelved(b: Broker, m: Message, c: int, known: set<(string, Draft)>)
    requires Shelved(b, known) && (m.event, m.draft) in known
    requires 0 <= c <= 8 && (m.header == Int32(c) || (c == 0 && m.header.Absent?))
    ensures var r := Routed(b, Next(m).0, Next(m).1); Shelved(r, known) && Moved(b, r) && r.main == b.main
  {
    NextShelf(m, c);
  }

  lemma MovedOn(a: Broker, b: Broker, c: Broker)
    requires Moved(a, b) && Moved(b, c)
    ensures Moved(a, c)
  {
  }

  lemma HandledCases(b: Broker, notices: seq<Notice>, x: Answers)
    requires b.main != []
    ensures var m, rest, r := b.main[0], b.(main := b.main[1..]), Handled(b, notices, x).broker;
            r == b || r == rest || r == Routed(b, Next(m).0, Next(m).1) || r == Routed(rest, Next(m).0, Next(m).1)
  {
  }

  lemma HeadTaken(b: Broker, known: set<(string, Draft)>)
    requires b.main != [] && Shelved(b, known)
    ensures var rest := b.(main := b.main[1..]); Shelved(rest, known) && Moved(b, rest) && Moved(b, b)
  {
  }

  lemma HandledShelved(b: Broker, notices: seq<Notice>, x: Answers, known: set<(string, Draft)>)
    requires b.main != [] && Shelved(b, known)
    ensures Shelved(Handled(b, notices, x).broker, known) && Moved(b, Handled(b, notices, x).broker)
  {
    var m, rest := b.main[0], b.(main := b.main[1..]);
    var c := if m.header.Int32? then m.header.i else 0;
    HandledCases(b, notices, x);
    HeadTaken(b, known);
    RoutedShelved(b, m, c, known);
    RoutedShelved(rest, m, c, known);
    MovedOn(b, rest, Routed(rest, Next(m).0, Next(m).1));
  }

  // From one broker to a later one.
  ghost predicate Served(a: Broker, b: Broker, known: set<(string, Draft)>) {
    Shelved(a, known) ==> Shelved(b, known) && Moved(a, b)
  }

  lemma HandledServed(b: Broker, notices: seq<Notice>, x: Answers, known: set<(string, Draft)>)
    requires b.main != []
    ensures Served(b, Handled(b, notices, x).broker, known)
  {
    if Shelved(b, known) {
      HandledShelved(b, notices, x, known);
    }
  }

  lemma ServedSelf(b: Broker, known: set<(string, Draft)>)
    ensures Served(b, b, known)
  {
    assert b.main[0..] == b.main;
  }

  lemma ServedOn(a: Broker, b: Broker, c: Broker, known: set<(string, Draft)>)
    requires Served(a, b, known) && Served(b, c, known)
    ensures Served(a, c, known)
  {
    if Shelved(a, known) {
      MovedOn(a, b, c);
    }
  }

  lemma {:induction false} ConsumedServed(b: Broker, notices: seq<Notice>, xs: seq<Answers>, i: nat,
                                          known: set<(string, Draft)>)
    requires i <= |xs|
    ensures Served(b, Consumed(b, notices, xs, i).broker, known)
    decreases |xs| - i
  {
    if i < |xs| && b.main != [] {
      ConsumedStep(b, notices, xs, i);
      HandledServed(b, notices, xs[i], known);
      var r := Handled(b, notices, xs[i]);
      if r.going {
        ConsumedServed(r.broker, r.notices, xs, i + 1, known);
        ServedOn(b, r.broker, Consumed(r.broker, r.notices, xs, i + 1).broker, known);
      }
    } else {
      ServedSelf(b, known);
    }
  }

  /** Whatever fails and in whatever order: a copy that has failed once or twice goes to the queue of one second, after
      three or four failures to that of five, after five to eight to that of thirty, and after nine to the dead-letter
      queue, with its event and draft as they were. Each queue is served from its head and filled at its tail. */
  lemma CopiesShelved(b: Broker, notices: seq<Notice>, xs: seq<Answers>, i: nat, known: set<(string, Draft)>)
    requires i <= |xs| && Shelved(b, known)
    ensures var r := Consumed(b, notices, xs, i).broker; Shelved(r, known) && Moved(b, r)
  {
    ConsumedServed(b, notices, xs, i, known);
  }

  class Connection {
    var broker: Broker
    var table: NoticeTable

    constructor (broker: Broker, table: NoticeTable)
      ensures this.broker == broker && this.table == table
    {
      this.broker := broker;
      this.table := table;
    }

    // publishConfirmed to the exchange and key of the attempt, then the ack of the original.
    method RetryOrDeadLetter(m: Message, x: Answers) returns (ok: bool)
      requires broker.main != [] && broker.main[0] == m
      modifies `broker
      ensures ok <==> x.publish && x.ackCopy
      ensures broker == if !Took(x) then old(broker)
                        else
                          var left := if ok then old(broker).(main := old(broker).main[1..]) else old(broker);
                          Routed(left, Next(m).0, Next(m).1)
    {
      if !Took(x) {
        return false;
      }
      var attempt := WrapInt64(RetryCount(m.header) + 1);
      var copy := m.(header := Int32(WrapInt32(attempt)));
      if attempt > MAX_RETRIES {
        broker := broker.(dead := broker.dead + [copy]);
      } else {
        var queue := Retry1s;
        if attempt >= 3 {
          queue := Retry5s;
        }
        if attempt >= 5 {
          queue := Retry30s;
        }
        broker := Routed(broker, copy, Waiting(queue));
      }
      if !x.publish || !x.ackCopy {
        return false;
      }
      broker := broker.(main := broker.main[1..]);
      ok := true;
    }

    // Processing, then the ack.
    method ProcessBeforeAck(m: Message, x: Answers) returns (ok: bool)
      requires broker.main != [] && broker.main[0] == m
      modifies `broker, table
      ensures ok <==> Inserts(m, x) && x.ack
      ensures broker == if ok then old(broker).(main := old(broker).main[1..]) else old(broker)
      ensures table.rows == if Inserts(m, x) then InsertOnce(old(table.rows), m.event, m.draft) else old(table.rows)
    {
      ok := Process(table, Some((m.event, m.draft)), x.insert);
      if !ok || !x.ack {
        return false;
      }
      broker := broker.(main := broker.main[1..]);
    }

    // What the loop does with one delivery.
    method Deliver(x: Answers) returns (going: bool)
      requires broker.main != []
      modifies `broker, table
      ensures Run(broker, table.rows, going) == Handled(old(broker), old(table.rows), x)
    {
      var m := broker.main[0];
      going := ProcessBeforeAck(m, x);
      if !going {
        going := RetryOrDeadLetter(m, x);
      }
    }

    method Consume(xs: seq<Answers>) returns (going: bool)
      modifies `broker, table
      ensures Run(broker, table.rows, going) == Consumed(old(broker), old(table.rows), xs, 0)
    {
      var i := 0;
      while i < |xs| && broker.main != []
        invariant 0 <= i <= |xs|
        invariant Consumed(broker, table.rows, xs, i) == Consumed(old(broker), old(table.rows), xs, 0)
      {
        ConsumedStep(broker, table.rows, xs, i);
        going := Deliver(xs[i]);
        if !going {
          return;
        }
        i := i + 1;
      }
      going := true;
    }
  }
}

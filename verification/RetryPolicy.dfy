/** The consumer's delayed retries and dead-lettering (retryOrDeadLetter in internal/service/notification_mq.go). */
module RetryPolicy {
  import opened Common

  datatype Queue = Retry1s | Retry5s | Retry30s

  const MAX_RETRIES := 8

  // The dynamic type an AMQP header value arrives with.
  datatype Header = Absent | Int32(i: int) | Int64(l: int) | Int(n: int) | Uint64(u: nat) | Other

  const TWO63: int := 0x8000_0000_0000_0000
  const TWO64: int := 0x1_0000_0000_0000_0000
  const TWO31: int := 0x8000_0000
  const TWO32: int := 0x1_0000_0000

  // Go's int is 64 bits wide and wraps.
  function WrapInt64(x: int): int { (x + TWO63) % TWO64 - TWO63 }

  function WrapInt32(x: int): int { (x + TWO31) % TWO32 - TWO31 }

  lemma WrapInRange(x: int)
    ensures -TWO63 <= WrapInt64(x) < TWO63 && -TWO31 <= WrapInt32(x) < TWO31
    ensures -TWO63 <= x < TWO63 ==> WrapInt64(x) == x
    ensures WrapInt64(TWO63) == -TWO63
    ensures -TWO31 <= x < TWO31 ==> WrapInt32(x) == x
  {
    assert -TWO63 <= x < TWO63 ==> (x + TWO63) % TWO64 == x + TWO63;
    assert -TWO31 <= x < TWO31 ==> (x + TWO31) % TWO32 == x + TWO31;
  }

  predicate InRange(h: Header) {
    match h
    case Int32(i) => -TWO31 <= i < TWO31
    case Int64(l) => -TWO63 <= l < TWO63
    case Int(n) => -TWO63 <= n < TWO63
    case Uint64(u) => u < TWO64
    case _ => true
  }

  function RetryCount(h: Header): int {
    match h
    case Int32(i) => i
    case Int64(l) => l
    case Int(n) => n
    case Uint64(u) => WrapInt64(u)
    case Absent => 0
    case Other => 0
  }

  datatype Route = Delayed(queue: Queue) | DeadLetter

  // Where a failed delivery is sent on, and the header the copy carries.
  function Schedule(h: Header): (Route, Header) {
    var attempt := WrapInt64(RetryCount(h) + 1);
    var header := Int32(WrapInt32(attempt));
    if attempt > MAX_RETRIES then (DeadLetter, header)
    else if attempt >= 5 then (Delayed(Retry30s), header)
    else if attempt >= 3 then (Delayed(Retry5s), header)
    else (Delayed(Retry1s), header)
  }

  function Ttl(q: Queue): Time {
    match q
    case Retry1s => 1 * SECOND
    case Retry5s => 5 * SECOND
    case Retry30s => 30 * SECOND
  }

  /** For every type and value a header can have: a failure is dead-lettered exactly when the header counts eight or
      more, the largest Go int excepted: its successor wraps around and the message starts over. A header that is
      missing or of another type counts nothing; an unsigned one beyond Go's int counts as negative. */
  lemma DeadLetteredExactly(h: Header)
    requires InRange(h)
    ensures Schedule(h).0 == DeadLetter
       <==> match h
            case Absent => false
            case Other => false
            case Int32(i) => i >= 8
            case Int64(l) => 8 <= l < 0x7fff_ffff_ffff_ffff
            case Int(n) => 8 <= n < 0x7fff_ffff_ffff_ffff
            case Uint64(u) => 8 <= u < 0x7fff_ffff_ffff_ffff
    ensures InRange(Schedule(h).1)
  {
    if h.Uint64? && h.u >= TWO63 {
      assert WrapInt64(h.u) == h.u - TWO64;
    }
    CountInRange(h);
    WrapInRange(RetryCount(h) + 1);
    WrapInRange(WrapInt64(RetryCount(h) + 1));
  }

  lemma CountInRange(h: Header)
    requires InRange(h)
    ensures -TWO63 <= RetryCount(h) < TWO63
    ensures h.Uint64? && h.u < TWO63 ==> RetryCount(h) == h.u
  {
    if h.Uint64? {
      WrapInRange(h.u);
    }
  }

  // The header counts c.
  predicate Says(h: Header, c: int) {
    || h == Int32(c) || h == Int64(c) || h == Int(c) || (c >= 0 && h == Uint64(c))
    || (c == 0 && (h.Absent? || h.Other?))
  }

  // One failure of a message whose count is in the range the service itself writes.
  lemma FailureStep(h: Header)
    requires InRange(h) && -TWO31 <= RetryCount(h) < TWO31 - 1
    ensures Schedule(h).1 == Int32(RetryCount(h) + 1)
    ensures Schedule(h).0 == DeadLetter <==> RetryCount(h) >= MAX_RETRIES
  {
    WrapInRange(RetryCount(h) + 1);
  }

  // A message whose every processing fails, each copy being scheduled: its delays until it is in the dead-letter queue.
  function Journey(h: Header): seq<Time>
    requires InRange(h) && -TWO31 <= RetryCount(h) < TWO31 - 1
    decreases if RetryCount(h) > MAX_RETRIES then 0 else MAX_RETRIES + 1 - RetryCount(h)
  {
    FailureStep(h);
    match Schedule(h)
    case (DeadLetter, _) => []
    case (Delayed(queue), next) => [Ttl(queue)] + Journey(next)
  }

  const DELAYS: seq<Time> := [1000, 1000, 5000, 5000, 30000, 30000, 30000, 30000]

  function Ones(n: nat): seq<Time> {
    if n == 0 then [] else [1000] + Ones(n - 1)
  }

  // The first wait, and what is left of the journey.
  lemma Departs(h: Header, c: int)
    requires InRange(h) && RetryCount(h) == c && -TWO31 <= c < 8
    ensures InRange(Int32(c + 1))
    ensures Journey(h) == [if c >= 4 then 30000 else if c >= 2 then 5000 else 1000] + Journey(Int32(c + 1))
  {
    FailureStep(h);
    WrapInRange(c + 1);
  }

  lemma SaysCount(h: Header, c: int)
    requires -TWO31 <= c < TWO31 && Says(h, c)
    ensures InRange(h) && RetryCount(h) == c
  {
    WrapInRange(c);
  }

  // The waits from a count on.
  function Waits(c: int): seq<Time> {
    if c >= 8 then [] else if c >= 0 then DELAYS[c..] else Ones(-c) + DELAYS
  }

  lemma NextWait(c: int)
    requires c < 8
    ensures Waits(c) == [if c >= 4 then 30000 else if c >= 2 then 5000 else 1000] + Waits(c + 1)
  {
    if c == -1 {
      assert Ones(1) == [1000] + Ones(0) == [1000];
    } else if c < 0 {
      assert Ones(-c) == [1000] + Ones(-(c + 1));
    } else {
      assert DELAYS[c..] == [DELAYS[c]] + DELAYS[c + 1..];
    }
  }

  /** A message that always fails and starts without a count waits twice one, twice five and four times thirty seconds;
      its ninth failure is dead-lettered. From a count on, the waits before it are left out; a negative one costs as
      many further waits of a second. */
  lemma {:induction false} NinthFailureIsDead(h: Header, c: int)
    requires -TWO31 <= c < TWO31 - 1 && Says(h, c)
    ensures InRange(h) && RetryCount(h) == c
    ensures Journey(h) == if c >= 8 then [] else if c >= 0 then DELAYS[c..] else Ones(-c) + DELAYS
    decreases if c > MAX_RETRIES then 0 else MAX_RETRIES + 1 - c
  {
    SaysCount(h, c);
    if c < 8 {
      Departs(h, c);
      NinthFailureIsDead(Int32(c + 1), c + 1);
      NextWait(c);
    } else {
      FailureStep(h);
    }
  }
}

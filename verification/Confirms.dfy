/** Publisher confirms on one AMQP channel (publishConfirmed and awaitPublishConfirmation in
    internal/service/notification_mq.go). */
module Confirms {
  import opened Common

  // What the channel's reader receives from the broker; tags number the published messages of the channel.
  datatype Frame = Returned(tag: nat) | Answer(tag: nat, ack: bool) | Closed

  // wire: sent by the broker, not dispatched yet. bounced, answers: the two buffered Go channels.
  datatype Channel = Channel(wire: seq<Frame>, bounced: seq<nat>, answers: seq<(nat, bool)>, closed: bool, next: nat)

  const OPENED := Channel([], [], [], false, 1)

  // What the broker does with one mandatory message: a Basic.Return goes out before the matching confirm, the
  // confirm may never come, and the connection may go down.
  datatype Verdict = Verdict(returned: bool, answer: Option<bool>, closes: bool)

  // Everything the scheduler decides within one call: whether the write fails, how many frames the reader has
  // dispatched when a select looks, which ready case it picks, and whether the context ends first.
  datatype Schedule = Schedule(writeFails: bool, first: nat, cancelled: bool, takeReturn: bool, second: nat)

  function Frames(tag: nat, v: Verdict): seq<Frame> {
    (if v.returned then [Returned(tag)] else [])
    + (if v.answer.Some? then [Answer(tag, v.answer.value)] else [])
    + (if v.closes then [Closed] else [])
  }

  // The reader moves the oldest frame of the wire into the Go channels.
  function Read(ch: Channel): Channel
    requires ch.wire != []
  {
    var rest := ch.(wire := ch.wire[1..]);
    match ch.wire[0]
    case Returned(tag) => rest.(bounced := rest.bounced + [tag])
    case Answer(tag, ack) => rest.(answers := rest.answers + [(tag, ack)])
    case Closed => rest.(closed := true)
  }

  function Dispatch(ch: Channel, frames: nat): Channel
    decreases frames
  {
    if frames == 0 || ch.wire == [] then ch else Dispatch(Read(ch), frames - 1)
  }

  function Drop<T>(s: seq<T>): seq<T> {
    if s == [] then [] else s[1..]
  }

  // awaitPublishConfirmation: whether it returned nil, and the channel it leaves.
  function Await(ch: Channel, s: Schedule): (bool, Channel) {
    var ready := Dispatch(ch, s.first);
    if s.cancelled then (false, ready)
    else if (ready.bounced != [] || ready.closed) && (s.takeReturn || ready.answers == []) then
      // the returned message's own confirm is consumed as well; every way out is an error
      var after := Dispatch(ready.(bounced := Drop(ready.bounced)), s.second);
      (false, if ready.bounced == [] then after else after.(answers := Drop(after.answers)))
    else if ready.answers != [] then
      var rest := ready.(answers := ready.answers[1..]);
      if !ready.answers[0].1 then (false, rest)
      else
        var last := Dispatch(rest, s.second);
        if last.bounced != [] then (false, last.(bounced := last.bounced[1..]))
        else (!last.closed, last)
    else (false, ready)
  }

  function Publish(ch: Channel, v: Verdict, s: Schedule): (bool, Channel) {
    if s.writeFails then (false, ch)
    else Await(Sent(ch, v), s)
  }

  // A connection that is down, or has its end on the wire, brings nothing more.
  predicate Doomed(ch: Channel) {
    ch.closed || Closed in ch.wire
  }

  function Sent(ch: Channel, v: Verdict): Channel {
    ch.(wire := ch.wire + (if Doomed(ch) then [] else Frames(ch.next, v)), next := ch.next + 1)
  }

  // Both Go channels drained, and no frame of an earlier message on the way.
  predicate Drained(ch: Channel) {
    ch.bounced == [] && ch.answers == [] && (ch.wire == [] || ch.wire == [Closed])
  }

  predicate Accepted(v: Verdict) {
    v.answer == Some(true) && !v.returned
  }

  // What the reader makes of at most two frames followed by silence.
  lemma DispatchUpTo(ch: Channel, n: nat)
    ensures ch.wire == [] || n == 0 ==> Dispatch(ch, n) == ch
    ensures ch.wire != [] && n == 1 ==> Dispatch(ch, n) == Read(ch)
    ensures |ch.wire| == 1 && n >= 1 ==> Dispatch(ch, n) == Read(ch)
    ensures |ch.wire| >= 2 && n == 2 ==> Dispatch(ch, n) == Read(Read(ch))
    ensures |ch.wire| == 2 && n >= 2 ==> Dispatch(ch, n) == Read(Read(ch))
  {
    if n > 0 && ch.wire != [] {
      assert Dispatch(ch, n) == Dispatch(Read(ch), n - 1);
      if n > 1 && |ch.wire| > 1 {
        assert Dispatch(Read(ch), n - 1) == Dispatch(Read(Read(ch)), n - 2);
      }
    }
  }

  lemma CallUnreturned(ch: Channel, v: Verdict, s: Schedule)
    requires Drained(ch) && !Doomed(ch) && !v.returned && !s.writeFails && !s.cancelled
    ensures Publish(ch, v, s).0 <==>
              v.answer == Some(true) && s.first >= 1 && (v.closes ==> s.first < 2 && s.first + s.second < 2)
    ensures Publish(ch, v, s).0 ==> Drained(Publish(ch, v, s).1)
  {
    var sent := Sent(ch, v);
    assert sent.wire == Frames(ch.next, v);
    DispatchUpTo(sent, s.first);
    var ready := Dispatch(sent, s.first);
    if ready.answers != [] {
      DispatchUpTo(ready.(answers := ready.answers[1..]), s.second);
    }
  }

  lemma ReturnSeen(ch: Channel, n: nat)
    requires ch.wire != [] && ch.wire[0].Returned? && n > 0
    ensures Dispatch(ch, n).bounced != []
  {
    assert Dispatch(ch, n) == Dispatch(Read(ch), n - 1);
    DispatchKeeps(Read(ch), n - 1);
  }

  lemma CallReturned(ch: Channel, v: Verdict, s: Schedule)
    requires Drained(ch) && !Doomed(ch) && v.returned && !s.writeFails && !s.cancelled
    ensures !Publish(ch, v, s).0
  {
    var sent := Sent(ch, v);
    assert sent.wire == Frames(ch.next, v);
    assert sent.wire[0].Returned?;
    if s.first > 0 {
      ReturnSeen(sent, s.first);
      StillReturned(Dispatch(sent, s.first), s);
    }
  }

  // A return that is seen in time fails the call, whatever is looked at first.
  lemma StillReturned(ready: Channel, s: Schedule)
    requires ready.bounced != []
    ensures ready.answers != [] ==> Dispatch(ready.(answers := ready.answers[1..]), s.second).bounced != []
  {
    if ready.answers != [] {
      DispatchKeeps(ready.(answers := ready.answers[1..]), s.second);
    }
  }

  lemma {:induction false} DispatchKeeps(ch: Channel, n: nat)
    ensures ch.bounced <= Dispatch(ch, n).bounced && ch.answers <= Dispatch(ch, n).answers
    ensures ch.closed ==> Dispatch(ch, n).closed
    decreases n
  {
    if n > 0 && ch.wire != [] {
      DispatchKeeps(Read(ch), n - 1);
    }
  }

  lemma CallDoomed(ch: Channel, v: Verdict, s: Schedule)
    requires Drained(ch) && Doomed(ch)
    ensures !Publish(ch, v, s).0
  {
    var sent := Sent(ch, v);
    assert sent.wire == ch.wire;
    DispatchUpTo(sent, s.first);
  }

  /** From a drained channel nil means exactly: the channel was up, the write succeeded, the context lived, the
      message's own confirm arrived and was an ack, the message was not returned, and the connection was still up when
      the call looked for a return. The channel is then drained again. */
  lemma AlignedCall(ch: Channel, v: Verdict, s: Schedule)
    requires Drained(ch)
    ensures Publish(ch, v, s).0 <==>
              && !Doomed(ch) && !s.writeFails && !s.cancelled && Accepted(v) && s.first >= 1
              && (v.closes ==> s.first < 2 && s.first + s.second < 2)
    ensures Publish(ch, v, s).0 ==> Drained(Publish(ch, v, s).1)
  {
    if Doomed(ch) {
      CallDoomed(ch, v, s);
    } else if !s.writeFails && !s.cancelled {
      if v.returned {
        CallReturned(ch, v, s);
      } else {
        CallUnreturned(ch, v, s);
      }
    }
  }

  // Every frame of the message is dispatched while the call waits, and one at least before it looks.
  predicate AllSeen(v: Verdict, s: Schedule) {
    !v.closes && s.first >= 1 && s.first + s.second >= 2
  }

  lemma TakenReturn(ch: Channel, v: Verdict, s: Schedule)
    requires Drained(ch) && !Doomed(ch) && !s.writeFails && !s.cancelled && AllSeen(v, s) && v.returned
    requires s.takeReturn || s.first == 1 || v.answer.None?
    ensures Drained(Publish(ch, v, s).1)
  {
    var sent := Sent(ch, v);
    assert sent.wire == Frames(ch.next, v);
    DispatchUpTo(sent, s.first);
    var ready := Dispatch(sent, s.first);
    DispatchUpTo(ready.(bounced := Drop(ready.bounced)), s.second);
  }

  lemma TakenAnswer(ch: Channel, v: Verdict, s: Schedule)
    requires Drained(ch) && !Doomed(ch) && !s.writeFails && !s.cancelled && AllSeen(v, s)
    requires !v.returned || (!s.takeReturn && s.first > 1 && v.answer.Some?)
    ensures Drained(Publish(ch, v, s).1) <==> !v.returned || v.answer == Some(true)
  {
    var sent := Sent(ch, v);
    assert sent.wire == Frames(ch.next, v);
    DispatchUpTo(sent, s.first);
    var ready := Dispatch(sent, s.first);
    if ready.answers != [] {
      DispatchUpTo(ready.(answers := ready.answers[1..]), s.second);
    }
  }

  /** What a call leaves behind, when it succeeds or fails: once all frames of its message were dispatched nothing of it
      is left, its confirm and its return taken, but for one case: the call finds the return and a nack waiting and
      takes the nack. */
  lemma LeavesNothing(ch: Channel, v: Verdict, s: Schedule)
    requires Drained(ch) && !Doomed(ch) && !s.writeFails && !s.cancelled && AllSeen(v, s)
    ensures Drained(Publish(ch, v, s).1) <==> !(v.returned && v.answer == Some(false) && s.first >= 2 && !s.takeReturn)
  {
    if !v.returned || (!s.takeReturn && s.first > 1 && v.answer.Some?) {
      TakenAnswer(ch, v, s);
    } else {
      TakenReturn(ch, v, s);
    }
  }

  datatype Call = Call(verdict: Verdict, schedule: Schedule)

  // The calls made on one channel: the first error ends its use.
  function Session(ch: Channel, calls: seq<Call>): seq<bool>
    decreases |calls|
  {
    if calls == [] then []
    else
      var (ok, after) := Publish(ch, calls[0].verdict, calls[0].schedule);
      [ok] + (if ok then Session(after, calls[1..]) else [])
  }

  /** Over any run of one channel, nil is returned for a message only if that message itself was acked and not
      returned; only the last call can have failed. */
  lemma {:induction false} SessionAligned(ch: Channel, calls: seq<Call>, i: nat)
    requires Drained(ch) && i < |Session(ch, calls)|
    ensures |Session(ch, calls)| <= |calls|
    ensures Session(ch, calls)[i] ==> Accepted(calls[i].verdict)
    ensures i < |Session(ch, calls)| - 1 ==> Session(ch, calls)[i]
    decreases |calls|
  {
    var (ok, after) := Publish(ch, calls[0].verdict, calls[0].schedule);
    AlignedCall(ch, calls[0].verdict, calls[0].schedule);
    if ok && Session(after, calls[1..]) != [] {
      SessionAligned(after, calls[1..], if i == 0 then 0 else i - 1);
    }
  }

  // ---- a channel that is kept with frames of earlier messages on it ----

  // The confirm a call can take first: the oldest in the Go channel, or else the next frame.
  function NextAnswer(ch: Channel): Option<(nat, bool)> {
    if ch.answers != [] then Some(ch.answers[0])
    else if ch.wire != [] && ch.wire[0].Answer? then Some((ch.wire[0].tag, ch.wire[0].ack))
    else None
  }

  lemma {:induction false} FirstTaken(ch: Channel, n: nat)
    requires Dispatch(ch, n).bounced == [] && !Dispatch(ch, n).closed && Dispatch(ch, n).answers != []
    ensures NextAnswer(ch) == Some(Dispatch(ch, n).answers[0])
    decreases n
  {
    DispatchKeeps(ch, n);
    if ch.answers == [] {
      assert n > 0 && ch.wire != [];
      DispatchKeeps(Read(ch), n - 1);
      FirstTaken(Read(ch), n - 1);
    }
  }

  lemma NilTakesNext(ch: Channel, v: Verdict, s: Schedule)
    requires Publish(ch, v, s).0
    ensures ch.bounced == [] && NextAnswer(Sent(ch, v)).Some? && NextAnswer(Sent(ch, v)).value.1
  {
    var sent := Sent(ch, v);
    var ready := Dispatch(sent, s.first);
    var rest := ready.(answers := ready.answers[1..]);
    DispatchKeeps(rest, s.second);
    DispatchKeeps(sent, s.first);
    FirstTaken(sent, s.first);
  }

  lemma NextMakesNil(ch: Channel, v: Verdict)
    requires !ch.closed && ch.bounced == [] && NextAnswer(Sent(ch, v)).Some? && NextAnswer(Sent(ch, v)).value.1
    ensures Publish(ch, v, Schedule(false, if ch.answers != [] then 0 else 1, false, false, 0)).0
  {
    var sent := Sent(ch, v);
    DispatchUpTo(sent, if ch.answers != [] then 0 else 1);
  }

  /** Whatever a channel carries from before, a call can return nil if and only if no return is waiting and the first
      confirm it can take is an ack. */
  lemma NilExactly(ch: Channel, v: Verdict)
    requires !ch.closed
    ensures (exists s :: Publish(ch, v, s).0)
       <==> ch.bounced == [] && NextAnswer(Sent(ch, v)).Some? && NextAnswer(Sent(ch, v)).value.1
  {
    if s :| Publish(ch, v, s).0 {
      NilTakesNext(ch, v, s);
    }
    if ch.bounced == [] && NextAnswer(Sent(ch, v)).Some? && NextAnswer(Sent(ch, v)).value.1 {
      NextMakesNil(ch, v);
    }
  }

  /** So a confirm left over from an earlier call answers for the next message, whatever the broker says of that one: it
      can be reported as accepted if and only if the leftover is an ack. */
  lemma LeftoverAnswers(ch: Channel, v: Verdict)
    requires !ch.closed && ch.bounced == [] && NextAnswer(ch).Some?
    ensures (exists s :: Publish(ch, v, s).0) <==> NextAnswer(ch).value.1
  {
    NilExactly(ch, v);
    assert NextAnswer(Sent(ch, v)) == NextAnswer(ch);
  }

  /** A witness: with the channel kept, a cancelled call's late ack answers for the next message, which the broker
      rejected. */
  lemma KeepingTheChannelMisaligns()
    ensures var first := Publish(OPENED, Verdict(false, Some(true), false), Schedule(false, 0, true, false, 0));
            var second := Publish(first.1, Verdict(false, Some(false), false), Schedule(false, 1, false, false, 0));
            !first.0 && second.0
  {
    var sent := Sent(OPENED, Verdict(false, Some(true), false));
    assert sent.wire == [Answer(1, true)];
    var again := Sent(sent, Verdict(false, Some(false), false));
    assert again.wire == [Answer(1, true), Answer(2, false)];
    DispatchUpTo(again, 1);
  }

  /** The channel as the publisher holds it. */
  class Publisher {
    var wire: seq<Frame>
    var bounced: seq<nat>
    var answers: seq<(nat, bool)>
    var closed: bool
    var next: nat

    function View(): Channel
      reads this
    {
      Channel(wire, bounced, answers, closed, next)
    }

    constructor ()
      ensures View() == OPENED
    {
      wire, bounced, answers, closed, next := [], [], [], false, 1;
    }

    method Receive(frames: nat)
      modifies this
      ensures View() == Dispatch(old(View()), frames)
    {
      var left := frames;
      while left > 0 && wire != []
        invariant 0 <= left
        invariant Dispatch(View(), left) == Dispatch(old(View()), frames)
      {
        match wire[0] {
          case Returned(tag) => bounced := bounced + [tag];
          case Answer(tag, ack) => answers := answers + [(tag, ack)];
          case Closed => closed := true;
        }
        wire := wire[1..];
        left := left - 1;
      }
    }

    method AwaitConfirmation(s: Schedule) returns (ok: bool)
      modifies this
      ensures (ok, View()) == Await(old(View()), s)
    {
      Receive(s.first);
      if s.cancelled {
        return false;
      }
      if (bounced != [] || closed) && (s.takeReturn || answers == []) {
        var wasReturned := bounced != [];
        bounced := Drop(bounced);
        Receive(s.second);
        if wasReturned {
          answers := Drop(answers);
        }
        return false;
      }
      if answers == [] {
        return false;
      }
      var ack := answers[0].1;
      answers := answers[1..];
      if !ack {
        return false;
      }
      Receive(s.second);
      if bounced != [] {
        bounced := bounced[1..];
        return false;
      }
      return !closed;
    }

    method PublishConfirmed(v: Verdict, s: Schedule) returns (ok: bool)
      modifies this
      ensures (ok, View()) == Publish(old(View()), v, s)
    {
      if s.writeFails {
        return false;
      }
      if !(closed || Closed in wire) {
        wire := wire + Frames(next, v);
      }
      next := next + 1;
      assert wire == Sent(old(View()), v).wire;
      ok := AwaitConfirmation(s);
    }
  }
}

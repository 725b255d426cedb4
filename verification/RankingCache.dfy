/** The Top-5 snapshot of the article board and its rebuilds (internal/service/content_ranking.go). */
module RankingCache {
  import opened Common

  const CACHE_TTL: Time := 10 * SECOND

  // stored: when the snapshot was stored, if ever.
  predicate Fresh(stored: Option<Time>, now: Time) {
    stored.Some? && now < stored.value + CACHE_TTL
  }

  // Where a Top-5 request is after its first, stale look at the snapshot.
  datatype Phase = Missed | Entered | Rebuilding | Joined

  // What a request was answered with: a snapshot, by its store time, or None for the empty page of a failed rebuild.
  // at: when the refresh that produced it ended, or when the first look found it.
  datatype Answer = Answer(w: nat, at: Time, stored: Option<Time>)

  // shared: whether singleflight is enabled. flight: the request whose refresh runs now.
  // log: when snapshots were stored; answers: what requests were answered with.
  datatype State = State(shared: bool, stored: Option<Time>, requests: map<nat, Phase>, flight: Option<nat>,
                         clock: Time, log: seq<Time>, answers: set<Answer>)

  function Init(shared: bool): State {
    State(shared, None, map[], None, 0, [], {})
  }

  datatype Step =
    | Ask(w: nat, now: Time)
    | Enter(w: nat)
    | Check(w: nat, now: Time)
    | Store(w: nat, now: Time)
    | Fail(w: nat, now: Time)

  predicate In(s: State, w: nat, p: Phase) {
    w in s.requests && s.requests[w] == p
  }

  predicate Enabled(s: State, e: Step) {
    match e
    case Ask(w, now) => w !in s.requests && now >= s.clock
    case Enter(w) => In(s, w, Missed)
    case Check(w, now) => In(s, w, Entered) && now >= s.clock
    case Store(w, now) => In(s, w, Rebuilding) && now >= s.clock
    case Fail(w, now) => In(s, w, Rebuilding) && now >= s.clock
  }

  // Whom the end of a refresh answers: its caller and, with singleflight, everyone who joined it.
  function Waiting(s: State, w: nat): set<nat> {
    {w} + if s.shared then set x | x in s.requests && s.requests[x] == Joined else {}
  }

  function Finished(s: State, w: nat, now: Time, stored: Option<Time>): State {
    s.(requests := s.requests - Waiting(s, w), flight := if s.shared then None else s.flight, clock := now,
       answers := s.answers + set x | x in Waiting(s, w) :: Answer(x, now, stored))
  }

  function Apply(s: State, e: Step): State
    requires Enabled(s, e)
  {
    match e
    case Ask(w, now) =>
      if Fresh(s.stored, now) then s.(answers := s.answers + {Answer(w, now, s.stored)}, clock := now)
      else s.(requests := s.requests[w := Missed], clock := now)
    case Enter(w) =>
      if !s.shared then s.(requests := s.requests[w := Entered])
      else if s.flight.Some? then s.(requests := s.requests[w := Joined])
      else s.(requests := s.requests[w := Entered], flight := Some(w))
    case Check(w, now) =>
      if Fresh(s.stored, now) then Finished(s, w, now, s.stored)
      else s.(requests := s.requests[w := Rebuilding], clock := now)
    case Store(w, now) => Finished(s, w, now, Some(now)).(stored := Some(now), log := s.log + [now])
    case Fail(w, now) => Finished(s, w, now, None)
  }

  predicate Run(s: State, es: seq<Step>)
    decreases |es|
  {
    es == [] || (Enabled(s, es[0]) && Run(Apply(s, es[0]), es[1..]))
  }

  function Final(s: State, es: seq<Step>): State
    requires Run(s, es)
    decreases |es|
  {
    if es == [] then s else Final(Apply(s, es[0]), es[1..])
  }

  ghost predicate Spaced(log: seq<Time>) {
    forall i :: 0 < i < |log| ==> log[i] >= log[i - 1] + CACHE_TTL
  }

  // ---- answers, with or without singleflight ----

  ghost predicate AnswerOk(s: State, x: Answer) {
    x.stored.Some? ==> x.stored.value in s.log && x.stored.value <= x.at < x.stored.value + CACHE_TTL
  }

  ghost predicate AnswersOk(s: State) {
    && (s.stored.Some? <==> s.log != [])
    && (s.stored.Some? ==> s.stored.value == s.log[|s.log| - 1] <= s.clock)
    && (forall x :: x in s.answers ==> AnswerOk(s, x))
  }

  // With singleflight the flight is the one refresh that runs; joined requests have a flight.
  ghost predicate Attended(s: State) {
    && (s.flight.Some? ==> s.flight.value in s.requests && Refreshing(s.requests[s.flight.value]))
    && (!s.shared ==> s.flight.None?)
    && (s.shared ==> forall w :: w in s.requests && Refreshing(s.requests[w]) ==> s.flight == Some(w))
    && (forall w :: In(s, w, Joined) ==> s.shared && s.flight.Some?)
  }

  lemma {:induction false} RunAnswers(s: State, es: seq<Step>)
    requires AnswersOk(s) && Run(s, es)
    ensures AnswersOk(Final(s, es))
    decreases |es|
  {
    if es != [] {
      RunAnswers(Apply(s, es[0]), es[1..]);
    }
  }

  lemma StepAttended(s: State, e: Step)
    requires Attended(s) && Enabled(s, e)
    ensures Attended(Apply(s, e))
  {
    if e.Store? || e.Fail? || (e.Check? && Fresh(s.stored, e.now)) {
      var handed := if e.Check? then s.stored else if e.Store? then Some(e.now) else None;
      FinishedClears(s, e.w, e.now, handed);
      assert forall x :: In(Apply(s, e), x, Joined) ==> In(Finished(s, e.w, e.now, handed), x, Joined);
    } else {
      forall x | In(Apply(s, e), x, Joined)
        ensures s.shared && Apply(s, e).flight.Some?
      {
        assert In(s, x, Joined) || (e.Enter? && x == e.w);
      }
    }
  }

  lemma FinishedClears(s: State, w: nat, now: Time, stored: Option<Time>)
    ensures forall x :: In(Finished(s, w, now, stored), x, Joined) ==> !s.shared && In(s, x, Joined)
  {
    forall x | In(Finished(s, w, now, stored), x, Joined)
      ensures !s.shared && In(s, x, Joined)
    {
      assert x !in Waiting(s, w);
    }
  }

  lemma {:induction false} RunAttended(s: State, es: seq<Step>)
    requires Attended(s) && Run(s, es)
    ensures Attended(Final(s, es))
    decreases |es|
  {
    if es != [] {
      StepAttended(s, es[0]);
      RunAttended(Apply(s, es[0]), es[1..]);
    }
  }

  // Asked and not answered yet, or answered.
  predicate Known(s: State, w: nat) {
    w in s.requests || exists x :: x in s.answers && x.w == w
  }

  lemma StepKnows(s: State, e: Step, w: nat)
    requires Enabled(s, e)
    ensures Known(s, w) || (e.Ask? && e.w == w) ==> Known(Apply(s, e), w)
  {
    var t := Apply(s, e);
    if w in s.requests && w !in t.requests {
      assert Answer(w, e.now, if e.Check? then s.stored else if e.Store? then Some(e.now) else None) in t.answers;
    } else if w !in s.requests && w !in t.requests && e.Ask? && e.w == w {
      assert Answer(w, e.now, s.stored) in t.answers;
    }
  }

  lemma {:induction false} RunKnows(s: State, es: seq<Step>, w: nat)
    requires Run(s, es)
    ensures Known(s, w) || (exists i :: 0 <= i < |es| && es[i].Ask? && es[i].w == w) ==> Known(Final(s, es), w)
    decreases |es|
  {
    if es != [] {
      StepKnows(s, es[0], w);
      RunKnows(Apply(s, es[0]), es[1..], w);
      assert forall i :: 0 < i < |es| ==> es[i] == es[1..][i - 1];
    }
  }

  // ---- one rebuild at a time ----

  predicate Refreshing(p: Phase) {
    p == Entered || p == Rebuilding
  }

  ghost predicate FlightOk(s: State) {
    && s.shared
    && (forall w :: w in s.requests && Refreshing(s.requests[w]) ==> s.flight == Some(w))
    && (forall w :: In(s, w, Rebuilding) ==> !Fresh(s.stored, s.clock))
    && Spaced(s.log)
  }

  lemma StepFlight(s: State, e: Step)
    requires FlightOk(s) && AnswersOk(s) && Enabled(s, e)
    ensures FlightOk(Apply(s, e))
  {
    var t := Apply(s, e);
    assert forall w :: In(s, w, Rebuilding) ==> Refreshing(s.requests[w]) && s.flight == Some(w);
    forall w | In(t, w, Rebuilding)
      ensures !Fresh(t.stored, t.clock)
    {
      assert In(s, w, Rebuilding) || e.Check?;
    }
    if e.Store? {
      assert In(s, e.w, Rebuilding);
      forall i | 0 < i < |t.log|
        ensures t.log[i] >= t.log[i - 1] + CACHE_TTL
      {
        assert i < |s.log| ==> t.log[i] == s.log[i];
      }
    }
  }

  lemma {:induction false} RunFlight(s: State, es: seq<Step>)
    requires FlightOk(s) && AnswersOk(s) && Run(s, es)
    ensures FlightOk(Final(s, es))
    decreases |es|
  {
    if es != [] {
      StepFlight(s, es[0]);
      RunFlight(Apply(s, es[0]), es[1..]);
    }
  }

  /** With singleflight, in every interleaving: at most one rebuild is in progress, and stored snapshots are at least
      ten seconds apart. */
  lemma RebuildsSpaced(es: seq<Step>)
    requires Run(Init(true), es)
    ensures var log := Final(Init(true), es).log; forall i :: 0 < i < |log| ==> log[i] >= log[i - 1] + 10000
    ensures forall v, w :: In(Final(Init(true), es), v, Rebuilding) && In(Final(Init(true), es), w, Rebuilding) ==>
              v == w
  {
    RunFlight(Init(true), es);
    assert Spaced(Final(Init(true), es).log);
  }

  /** A request is answered from the last snapshot at once, without a rebuild, exactly while that is less than ten
      seconds old. */
  lemma FreshLook(shared: bool, es: seq<Step>, w: nat, now: Time)
    requires Run(Init(shared), es) && Enabled(Final(Init(shared), es), Ask(w, now))
    ensures var s := Final(Init(shared), es); var t := Apply(s, Ask(w, now));
            var young := s.log != [] && now < s.log[|s.log| - 1] + 10000;
            && (young ==> t.answers == s.answers + {Answer(w, now, Some(s.log[|s.log| - 1]))}
                          && t.requests == s.requests && t.log == s.log)
            && (!young ==> In(t, w, Missed) && t.answers == s.answers)
  {
    RunAnswers(Init(shared), es);
  }

  /** Every answer, whether to a first look, to a rebuilding request or to one that joined it, is a snapshot that was
      stored less than ten seconds before the answer was settled, or the empty page of a rebuild that failed. */
  lemma AnswersFresh(shared: bool, es: seq<Step>, x: Answer)
    requires Run(Init(shared), es) && x in Final(Init(shared), es).answers
    ensures x.stored.Some? ==> x.stored.value in Final(Init(shared), es).log && 0 <= x.at - x.stored.value < 10000
    ensures x.stored.None? ==> exists i :: 0 <= i < |es| && es[i].Fail? && es[i].now == x.at
  {
    RunAnswers(Init(shared), es);
    assert AnswerOk(Final(Init(shared), es), x);
    if x.stored.None? {
      EmptyAfterFailure(Init(shared), es, x);
    }
  }

  lemma {:induction false} EmptyAfterFailure(s: State, es: seq<Step>, x: Answer)
    requires Run(s, es) && x in Final(s, es).answers && x.stored.None? && x !in s.answers
    ensures exists i :: 0 <= i < |es| && es[i].Fail? && es[i].now == x.at
    decreases |es|
  {
    var t := Apply(s, es[0]);
    if x !in t.answers {
      EmptyAfterFailure(t, es[1..], x);
      var i :| 0 <= i < |es[1..]| && es[1..][i].Fail? && es[1..][i].now == x.at;
      assert es[i + 1] == es[1..][i];
    } else {
      assert es[0].Fail? && es[0].now == x.at;
    }
  }

  /** No request is forgotten: whoever asked is still on the way or was answered, and whoever joined a refresh has one
      running to wait for. */
  lemma NobodyForgotten(shared: bool, es: seq<Step>, w: nat)
    requires Run(Init(shared), es) && exists i :: 0 <= i < |es| && es[i].Ask? && es[i].w == w
    ensures var s := Final(Init(shared), es);
            && (w !in s.requests ==> exists x :: x in s.answers && x.w == w)
            && (In(s, w, Joined) ==>
                  s.flight.Some? && s.flight.value in s.requests && Refreshing(s.requests[s.flight.value]))
  {
    RunKnows(Init(shared), es, w);
    RunAttended(Init(shared), es);
  }

  /** The switch is what spaces the rebuilds: all runs are spaced exactly when singleflight is enabled. */
  lemma SpacingNeedsSingleflight(shared: bool)
    ensures (forall es :: Run(Init(shared), es) ==> Spaced(Final(Init(shared), es).log)) <==> shared
  {
    if shared {
      forall es | Run(Init(shared), es)
        ensures Spaced(Final(Init(shared), es).log)
      {
        RebuildsSpaced(es);
      }
    } else {
      TwoRebuildsAtOnce();
    }
  }

  const BOTH_ENTERED := State(false, None, map[1 := Entered, 2 := Entered], None, 0, [], {})

  const TWICE := [Ask(1, 0), Ask(2, 0), Enter(1), Enter(2), Check(1, 0), Check(2, 0), Store(1, 0), Store(2, 0)]

  // Two requests miss together, and without singleflight both rebuild.
  lemma TwoRebuildsAtOnce()
    ensures Run(Init(false), TWICE) && !Spaced(Final(Init(false), TWICE).log)
  {
    BothEnter();
    BothStore();
    var log: seq<Time> := [0, 0];
    assert log[1] < log[0] + CACHE_TTL;
    assert !Spaced(log);
    assert TWICE[0..] == TWICE;
  }

  lemma BothEnter()
    ensures Run(BOTH_ENTERED, TWICE[4..]) ==>
              Run(Init(false), TWICE[0..]) && Final(Init(false), TWICE[0..]) == Final(BOTH_ENTERED, TWICE[4..])
  {
    var s1 := Apply(Init(false), TWICE[0]);
    var s2 := Apply(s1, TWICE[1]);
    var s3 := Apply(s2, TWICE[2]);
    RunOf(s3, TWICE, 3, BOTH_ENTERED);
    RunOf(s2, TWICE, 2, s3);
    RunOf(s1, TWICE, 1, s2);
    RunOf(Init(false), TWICE, 0, s1);
  }

  lemma BothStore()
    ensures Run(BOTH_ENTERED, TWICE[4..]) && Final(BOTH_ENTERED, TWICE[4..]).log == [0, 0]
  {
    var s5 := Apply(BOTH_ENTERED, TWICE[4]);
    var s6 := Apply(s5, TWICE[5]);
    var s7 := Apply(s6, TWICE[6]);
    var s8 := Apply(s7, TWICE[7]);
    assert TWICE[8..] == [];
    RunOf(s7, TWICE, 7, s8);
    RunOf(s6, TWICE, 6, s7);
    RunOf(s5, TWICE, 5, s6);
    RunOf(BOTH_ENTERED, TWICE, 4, s5);
  }

  lemma RunOf(s: State, es: seq<Step>, i: nat, t: State)
    requires i < |es| && Enabled(s, es[i]) && t == Apply(s, es[i])
    ensures Run(t, es[i + 1..]) ==> Run(s, es[i..]) && Final(s, es[i..]) == Final(t, es[i + 1..])
  {
    assert es[i..][1..] == es[i + 1..];
  }
}

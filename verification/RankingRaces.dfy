/** AddScore as the separate Redis commands it is, interleaved by any number of callers, with no Redis error. */
module RankingRaces {
  import RankingScore

  // What a caller still has to do after its ZINCRBY.
  datatype Pending = Removing(m: nat) | ReadingTtl | Expiring

  // whole: what the same increments and removals give when each AddScore runs on its own. Bookkeeping only.
  datatype State = State(board: map<nat, int>, expires: bool, callers: map<nat, Pending>, whole: map<nat, int>)

  const EMPTY := State(map[], false, map[], map[])

  datatype Step =
    | Incr(w: nat, m: nat, delta: int)
    | Zrem(w: nat)
    | Ttl(w: nat)
    | Expire(w: nat)
    | Remove(m: nat)   // Remove, and pruning while a page is read
    | Elapse           // the key of the day runs out

  function Get(b: map<nat, int>, m: nat): int {
    if m in b then b[m] else 0
  }

  // A sorted set that loses its last member is gone, and its expiry with it.
  function Without(s: State, m: nat): State {
    var rest := s.board - {m};
    s.(board := rest, expires := s.expires && rest != map[])
  }

  predicate Enabled(s: State, e: Step) {
    match e
    case Incr(w, _, _) => w !in s.callers
    case Zrem(w) => w in s.callers && s.callers[w].Removing?
    case Ttl(w) => w in s.callers && s.callers[w].ReadingTtl?
    case Expire(w) => w in s.callers && s.callers[w].Expiring?
    case Remove(_) => true
    case Elapse => s.expires
  }

  function Apply(s: State, e: Step): State
    requires Enabled(s, e)
  {
    match e
    case Incr(w, m, delta) =>
      var score := Get(s.board, m) + delta;
      s.(board := s.board[m := score], callers := s.callers[w := if score <= 0 then Removing(m) else ReadingTtl],
         whole := s.whole[m := RankingScore.Added(Get(s.whole, m), delta)])
    case Zrem(w) => Without(s, s.callers[w].m).(callers := s.callers - {w})
    case Ttl(w) => s.(callers := if s.board != map[] && !s.expires then s.callers[w := Expiring] else s.callers - {w})
    case Expire(w) => s.(expires := s.expires || s.board != map[], callers := s.callers - {w})
    case Remove(m) => Without(s, m).(whole := s.whole - {m})
    case Elapse => s.(board := map[], expires := false, whole := map[])
  }

  predicate Run(s: State, es: seq<Step>)
    decreases |es|
  {
    es == [] || (Enabled(s, es[0]) && Run(Apply(s, es[0]), es[1..]))
  }

  function Final(s: State, es: seq<Step>): State
    requires Run(s, es)
    decreases |es|
  {
    if es == [] then s else Final(Apply(s, es[0]), es[1..])
  }

  predicate RemovalPending(s: State, m: nat) {
    exists w :: w in s.callers && s.callers[w] == Removing(m)
  }

  predicate ExpiryPending(s: State) {
    exists w :: w in s.callers && !s.callers[w].Removing?
  }

  ghost predicate Inv(s: State) {
    && (forall m :: m in s.board && s.board[m] <= 0 ==> RemovalPending(s, m))
    && (!s.expires && (exists m :: m in s.board && s.board[m] > 0) ==> ExpiryPending(s))
    && (forall m :: Get(s.board, m) <= Get(s.whole, m) && 0 <= Get(s.whole, m))
  }

  // The removals and expiry checks that are pending stay so, but for the caller that moves.
  lemma PendingKept(s: State, e: Step)
    requires Enabled(s, e)
    ensures forall m :: RemovalPending(s, m) && !(e.Zrem? && s.callers[e.w].m == m) ==> RemovalPending(Apply(s, e), m)
    ensures ExpiryPending(s) && !e.Ttl? && !e.Expire? ==> ExpiryPending(Apply(s, e))
  {
    var t := Apply(s, e);
    forall m | RemovalPending(s, m) && !(e.Zrem? && s.callers[e.w].m == m)
      ensures RemovalPending(t, m)
    {
      var w :| w in s.callers && s.callers[w] == Removing(m);
      assert w in t.callers && t.callers[w] == Removing(m);
    }
    if ExpiryPending(s) && !e.Ttl? && !e.Expire? {
      var w :| w in s.callers && !s.callers[w].Removing?;
      assert w in t.callers && t.callers[w] == s.callers[w];
    }
  }

  lemma IncrKept(s: State, e: Step)
    requires Inv(s) && Enabled(s, e) && e.Incr?
    ensures Inv(Apply(s, e))
  {
    PendingKept(s, e);
    var t := Apply(s, e);
    assert e.w in t.callers;
    if !s.expires && t.board[e.m] <= 0 && (exists m :: m in t.board && t.board[m] > 0) {
      var m :| m in t.board && t.board[m] > 0;
      assert m in s.board && s.board[m] > 0;
    }
    forall m
      ensures Get(t.board, m) <= Get(t.whole, m) && 0 <= Get(t.whole, m)
    {
      assert Get(s.board, m) <= Get(s.whole, m) && 0 <= Get(s.whole, m);
    }
  }

  lemma OtherKept(s: State, e: Step)
    requires Inv(s) && Enabled(s, e) && !e.Incr?
    ensures Inv(Apply(s, e))
  {
    PendingKept(s, e);
    var t := Apply(s, e);
    assert forall m :: m in t.board ==> m in s.board && t.board[m] == s.board[m];
    if e.Ttl? && e.w in t.callers {
      assert !t.callers[e.w].Removing?;
    }
    if !t.expires && (exists m :: m in t.board && t.board[m] > 0) {
      var m :| m in t.board && t.board[m] > 0;
      assert m in s.board && s.board[m] > 0;
      assert t.board != map[];
    }
    forall m
      ensures m in t.board && t.board[m] <= 0 ==> RemovalPending(t, m)
      ensures Get(t.board, m) <= Get(t.whole, m) && 0 <= Get(t.whole, m)
    {
      assert m in s.board && s.board[m] <= 0 ==> RemovalPending(s, m);
      assert Get(s.board, m) <= Get(s.whole, m) && 0 <= Get(s.whole, m);
    }
  }

  lemma {:induction false} RunKept(s: State, es: seq<Step>)
    requires Inv(s) && Run(s, es)
    ensures Inv(Final(s, es))
    decreases |es|
  {
    if es != [] {
      if es[0].Incr? {
        IncrKept(s, es[0]);
      } else {
        OtherKept(s, es[0]);
      }
      RunKept(Apply(s, es[0]), es[1..]);
    }
  }

  /** In every interleaving a member that is on the board with a score of at most 0 has a removal on the way, and no
      score is ever above what the same changes give one at a time. */
  lemma NonPositiveIsLeaving(es: seq<Step>, m: nat)
    requires Run(EMPTY, es)
    ensures var s := Final(EMPTY, es);
            && (m in s.board && s.board[m] <= 0 ==> exists w :: w in s.callers && s.callers[w] == Removing(m))
            && Get(s.board, m) <= Get(s.whole, m)
  {
    RunKept(EMPTY, es);
  }

  /** A board nobody is working on has only positive scores and is set to expire. */
  lemma QuiescentBoard(es: seq<Step>)
    requires Run(EMPTY, es) && Final(EMPTY, es).callers == map[]
    ensures var s := Final(EMPTY, es);
            (forall m :: m in s.board ==> s.board[m] > 0) && (s.board != map[] ==> s.expires)
  {
    RunKept(EMPTY, es);
    var s := Final(EMPTY, es);
    forall m | m in s.board
      ensures s.board[m] > 0
    {
      assert s.board[m] <= 0 ==> RemovalPending(s, m);
    }
    if s.board != map[] {
      var m :| m in s.board;
      assert s.board[m] > 0;
    }
  }

  /** A caller that is not interleaved does exactly one clamped addition. */
  lemma SerialCall(s: State, w: nat, m: nat, delta: int)
    requires w !in s.callers
    ensures var t := Apply(s, Incr(w, m, delta));
            && (Get(s.board, m) + delta <= 0 <==> Enabled(t, Zrem(w)))
            && (Get(s.board, m) + delta <= 0 ==>
                  Get(Apply(t, Zrem(w)).board, m) == RankingScore.Added(Get(s.board, m), delta)
                  && Apply(t, Zrem(w)).callers == s.callers)
            && (Get(s.board, m) + delta > 0 ==>
                  Get(t.board, m) == RankingScore.Added(Get(s.board, m), delta) && Enabled(t, Ttl(w)))
  {
    var t := Apply(s, Incr(w, m, delta));
    if Get(s.board, m) + delta <= 0 {
      assert t.callers - {w} == s.callers;
    }
  }

  // ---- when the interleaving makes a difference ----

  // The board shows the serial score of every member; a score below zero is on its way out and counts as 0.
  ghost predicate Agrees(s: State) {
    forall m :: Get(s.whole, m) == (if Get(s.board, m) > 0 then Get(s.board, m) else 0)
  }

  // Points added to a member whose removal is overdue, or a removal that finds points added since it was decided.
  predicate Interferes(s: State, e: Step)
    requires Enabled(s, e)
  {
    || (e.Incr? && e.delta > 0 && Get(s.board, e.m) < 0)
    || (e.Zrem? && Get(s.board, s.callers[e.w].m) > 0)
  }

  lemma AgreementStep(s: State, e: Step)
    requires Agrees(s) && Enabled(s, e)
    ensures Agrees(Apply(s, e)) <==> !Interferes(s, e)
  {
    var t := Apply(s, e);
    var m := if e.Incr? || e.Remove? then e.m else if e.Zrem? then s.callers[e.w].m else 0;
    assert Get(s.whole, m) == if Get(s.board, m) > 0 then Get(s.board, m) else 0;
    forall x | x != m
      ensures Get(t.whole, x) == if Get(t.board, x) > 0 then Get(t.board, x) else 0
    {
      assert Get(s.whole, x) == if Get(s.board, x) > 0 then Get(s.board, x) else 0;
    }
    assert Get(t.whole, m) == (if Get(t.board, m) > 0 then Get(t.board, m) else 0) <==> !Interferes(s, e);
  }

  // After every step so far, and before the first.
  ghost predicate AgreesThroughout(s: State, es: seq<Step>)
    requires Run(s, es)
    decreases |es|
  {
    Agrees(s) && (es == [] || AgreesThroughout(Apply(s, es[0]), es[1..]))
  }

  // No step interferes.
  predicate Undisturbed(s: State, es: seq<Step>)
    requires Run(s, es)
    decreases |es|
  {
    es == [] || (!Interferes(s, es[0]) && Undisturbed(Apply(s, es[0]), es[1..]))
  }

  lemma {:induction false} AgreementRun(s: State, es: seq<Step>)
    requires Run(s, es) && Agrees(s)
    ensures AgreesThroughout(s, es) <==> Undisturbed(s, es)
    decreases |es|
  {
    if es != [] {
      AgreementStep(s, es[0]);
      if Agrees(Apply(s, es[0])) {
        AgreementRun(Apply(s, es[0]), es[1..]);
      } else {
        assert !AgreesThroughout(Apply(s, es[0]), es[1..]);
      }
    }
  }

  /** An interleaving shows the serial scores all the way if and only if none of its increments adds points to a
      negative member and none of its removals finds a positive one. */
  lemma SerialUnlessDisturbed(es: seq<Step>)
    requires Run(EMPTY, es)
    ensures AgreesThroughout(EMPTY, es) <==> Undisturbed(EMPTY, es)
  {
    AgreementRun(EMPTY, es);
  }

  /** The throughout of that theorem, state by state. */
  lemma {:induction false} ThroughoutMeansAlways(s: State, es: seq<Step>, k: nat)
    requires Run(s, es) && k <= |es|
    ensures Run(s, es[..k])
    ensures AgreesThroughout(s, es) ==> Agrees(Final(s, es[..k]))
    decreases |es|
  {
    if k > 0 {
      ThroughoutMeansAlways(Apply(s, es[0]), es[1..], k - 1);
      assert es[..k][0] == es[0] && es[..k][1..] == es[1..][..k - 1];
    }
  }

  // The increments of a member since it was last removed or the board's key ran out.
  function Deltas(before: seq<int>, es: seq<Step>, m: nat): seq<int>
    decreases |es|
  {
    if es == [] then before
    else
      var now := if es[0].Incr? && es[0].m == m then before + [es[0].delta]
                 else if (es[0].Remove? && es[0].m == m) || es[0].Elapse? then []
                 else before;
      Deltas(now, es[1..], m)
  }

  lemma {:induction false} WholeFollows(s: State, es: seq<Step>, m: nat, before: seq<int>)
    requires Run(s, es) && Get(s.whole, m) == RankingScore.ScoreAfter(before)
    ensures Get(Final(s, es).whole, m) == RankingScore.ScoreAfter(Deltas(before, es, m))
    decreases |es|
  {
    if es != [] {
      var e := es[0];
      if e.Incr? && e.m == m {
        assert (before + [e.delta])[..|before|] == before;
        WholeFollows(Apply(s, e), es[1..], m, before + [e.delta]);
      } else if (e.Remove? && e.m == m) || e.Elapse? {
        WholeFollows(Apply(s, e), es[1..], m, []);
      } else {
        WholeFollows(Apply(s, e), es[1..], m, before);
      }
    }
  }

  /** The serial score is what the increments alone make it, one clamped addition after the other since the member was
      last removed or the key ran out; so an undisturbed run shows exactly that score for every member. */
  lemma UndisturbedScores(es: seq<Step>, m: nat)
    requires Run(EMPTY, es)
    ensures Get(Final(EMPTY, es).whole, m) == RankingScore.ScoreAfter(Deltas([], es, m))
    ensures Undisturbed(EMPTY, es) ==>
              var shown := Get(Final(EMPTY, es).board, m);
              (if shown > 0 then shown else 0) == RankingScore.ScoreAfter(Deltas([], es, m))
  {
    WholeFollows(EMPTY, es, m, []);
    if Undisturbed(EMPTY, es) {
      AgreementRun(EMPTY, es);
      ThroughoutMeansAlways(EMPTY, es, |es|);
      assert es[..|es|] == es;
    }
  }

  /** A witness for the first cause: a removal decided on an old score takes five points added since. */
  lemma LateRemovalLosesPoints()
    ensures var es := [Incr(1, 7, -2), Incr(2, 7, 5), Ttl(2), Expire(2), Zrem(1)];
            && Run(EMPTY, es) && Final(EMPTY, es).callers == map[]
            && Get(Final(EMPTY, es).board, 7) == 0 && Get(Final(EMPTY, es).whole, 7) == 5
  {
    var s1 := Apply(EMPTY, Incr(1, 7, -2));
    var s2 := Apply(s1, Incr(2, 7, 5));
    var s3 := Apply(s2, Ttl(2));
    var s4 := Apply(s3, Expire(2));
    assert Apply(s4, Zrem(1)).callers == map[];
    After(s4, Zrem(1), []);
    After(s3, Expire(2), [Zrem(1)]);
    After(s2, Ttl(2), [Expire(2), Zrem(1)]);
    After(s1, Incr(2, 7, 5), [Ttl(2), Expire(2), Zrem(1)]);
    After(EMPTY, Incr(1, 7, -2), [Incr(2, 7, 5), Ttl(2), Expire(2), Zrem(1)]);
  }

  /** A witness for the second: a member on its way out swallows a point, though no removal finds a positive score. */
  lemma NegativeScoreSwallowsPoint()
    ensures var es := [Incr(1, 7, -2), Incr(2, 7, 1), Zrem(1), Zrem(2)];
            && Run(EMPTY, es) && Final(EMPTY, es).callers == map[]
            && Get(Final(EMPTY, es).board, 7) == 0 && Get(Final(EMPTY, es).whole, 7) == 1
  {
    var s1 := Apply(EMPTY, Incr(1, 7, -2));
    var s2 := Apply(s1, Incr(2, 7, 1));
    var s3 := Apply(s2, Zrem(1));
    assert Apply(s3, Zrem(2)).callers == map[];
    After(s3, Zrem(2), []);
    After(s2, Zrem(1), [Zrem(2)]);
    After(s1, Incr(2, 7, 1), [Zrem(1), Zrem(2)]);
    After(EMPTY, Incr(1, 7, -2), [Incr(2, 7, 1), Zrem(1), Zrem(2)]);
  }

  lemma After(s: State, e: Step, es: seq<Step>)
    ensures Enabled(s, e) && Run(Apply(s, e), es) ==> Run(s, [e] + es) && Final(s, [e] + es) == Final(Apply(s, e), es)
  {
    assert ([e] + es)[1..] == es;
  }
}

/** Scores of the daily board when every AddScore runs on its own (internal/service/content_ranking.go). */
module RankingScore {
  import opened Common

  // ZINCRBY, and ZREM when the new score is not positive; a member that is not on the board counts as 0.
  function Added(score: int, delta: int): int {
    if score + delta <= 0 then 0 else score + delta
  }

  function ScoreAfter(deltas: seq<int>): int {
    if deltas == [] then 0 else Added(ScoreAfter(deltas[..|deltas| - 1]), deltas[|deltas| - 1])
  }

  function Sum(deltas: seq<int>): int {
    if deltas == [] then 0 else Sum(deltas[..|deltas| - 1]) + deltas[|deltas| - 1]
  }

  lemma {:induction false} SumSplits(deltas: seq<int>, i: nat)
    requires i <= |deltas|
    ensures Sum(deltas) == Sum(deltas[..i]) + Sum(deltas[i..])
  {
    if i == |deltas| {
      assert deltas[..i] == deltas;
    } else {
      var init := deltas[..|deltas| - 1];
      SumSplits(init, i);
      assert init[..i] == deltas[..i];
      assert deltas[i..][..|deltas| - i - 1] == init[i..];
    }
  }

  // The index from which the deltas add up to the score.
  function Start(deltas: seq<int>): (i: nat)
    ensures i <= |deltas|
  {
    if deltas == [] then 0
    else if ScoreAfter(deltas[..|deltas| - 1]) + deltas[|deltas| - 1] <= 0 then |deltas|
    else Start(deltas[..|deltas| - 1])
  }

  /** The score is the largest suffix sum, the empty suffix included. */
  lemma {:induction false} ScoreIsMaxSuffix(deltas: seq<int>, i: nat)
    requires i <= |deltas|
    ensures ScoreAfter(deltas) >= Sum(deltas[i..])
    ensures ScoreAfter(deltas) == Sum(deltas[Start(deltas)..])
    ensures ScoreAfter(deltas) >= 0
  {
    if deltas != [] {
      var init, d := deltas[..|deltas| - 1], deltas[|deltas| - 1];
      ScoreIsMaxSuffix(init, if i < |deltas| then i else 0);
      if i < |deltas| {
        assert deltas[i..][..|deltas| - i - 1] == init[i..];
      }
      var j := Start(init);
      assert j < |deltas| && deltas[j..][..|deltas| - j - 1] == init[j..];
      assert Sum(deltas[j..]) == Sum(init[j..]) + d;
    }
  }

  /** Nothing was clamped away exactly when no prefix of the deltas sums below zero. */
  lemma ScoreIsPlainSum(deltas: seq<int>)
    ensures ScoreAfter(deltas) == Sum(deltas) <==> forall i :: 0 <= i <= |deltas| ==> Sum(deltas[..i]) >= 0
  {
    ScoreIsMaxSuffix(deltas, 0);
    SumSplits(deltas, Start(deltas));
    forall i | 0 <= i <= |deltas|
      ensures ScoreAfter(deltas) >= Sum(deltas) - Sum(deltas[..i])
    {
      ScoreIsMaxSuffix(deltas, i);
      SumSplits(deltas, i);
    }
    assert deltas[0..] == deltas;
    assert ScoreAfter(deltas) == Sum(deltas) - Sum(deltas[..Start(deltas)]);
  }

  const DAY: Time := 86400 * SECOND
  const UTC8: Time := 8 * 3600 * SECOND

  // The date in UTC+8, from the epoch on.
  function DayOf(now: Time): int { (now + UTC8) / DAY }

  function DayEnd(now: Time): Time { (DayOf(now) + 1) * DAY - UTC8 }

  function SecondsUntilDayEnd(now: Time): int {
    var sec := (DayEnd(now) - now) / SECOND + 1;
    if sec < 1 then 1 else sec
  }

  /** A day of UTC+8 begins and ends at 16:00 UTC: the end of a moment's day is the first such moment after it, and two
      moments have the same date exactly when they lie between the same two of them. */
  lemma DaysEndAtSixteen(now: Time, later: Time)
    ensures DayEnd(now) % 86_400_000 == 57_600_000 && now < DayEnd(now) <= now + 86_400_000
    ensures DayOf(later) == DayOf(now) <==> DayEnd(now) - 86_400_000 <= later < DayEnd(now)
    ensures DayOf(57_600_000) == 1
  {
  }

  /** A view key outlives its day by at most a second, and never expires within it. */
  lemma ViewKeyOutlivesDay(now: Time)
    ensures DayEnd(now) < now + SecondsUntilDayEnd(now) * SECOND <= DayEnd(now) + SECOND
    ensures forall later :: now <= later && DayOf(later) == DayOf(now) ==>
              later < now + SecondsUntilDayEnd(now) * SECOND
  {
    var d := DayEnd(now) - now;
    assert 0 < d <= DAY;
    assert d == d / SECOND * SECOND + d % SECOND;
  }

  datatype ViewKey = ViewKey(day: int, content: nat, user: nat)

  datatype View = View(content: nat, user: nat, at: Time)

  /** One kind of content: its board of the day and its view keys. */
  class Board {
    var scores: map<nat, int>
    var hasExpiry: bool
    var viewed: map<ViewKey, Time>

    predicate Valid()
      reads this
    {
      (forall m :: m in scores ==> scores[m] > 0) && (scores != map[] ==> hasExpiry)
    }

    function Score(m: nat): int
      reads this
    {
      if m in scores then scores[m] else 0
    }

    constructor ()
      ensures Valid() && scores == map[] && viewed == map[]
    {
      scores, hasExpiry, viewed := map[], false, map[];
    }

    method AddScore(m: nat, delta: int)
      requires Valid()
      modifies this`scores, this`hasExpiry
      ensures Valid()
      ensures Score(m) == Added(old(Score(m)), delta)
      ensures forall x :: x != m ==> Score(x) == old(Score(x))
    {
      var newScore := Score(m) + delta;
      scores := scores[m := newScore];
      if newScore <= 0 {
        scores := scores - {m};
        hasExpiry := hasExpiry && scores != map[];
        return;
      }
      if !hasExpiry {
        hasExpiry := true;
      }
    }

    method RecordView(v: View) returns (counted: bool)
      requires Valid()
      modifies this
      ensures Valid()
      ensures counted <==> Counts(v, old(viewed))
      ensures viewed == WithView(v, old(viewed))
      ensures forall x :: Score(x) == old(Score(x)) + (if counted && x == v.content then 1 else 0)
    {
      if v.user == 0 {
        return false;
      }
      if Key(v) in viewed && v.at < viewed[Key(v)] {
        return false;
      }
      viewed := viewed[Key(v) := v.at + SecondsUntilDayEnd(v.at) * SECOND];
      AddScore(v.content, 1);
      return true;
    }
  }

  predicate Counts(v: View, viewed: map<ViewKey, Time>) {
    v.user != 0 && !(Key(v) in viewed && v.at < viewed[Key(v)])
  }

  function WithView(v: View, viewed: map<ViewKey, Time>): map<ViewKey, Time> {
    if Counts(v, viewed) then viewed[Key(v) := v.at + SecondsUntilDayEnd(v.at) * SECOND] else viewed
  }

  ghost predicate Counted(views: seq<View>, content: nat, day: int, viewed: map<ViewKey, Time>) {
    && OutliveTheirDay(viewed)
    && forall u :: u in Viewers(views, content, day) <==> ViewKey(day, content, u) in viewed
  }

  // A key that is there outlives the look; a new one outlives its day.
  lemma KeysOutlive(v: View, viewed: map<ViewKey, Time>)
    requires OutliveTheirDay(viewed)
    ensures OutliveTheirDay(WithView(v, viewed))
    ensures Counts(v, viewed) <==> v.user != 0 && Key(v) !in viewed
  {
    ViewKeyOutlivesDay(v.at);
    if Key(v) in viewed {
      assert (DayOf(v.at) + 1) * DAY - UTC8 == DayEnd(v.at) > v.at;
    }
  }

  lemma DayKeys(views: seq<View>, i: nat, content: nat, day: int, viewed: map<ViewKey, Time>, u: nat)
    requires i < |views| && Counted(views[..i], content, day, viewed)
    ensures u in Viewers(views[..i + 1], content, day) <==> ViewKey(day, content, u) in WithView(views[i], viewed)
  {
    KeysOutlive(views[i], viewed);
    ViewersGrow(views, i, content, day);
    assert u in Viewers(views[..i], content, day) <==> ViewKey(day, content, u) in viewed;
  }

  lemma DaySize(was: set<nat>, now: set<nat>, added: set<nat>, u: nat)
    requires now == was + added && (added == {} || added == {u})
    ensures |now| == |was| + (if added == {u} && u !in was then 1 else 0)
  {
    if u in was || added == {} {
      assert now == was;
    }
  }

  predicate Concerns(v: View, content: nat, day: int) {
    v.content == content && v.user != 0 && DayOf(v.at) == day
  }

  lemma DayStep(views: seq<View>, i: nat, content: nat, day: int, viewed: map<ViewKey, Time>)
    requires i < |views| && Counted(views[..i], content, day, viewed)
    ensures Counted(views[..i + 1], content, day, WithView(views[i], viewed))
    ensures |Viewers(views[..i + 1], content, day)|
         == |Viewers(views[..i], content, day)|
            + (if Counts(views[i], viewed) && Concerns(views[i], content, day) then 1 else 0)
  {
    var v := views[i];
    KeysOutlive(v, viewed);
    forall u
      ensures u in Viewers(views[..i + 1], content, day) <==> ViewKey(day, content, u) in WithView(v, viewed)
    {
      DayKeys(views, i, content, day, viewed, u);
    }
    ViewersGrow(views, i, content, day);
    DaySize(Viewers(views[..i], content, day), Viewers(views[..i + 1], content, day),
            if Concerns(v, content, day) then {v.user} else {}, v.user);
    assert v.user in Viewers(views[..i], content, day) <==> ViewKey(day, content, v.user) in viewed;
  }

  // The view keys after these looks, from no keys at all, and the points one content item gained on one day.
  function Looked(views: seq<View>, content: nat, day: int): (map<ViewKey, Time>, int) {
    if views == [] then (map[], 0)
    else
      var (viewed, points) := Looked(views[..|views| - 1], content, day);
      var v := views[|views| - 1];
      (WithView(v, viewed),
       points + if Counts(v, viewed) && v.content == content && DayOf(v.at) == day then 1 else 0)
  }

  /** On each day an item gains one point for every distinct signed-in viewer of that day, however often and in whatever
      order they look on that and on other days. */
  lemma {:induction false} EachViewerOnce(views: seq<View>, content: nat, day: int)
    ensures Looked(views, content, day).1 == |Viewers(views, content, day)|
    ensures Counted(views, content, day, Looked(views, content, day).0)
  {
    if views != [] {
      var n := |views| - 1;
      EachViewerOnce(views[..n], content, day);
      DayStep(views, n, content, day, Looked(views[..n], content, day).0);
      assert views[..n + 1] == views;
    }
  }

  ghost predicate OutliveTheirDay(viewed: map<ViewKey, Time>) {
    forall k :: k in viewed ==> (k.day + 1) * DAY - UTC8 < viewed[k]
  }

  function Key(v: View): ViewKey { ViewKey(DayOf(v.at), v.content, v.user) }

  // Who looked at the item on that day, signed in.
  ghost function Viewers(views: seq<View>, content: nat, day: int): set<nat> {
    set j | 0 <= j < |views| && views[j].content == content && views[j].user != 0 && DayOf(views[j].at) == day ::
      views[j].user
  }

  lemma ViewersGrow(views: seq<View>, i: nat, content: nat, day: int)
    requires i < |views|
    ensures Viewers(views[..i + 1], content, day)
         == Viewers(views[..i], content, day) + (if Concerns(views[i], content, day) then {views[i].user} else {})
  {
    var a, b := views[..i], views[..i + 1];
    forall u | u in Viewers(a, content, day)
      ensures u in Viewers(b, content, day)
    {
      var j :| 0 <= j < |a| && Concerns(a[j], content, day) && a[j].user == u;
      assert b[j] == a[j];
    }
    assert b[i] == views[i];
    forall u | u in Viewers(b, content, day)
      ensures u in Viewers(a, content, day) || (Concerns(views[i], content, day) && u == views[i].user)
    {
      var j :| 0 <= j < |b| && Concerns(b[j], content, day) && b[j].user == u;
      assert j < i ==> a[j] == b[j];
    }
  }
}

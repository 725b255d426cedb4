/** What the pipeline does with the outbox table is a run of the table's statements, so what holds of every run of those
    holds of the table under the whole pipeline. */
module PipelineOutbox {
  import opened Common
  import opened Notification
  import opened Outbox
  import opened Pipeline
  import OutboxRuns

  // The statement a step executes, if it executes one.
  function Statement(s: State, e: Step): Option<OutboxRuns.Event>
    requires Enabled(s, e)
  {
    match e
    case SCommit(id, event, d) => Some(OutboxRuns.Insert(id, event, d))
    case SReopen(id) => Some(OutboxRuns.Reopen(id))
    case SClaim(_, id, now, lease, token) => Some(OutboxRuns.Claim(id, now, lease, token))
    case SMarkPublished(w, now) => Some(OutboxRuns.Publish(s.workers[w].id, now, s.workers[w].token))
    case SReadRetry(w, now) => Some(OutboxRuns.ReadRetry(s.workers[w].id, now, s.workers[w].token))
    case SWriteRetry(w, cause) => Some(OutboxRuns.WriteRetry(ReadingOf(s.workers[w]), cause))
    case _ => None
  }

  function ReadingOf(k: Stage): OutboxRuns.Reading
    requires k.Counted?
  {
    OutboxRuns.Reading(k.id, k.token, k.seen, k.at)
  }

  function Statements(s: State, es: seq<Step>): seq<OutboxRuns.Event>
    requires Run(s, es)
    decreases |es|
  {
    if es == [] then []
    else
      var rest := Statements(Apply(s, es[0]), es[1..]);
      if Statement(s, es[0]).Some? then [Statement(s, es[0]).value] + rest else rest
  }

  // The same rows and tokens; each worker has a token of its own, and what it has read is among the readings.
  ghost predicate Same(s: State, o: OutboxRuns.State) {
    && o.rows == s.rows && o.tokens == s.tokens
    && (forall w :: w in s.workers ==> s.workers[w].token in s.tokens)
    && (forall v, w :: v in s.workers && w in s.workers && s.workers[v].token == s.workers[w].token ==> v == w)
    && (forall w :: w in s.workers && s.workers[w].Counted? ==> ReadingOf(s.workers[w]) in o.readings)
  }

  // Workers may be gone or further on, with the tokens they had; none has newly read a count.
  ghost predicate Onward(s: State, t: State) {
    && t.rows == s.rows && t.tokens == s.tokens
    && (forall w :: w in t.workers ==> w in s.workers && t.workers[w].token == s.workers[w].token)
    && (forall w :: w in t.workers && t.workers[w].Counted? ==> t.workers[w] == s.workers[w])
  }

  lemma OnwardSame(s: State, t: State, o: OutboxRuns.State)
    requires Same(s, o) && Onward(s, t)
    ensures Same(t, o)
  {
  }

  predicate SenderStep(e: Step) {
    e.SAccept? || e.SConfirm? || e.SPublishError? || e.SCrash?
  }

  lemma SenderOnward(s: State, e: Step)
    requires Enabled(s, e) && SenderStep(e)
    ensures Onward(s, Apply(s, e))
  {
  }

  lemma OthersOnward(s: State, e: Step)
    requires Enabled(s, e) && Statement(s, e).None? && !SenderStep(e)
    ensures Onward(s, Apply(s, e))
  {
    OthersKeepRows(s, e);
    assert Apply(s, e).workers == s.workers;
  }

  lemma SilentStep(s: State, e: Step, o: OutboxRuns.State)
    requires Same(s, o) && Enabled(s, e) && Statement(s, e).None?
    ensures Same(Apply(s, e), o)
  {
    if SenderStep(e) {
      SenderOnward(s, e);
    } else {
      OthersOnward(s, e);
    }
    OnwardSame(s, Apply(s, e), o);
  }

  lemma ServiceStep(s: State, e: Step, o: OutboxRuns.State)
    requires Same(s, o) && Enabled(s, e) && (e.SCommit? || e.SReopen? || e.SClaim?)
    ensures OutboxRuns.Enabled(o, Statement(s, e).value)
    ensures Same(Apply(s, e), OutboxRuns.Apply(o, Statement(s, e).value))
  {
  }

  lemma PublishStep(s: State, w: nat, now: Time, o: OutboxRuns.State)
    requires Same(s, o) && Enabled(s, SMarkPublished(w, now))
    ensures var x := Statement(s, SMarkPublished(w, now)).value;
            OutboxRuns.Enabled(o, x) && Same(MarkPublished(s, w, now), OutboxRuns.Apply(o, x))
  {
  }

  lemma ReadStep(s: State, w: nat, now: Time, o: OutboxRuns.State)
    requires Same(s, o) && Enabled(s, SReadRetry(w, now))
    ensures var x := Statement(s, SReadRetry(w, now)).value;
            OutboxRuns.Enabled(o, x) && Same(ReadRetry(s, w, now), OutboxRuns.Apply(o, x))
  {
  }

  lemma WriteEffect(o: OutboxRuns.State, r: OutboxRuns.Reading, cause: Option<string>)
    requires r in o.readings
    ensures var p := OutboxRuns.Apply(o, OutboxRuns.WriteRetry(r, cause));
            && p.tokens == o.tokens && p.readings == o.readings - {r}
            && p.rows == if r.id in o.rows && Holds(o.rows[r.id], r.token)
                         then o.rows[r.id := Rescheduled(o.rows[r.id], r.seen, cause, r.at)] else o.rows
  {
  }

  // A worker is gone, and its reading with it.
  lemma WorkerDone(s: State, o: OutboxRuns.State, w: nat, t: State, p: OutboxRuns.State)
    requires Same(s, o) && w in s.workers && s.workers[w].Counted? && t.workers == s.workers - {w}
    requires t.rows == p.rows && t.tokens == s.tokens == p.tokens
    requires p.readings == o.readings - {ReadingOf(s.workers[w])}
    ensures Same(t, p)
  {
    forall v | v in t.workers && t.workers[v].Counted?
      ensures ReadingOf(t.workers[v]) in p.readings
    {
      assert s.workers[v].token != s.workers[w].token;
    }
  }

  lemma WriteStep(s: State, w: nat, cause: Option<string>, o: OutboxRuns.State)
    requires Same(s, o) && Enabled(s, SWriteRetry(w, cause))
    ensures var x := Statement(s, SWriteRetry(w, cause)).value;
            OutboxRuns.Enabled(o, x) && Same(WriteRetry(s, w, cause), OutboxRuns.Apply(o, x))
  {
    var x := OutboxRuns.WriteRetry(ReadingOf(s.workers[w]), cause);
    WriteEffect(o, ReadingOf(s.workers[w]), cause);
    WorkerDone(s, o, w, WriteRetry(s, w, cause), OutboxRuns.Apply(o, x));
  }

  lemma MarkStep(s: State, e: Step, o: OutboxRuns.State)
    requires Same(s, o) && Enabled(s, e) && (e.SMarkPublished? || e.SReadRetry? || e.SWriteRetry?)
    ensures OutboxRuns.Enabled(o, Statement(s, e).value)
    ensures Same(Apply(s, e), OutboxRuns.Apply(o, Statement(s, e).value))
  {
    match e {
      case SMarkPublished(w, now) => PublishStep(s, w, now, o);
      case SReadRetry(w, now) => ReadStep(s, w, now, o);
      case SWriteRetry(w, cause) => WriteStep(s, w, cause, o);
    }
  }

  lemma {:induction false} RunStatements(s: State, es: seq<Step>, o: OutboxRuns.State)
    requires Same(s, o) && Run(s, es)
    ensures OutboxRuns.Run(o, Statements(s, es))
    ensures Same(Final(s, es), OutboxRuns.Final(o, Statements(s, es)))
    decreases |es|
  {
    if es != [] {
      var e := es[0];
      if Statement(s, e).None? {
        SilentStep(s, e, o);
        RunStatements(Apply(s, e), es[1..], o);
      } else {
        if e.SCommit? || e.SReopen? || e.SClaim? {
          ServiceStep(s, e, o);
        } else {
          MarkStep(s, e, o);
        }
        RunStatements(Apply(s, e), es[1..], OutboxRuns.Apply(o, Statement(s, e).value));
        assert Statements(s, es)[1..] == Statements(Apply(s, e), es[1..]);
      }
    }
  }

  /** On every run of the pipeline the outbox table is what its statements make of it in some run of their own, and the
      history of a row's statements decides when it can be claimed, who may mark it, and what it counts. */
  lemma RowsByStatements(mode: Mode, es: seq<Step>, id: nat, now: Time)
    requires Run(Init(mode), es)
    ensures var told := Statements(Init(mode), es); var rows := Final(Init(mode), es).rows;
            && OutboxRuns.Run(OutboxRuns.EMPTY, told) && OutboxRuns.Final(OutboxRuns.EMPTY, told).rows == rows
            && var x := OutboxRuns.History(None, told, id);
               && (id in rows <==> x.Some?)
               && (id in rows ==>
                     && rows[id].retryCount == x.value.failures
                     && (Claimable(rows[id], now) <==>
                           match x.value.life
                           case Open(from) => from.None? || from.value <= now
                           case Held(_, until) => until <= now
                           case Done(_) => false))
  {
    RunStatements(Init(mode), es, OutboxRuns.EMPTY);
    OutboxRuns.HistoryDecides(Statements(Init(mode), es), id, now, "");
  }
}

/** The two delivery modes keep apart, on any run of the pipeline, however often the mode is switched. */
module PipelineModes {
  import opened Notification
  import opened Pipeline

  // The mode after these steps.
  function Configured(mode: Mode, es: seq<Step>): Mode
    decreases |es|
  {
    if es == [] then mode else Configured(if es[0].SConfigure? then es[0].mode else mode, es[1..])
  }

  // The drafts that were delivered directly, in order.
  function Notified(es: seq<Step>): seq<Draft>
    decreases |es|
  {
    if es == [] then [] else (if es[0].SNotify? then [es[0].draft] else []) + Notified(es[1..])
  }

  // The notifications without an event id.
  function Direct(notices: seq<Notice>): seq<Draft> {
    if notices == [] then []
    else
      var last := notices[|notices| - 1];
      Direct(notices[..|notices| - 1]) + if last.eventId.None? then [last.body] else []
  }

  lemma StepDirect(s: State, e: Step)
    requires Enabled(s, e)
    ensures Direct(Apply(s, e).notices) == Direct(s.notices) + if e.SNotify? then [e.draft] else []
  {
    var t := Apply(s, e);
    if t.notices != s.notices {
      var n := t.notices[|s.notices|];
      assert t.notices == s.notices + [n];
    }
  }

  lemma Regroup(x: seq<Draft>, y: seq<Draft>, z: seq<Draft>)
    ensures x + y + z == x + (y + z)
  {
  }

  lemma {:induction false} RunDirect(s: State, es: seq<Step>)
    requires Run(s, es)
    ensures Direct(Final(s, es).notices) == Direct(s.notices) + Notified(es)
    decreases |es|
  {
    if es != [] {
      StepDirect(s, es[0]);
      RunDirect(Apply(s, es[0]), es[1..]);
      Regroup(Direct(s.notices), if es[0].SNotify? then [es[0].draft] else [], Notified(es[1..]));
    }
  }

  // The step at k delivers directly only in sync mode, and commits an outbox row only in outbox mode.
  lemma {:induction false} InItsMode(s: State, es: seq<Step>, k: nat)
    requires Run(s, es) && k < |es|
    ensures es[k].SNotify? ==> Configured(s.mode, es[..k]) == Sync
    ensures es[k].SCommit? ==> Configured(s.mode, es[..k]) == Outbox
    decreases |es|
  {
    if k > 0 {
      InItsMode(Apply(s, es[0]), es[1..], k - 1);
      assert es[..k][0] == es[0] && es[..k][1..] == es[1..][..k - 1];
    }
  }

  lemma {:induction false} RowWasCommitted(s: State, es: seq<Step>, id: nat)
    requires Run(s, es) && id in Final(s, es).rows && id !in s.rows
    ensures exists k: nat :: k < |es| && es[k].SCommit? && es[k].id == id
    decreases |es|
  {
    if es != [] {
      if id !in Apply(s, es[0]).rows {
        RowWasCommitted(Apply(s, es[0]), es[1..], id);
        var k: nat :| k < |es[1..]| && es[1..][k].SCommit? && es[1..][k].id == id;
        assert es[k + 1] == es[1..][k];
      }
    }
  }

  /** On every run, switching modes at will: the direct notifications are exactly the drafts delivered while the mode
      was sync, in order, and every outbox row was committed while the mode was outbox. */
  lemma ModesApart(mode: Mode, es: seq<Step>)
    requires Run(Init(mode), es)
    ensures Direct(Final(Init(mode), es).notices) == Notified(es)
    ensures forall k: nat :: k < |es| && es[k].SNotify? ==> Configured(mode, es[..k]) == Sync
    ensures forall id :: id in Final(Init(mode), es).rows ==>
              exists k: nat :: k < |es| && es[k].SCommit? && es[k].id == id && Configured(mode, es[..k]) == Outbox
  {
    RunDirect(Init(mode), es);
    forall k: nat | k < |es| && es[k].SNotify?
      ensures Configured(mode, es[..k]) == Sync
    {
      InItsMode(Init(mode), es, k);
    }
    forall id | id in Final(Init(mode), es).rows
      ensures exists k: nat :: k < |es| && es[k].SCommit? && es[k].id == id && Configured(mode, es[..k]) == Outbox
    {
      RowWasCommitted(Init(mode), es, id);
      var k: nat :| k < |es| && es[k].SCommit? && es[k].id == id;
      InItsMode(Init(mode), es, k);
    }
  }

  lemma {:induction false} NeverConfigured(mode: Mode, es: seq<Step>)
    requires forall k :: 0 <= k < |es| ==> !es[k].SConfigure?
    ensures Configured(mode, es) == mode
    decreases |es|
  {
    if es != [] {
      NeverConfigured(mode, es[1..]);
    }
  }

  /** So while the mode stays as it is, sync runs have no outbox row and outbox runs no direct notification. */
  lemma OneModeOnePath(mode: Mode, es: seq<Step>)
    requires Run(Init(mode), es) && forall k :: 0 <= k < |es| ==> !es[k].SConfigure?
    ensures mode == Sync ==> Final(Init(mode), es).rows == map[]
    ensures mode == Outbox ==> Direct(Final(Init(mode), es).notices) == []
  {
    ModesApart(mode, es);
    forall k: nat | k < |es|
      ensures Configured(mode, es[..k]) == mode
    {
      NeverConfigured(mode, es[..k]);
    }
    if mode == Outbox {
      NoneNotified(es);
    }
  }

  lemma {:induction false} NoneNotified(es: seq<Step>)
    requires forall k :: 0 <= k < |es| ==> !es[k].SNotify?
    ensures Notified(es) == []
    decreases |es|
  {
    if es != [] {
      NoneNotified(es[1..]);
    }
  }
}

/** Convergence for the runs of the whole pipeline: when every pod list the agent gets
shows a fixed set of pods as of some earlier state of the run, the documents at the
end are decided by the kills it observed, and by which requests were rejected.
*/
module PipelineConvergence {
  import opened Event
  import opened OomKillProbe
  import opened Ring
  import opened MergePatch
  import opened Tracer
  import opened Pipeline
  import opened Convergence

  /** The list shows the pods as of these documents. */
  ghost predicate Shows(w: World, listing: Listing, docs: Docs) {
    AllIn(w.pods, docs) && listing == Listed(Snapshot(w.pods, docs))
  }

  /** Every list a run hands out shows the pods as of the same or an earlier state. */
  ghost predicate ListsLag(w: World, s: System, steps: seq<Step>) {
    forall i | 0 <= i < |steps| && steps[i].HandleHeld? ::
      exists j | 0 <= j <= i :: Shows(w, steps[i].listing, Run(s, steps[..j]).agent.docs)
  }

  /** The events a run handles, with the outcomes in store for them. */
  ghost function Attempts(s: System, steps: seq<Step>): seq<Attempt>
    decreases |steps|
  {
    if steps == [] then []
    else
      var before, last := steps[..|steps| - 1], steps[|steps| - 1];
      var phase := Run(s, before).phase;
      Attempts(s, before)
      + if last.HandleHeld? && phase.Holding? then [Attempt(phase.event, last.outcome)] else []
  }

  function Events(ts: seq<Attempt>): (r: seq<BpfEvent>)
    ensures |r| == |ts|
  {
    seq(|ts|, i requires 0 <= i < |ts| => ts[i].event)
  }

  lemma {:induction false} RunLast(s: System, steps: seq<Step>)
    requires steps != []
    ensures Run(s, steps) == Apply(Run(s, steps[..|steps| - 1]), steps[|steps| - 1])
    decreases |steps|
  {
    hide Apply;
    var n := |steps| - 1;
    if n > 0 {
      RunLast(Apply(s, steps[0]), steps[1..]);
      assert steps[1..][..n - 1] == steps[..n][1..];
    }
  }

  lemma {:induction false} AttemptsGrow(s: System, steps: seq<Step>, j: nat)
    requires j <= |steps|
    ensures Attempts(s, steps[..j]) <= Attempts(s, steps)
    decreases |steps|
  {
    hide Run;
    if j < |steps| {
      var before := steps[..|steps| - 1];
      AttemptsGrow(s, before, j);
      assert before[..j] == steps[..j];
    } else {
      assert steps[..j] == steps;
    }
  }

  lemma LagOfPrefix(w: World, s: System, steps: seq<Step>, m: nat)
    requires ListsLag(w, s, steps) && m <= |steps|
    ensures ListsLag(w, s, steps[..m])
  {
    hide Run, Shows;
    forall i | 0 <= i < m && steps[..m][i].HandleHeld?
      ensures exists j | 0 <= j <= i :: Shows(w, steps[..m][i].listing, Run(s, steps[..m][..j]).agent.docs)
    {
      var j :| 0 <= j <= i && Shows(w, steps[i].listing, Run(s, steps[..j]).agent.docs);
      assert steps[..m][..j] == steps[..j];
    }
  }

  lemma {:induction false} ConfigStays(s: System, steps: seq<Step>)
    ensures Run(s, steps).cfg == s.cfg
    decreases |steps|
  {
    hide Decode, Handle;
    if steps != [] {
      ConfigStays(Apply(s, steps[0]), steps[1..]);
    }
  }

  /** The documents at every point of such a run. */
  lemma {:induction false} DocsAreMarkedVictims(w: World, s: System, steps: seq<Step>)
    requires w.Valid() && s.cfg == w.cfg && s.agent.docs == w.docs && ListsLag(w, s, steps)
    ensures Run(s, steps).agent.docs == AllMarked(w.cfg, w.docs, Victims(w, Attempts(s, steps)))
    decreases |steps|
  {
    hide Run, Apply, Handle, Victims, AllMarked, Snapshot, ListsLag;
    if steps == [] {
      NothingRun(w, s);
      return;
    }
    var n := |steps| - 1;
    var before, last := steps[..n], steps[n];
    var at := Run(s, before);
    RunLast(s, steps);
    LagOfPrefix(w, s, steps, n);
    DocsAreMarkedVictims(w, s, before);
    if last.HandleHeld? && at.phase.Holding? {
      var t := Attempt(at.phase.event, last.outcome);
      var j := LaggingPoint(w, s, steps);
      LagOfPrefix(w, s, steps, j);
      DocsAreMarkedVictims(w, s, steps[..j]);
      AttemptsGrow(s, before, j);
      assert before[..j] == steps[..j];
      LastAttempt(w, Attempts(s, before), Attempts(s, steps[..j]), t);
      ConfigStays(s, before);
      HandledStep(at, last.listing, last.outcome);
      StaleStep(w, at.agent, t, Victims(w, Attempts(s, steps[..j])), Victims(w, Attempts(s, before)));
    } else {
      QuietStep(at, last);
      assert Attempts(s, steps) == Attempts(s, before);
    }
  }

  lemma NothingRun(w: World, s: System)
    requires w.Valid() && s.agent.docs == w.docs
    ensures Run(s, []).agent.docs == AllMarked(w.cfg, w.docs, Victims(w, []))
  {
    hide Marked;
  }

  lemma LaggingPoint(w: World, s: System, steps: seq<Step>) returns (j: nat)
    requires ListsLag(w, s, steps) && steps != [] && steps[|steps| - 1].HandleHeld?
    ensures j < |steps| && Shows(w, steps[|steps| - 1].listing, Run(s, steps[..j]).agent.docs)
  {
    hide Run, Shows;
    j :| 0 <= j <= |steps| - 1 && Shows(w, steps[|steps| - 1].listing, Run(s, steps[..j]).agent.docs);
  }

  lemma LastAttempt(w: World, ts: seq<Attempt>, earlier: seq<Attempt>, t: Attempt)
    requires w.Valid() && earlier <= ts
    ensures Victims(w, earlier) <= Victims(w, ts)
    ensures Victims(w, ts + [t]) == Victims(w, ts) + Gain(w, t)
  {
    hide Gain;
    VictimsGrow(w, ts, |earlier|);
    assert ts[..|earlier|] == earlier;
    assert (ts + [t])[..|ts|] == ts;
  }

  // ----- The attempts are the observed events -----

  lemma {:induction false} AttemptsAreHandled(docs: Docs, s: System, steps: seq<Step>)
    requires Inv(docs, s) && Handled(s) == []
    ensures Events(Attempts(s, steps)) == Handled(Run(s, steps))
    decreases |steps|
  {
    hide Inv, Apply, Run, Handled;
    if steps == [] {
      assert Run(s, steps) == s by {
        RunNothing(s);
      }
      return;
    }
    var n := |steps| - 1;
    var before := steps[..n];
    AttemptsAreHandled(docs, s, before);
    RunInv(docs, s, before);
    RunLast(s, steps);
    InvGivesRingInv(docs, Run(s, before));
    HandledGrows(Run(s, before), steps[n]);
  }

  lemma RunNothing(s: System)
    ensures Run(s, []) == s
  {
  }

  lemma InvGivesRingInv(docs: Docs, s: System)
    requires Inv(docs, s)
    ensures RingInv(s)
  {
  }

  // ----- Whole runs from the start -----

  function Begin(w: World, capacity: nat, metrics: bool): System {
    Start(w.cfg, capacity, NoCounts(metrics), w.docs)
  }

  /** For every run of the pipeline with lagging lists: at the end just those pods are
      marked that some handled event is about and whose request was not rejected. */
  lemma StalePipelineRunsConverge(w: World, capacity: nat, metrics: bool, steps: seq<Step>)
    requires w.Valid() && ListsLag(w, Begin(w, capacity, metrics), steps)
    ensures
      var s := Begin(w, capacity, metrics);
      var end := Reached(w.cfg, capacity, metrics, w.docs, steps);
      && Events(Attempts(s, steps)) == Handled(end)
      && end.agent.docs == AllMarked(w.cfg, w.docs, Victims(w, Attempts(s, steps)))
  {
    hide Run, Inv, Victims, AllMarked, ListsLag, Attempts;
    var s := Begin(w, capacity, metrics);
    StartInv(w.cfg, capacity, metrics, w.docs);
    AttemptsAreHandled(w.docs, s, steps);
    DocsAreMarkedVictims(w, s, steps);
  }

  predicate NoneRejected(steps: seq<Step>) {
    forall i | 0 <= i < |steps| :: steps[i].HandleHeld? ==> !steps[i].outcome.Rejected?
  }

  lemma {:induction false} NoAttemptRejected(s: System, steps: seq<Step>)
    requires NoneRejected(steps)
    ensures forall i | 0 <= i < |Attempts(s, steps)| :: !Attempts(s, steps)[i].outcome.Rejected?
    decreases |steps|
  {
    hide Run;
    if steps != [] {
      NoAttemptRejected(s, steps[..|steps| - 1]);
    }
  }

  lemma VictimsOfEvents(w: World, ts: seq<Attempt>, us: seq<Attempt>)
    requires w.Valid()
    requires forall i | 0 <= i < |us| :: !us[i].outcome.Rejected?
    requires forall e | e in Events(ts) :: e in Events(us)
    ensures Victims(w, ts) <= Victims(w, us)
  {
    hide Victims, NewVictim;
    forall pod | pod in Victims(w, ts)
      ensures pod in Victims(w, us)
    {
      VictimsMembers(w, ts, pod);
      VictimsMembers(w, us, pod);
      var i :| 0 <= i < |ts| && pod in Gain(w, ts[i]);
      assert Events(ts)[i] in Events(us);
      var j :| 0 <= j < |us| && Events(us)[j] == Events(ts)[i];
      assert pod in Gain(w, us[j]);
    }
  }

  /** So with no request rejected the observed kills alone decide: two runs that handle
      the same set of events, in any order and any number of times, with any lag, ring
      size and interleaving, end with the same documents. */
  lemma KillsAloneDecide(w: World, capacity: nat, metrics: bool, steps: seq<Step>,
                         capacity': nat, metrics': bool, steps': seq<Step>)
    requires w.Valid()
    requires ListsLag(w, Begin(w, capacity, metrics), steps) && NoneRejected(steps)
    requires ListsLag(w, Begin(w, capacity', metrics'), steps') && NoneRejected(steps')
    requires
      var end := Reached(w.cfg, capacity, metrics, w.docs, steps);
      var end' := Reached(w.cfg, capacity', metrics', w.docs, steps');
      forall e :: e in Handled(end) <==> e in Handled(end')
    ensures Reached(w.cfg, capacity, metrics, w.docs, steps).agent.docs
         == Reached(w.cfg, capacity', metrics', w.docs, steps').agent.docs
  {
    hide Run, Victims, AllMarked, ListsLag, Attempts, Reached, NoneRejected;
    var ts := Attempts(Begin(w, capacity, metrics), steps);
    var us := Attempts(Begin(w, capacity', metrics'), steps');
    StalePipelineRunsConverge(w, capacity, metrics, steps);
    StalePipelineRunsConverge(w, capacity', metrics', steps');
    NoAttemptRejected(Begin(w, capacity, metrics), steps);
    NoAttemptRejected(Begin(w, capacity', metrics'), steps');
    VictimsOfEvents(w, ts, us);
    VictimsOfEvents(w, us, ts);
    assert Victims(w, ts) == Victims(w, us);
  }
}

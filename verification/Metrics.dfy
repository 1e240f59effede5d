/** The two labelled counter vectors of the agent. */
module Metrics {

  /** Stage and reason. */
  type Labels = (string, string)

  datatype Counters = Counters(events: map<Labels, nat>, markedVictims: map<Labels, nat>) {
    function Event(stage: string, reason: string): nat {
      Count(events, (stage, reason))
    }

    function Victim(stage: string, reason: string): nat {
      Count(markedVictims, (stage, reason))
    }
  }

  /** A cell that was never incremented reads zero. */
  function Count(vec: map<Labels, nat>, l: Labels): nat {
    if l in vec then vec[l] else 0
  }

  /** Empty labels are replaced. */
  function Effective(stage: string, reason: string): Labels {
    (if stage == "" then "unknown" else stage, if reason == "" then "none" else reason)
  }

  function Bumped(vec: map<Labels, nat>, stage: string, reason: string): map<Labels, nat> {
    var l := Effective(stage, reason);
    vec[l := Count(vec, l) + 1]
  }

  /** A vector is known by its cells. */
  lemma SameCells(v: map<Labels, nat>, w: map<Labels, nat>)
    requires v.Keys == w.Keys && forall l: Labels :: Count(v, l) == Count(w, l)
    ensures v == w
  {
    forall l | l in v
      ensures v[l] == w[l]
    {
      assert Count(v, l) == Count(w, l);
    }
  }

  class MetricsBundle {
    var events: map<Labels, nat>
    var markedVictims: map<Labels, nat>

    ghost function State(): Counters
      reads this
    {
      Counters(events, markedVictims)
    }

    constructor ()
      ensures State() == Counters(map[], map[])
    {
      events, markedVictims := map[], map[];
    }
  }

  /** IncEvent; without a metrics endpoint the receiver is nil and nothing happens. */
  method IncEvent(m: MetricsBundle?, stage: string, reason: string)
    modifies m
    ensures m != null ==> m.State() == old(m.State()).(events := Bumped(old(m.events), stage, reason))
  {
    if m == null {
      return;
    }
    var bumped := Increment(m.events, stage, reason);
    SameCells(bumped, Bumped(m.events, stage, reason));
    m.events := bumped;
  }

  /** IncMarkedVictim. */
  method IncMarkedVictim(m: MetricsBundle?, stage: string, reason: string)
    modifies m
    ensures m != null ==> m.State() == old(m.State()).(markedVictims := Bumped(old(m.markedVictims), stage, reason))
  {
    if m == null {
      return;
    }
    var bumped := Increment(m.markedVictims, stage, reason);
    SameCells(bumped, Bumped(m.markedVictims, stage, reason));
    m.markedVictims := bumped;
  }

  /** One cell, the one with the effective labels, goes up by one, from zero when it
      is new; every other cell stays, and no other one appears. */
  method Increment(vec: map<Labels, nat>, stage: string, reason: string) returns (r: map<Labels, nat>)
    ensures
      var cell := (if stage == "" then "unknown" else stage, if reason == "" then "none" else reason);
      && r.Keys == vec.Keys + {cell}
      && forall l: Labels :: Count(r, l) == Count(vec, l) + if l == cell then 1 else 0
  {
    var s, t := stage, reason;
    if s == "" {
      s := "unknown";
    }
    if t == "" {
      t := "none";
    }
    var c := if (s, t) in vec then vec[(s, t)] else 0;
    r := vec[(s, t) := c + 1];
  }
}

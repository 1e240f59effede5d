/** Stale pod lists: the list the agent decides on may show the cluster as it was
at any earlier point of the run. With a fixed set of pods and no other writer of
annotations this costs repeated patches but never changes where the cluster ends
up, whichever requests are applied, rejected or applied with their reply lost.
*/
module Convergence {
  import opened Bytes
  import opened Event
  import opened GoStrings
  import opened PodLookup
  import opened MergePatch
  import opened Metrics
  import opened Tracer

  type Docs = map<PodKey, Json>

  function KeyOf(p: Pod): PodKey {
    (p.namespace, p.name)
  }

  /** The annotations a list entry shows; the API only holds strings there. */
  function ShownAnnotations(doc: Json): map<string, string> {
    map k | k in AnnotationsOf(doc) :: if AnnotationsOf(doc)[k].Str? then AnnotationsOf(doc)[k].s else ""
  }

  function Shown(p: Pod, docs: Docs): Pod
    requires KeyOf(p) in docs
  {
    p.(annotations := ShownAnnotations(docs[KeyOf(p)]))
  }

  ghost predicate AllIn(pods: seq<Pod>, docs: Docs) {
    forall i | 0 <= i < |pods| :: KeyOf(pods[i]) in docs
  }

  /** The pod list as of the given documents. */
  function Snapshot(pods: seq<Pod>, docs: Docs): (r: seq<Pod>)
    requires AllIn(pods, docs)
    ensures |r| == |pods|
  {
    seq(|pods|, i requires 0 <= i < |pods| => Shown(pods[i], docs))
  }

  // ----- Resolution does not depend on annotations -----

  lemma {:induction false} EarliestInSnapshot(pods: seq<Pod>, docs: Docs, t: Target)
    requires AllIn(pods, docs)
    ensures Earliest(Snapshot(pods, docs), t) == Earliest(pods, t)
  {
    hide Lists, ShownAnnotations;
    if pods != [] {
      assert AllIn(pods[1..], docs);
      assert Snapshot(pods, docs)[1..] == Snapshot(pods[1..], docs);
      EarliestInSnapshot(pods[1..], docs, t);
    }
  }

  function AsShown(id: Option<ID>, docs: Docs): Option<ID> {
    if id.Some? && (id.value.namespace, id.value.name) in docs
    then Some(id.value.(annotations := ShownAnnotations(docs[(id.value.namespace, id.value.name)])))
    else id
  }

  lemma {:induction false} ResolveInSnapshot(candidates: seq<string>, pods: seq<Pod>, docs: Docs)
    requires AllIn(pods, docs)
    ensures Resolve(candidates, Snapshot(pods, docs)) == AsShown(Resolve(candidates, pods), docs)
    ensures
      var id := Resolve(candidates, pods);
      id.Some? ==> (id.value.namespace, id.value.name) in docs
  {
    hide TargetOf, Earliest, ShownAnnotations;
    if candidates != [] {
      EarliestInSnapshot(pods, docs, TargetOf(candidates[0]));
      ResolveInSnapshot(candidates[1..], pods, docs);
    }
  }

  // ----- What a run should mark -----

  /** A fixed set of pods and their documents at the start. */
  datatype World = World(cfg: Config, pods: seq<Pod>, docs: Docs) {
    ghost predicate Valid() {
      AllIn(pods, docs)
    }
  }

  /** An event, and what becomes of the patch request should it lead to one. */
  datatype Attempt = Attempt(event: BpfEvent, outcome: Outcome)

  /** The pod an event is about, when the agent acts on it and the pod was not
      marked from the start. */
  ghost function NewVictim(w: World, e: BpfEvent): Option<PodKey>
    requires w.Valid()
  {
    var id := Resolve(CharsToStrings(e.names), w.pods);
    ResolveInSnapshot(CharsToStrings(e.names), w.pods, w.docs);
    if w.cfg.key != "" && GatedIn(w.cfg, e) && id.Some?
       && w.cfg.key !in AnnotationsOf(w.docs[(id.value.namespace, id.value.name)])
    then Some((id.value.namespace, id.value.name))
    else None
  }

  /** The pod an attempt leaves marked; none when the server rejects the request. */
  ghost function Gain(w: World, t: Attempt): (r: set<PodKey>)
    requires w.Valid()
    ensures forall pod | pod in r :: pod in w.docs && w.cfg.key !in AnnotationsOf(w.docs[pod])
  {
    var v := NewVictim(w, t.event);
    ResolveInSnapshot(CharsToStrings(t.event.names), w.pods, w.docs);
    if v.Some? && !t.outcome.Rejected? then {v.value} else {}
  }

  /** The pods with at least one attempt that is not rejected. */
  ghost function Victims(w: World, ts: seq<Attempt>): (r: set<PodKey>)
    requires w.Valid()
    ensures forall pod | pod in r :: pod in w.docs && w.cfg.key !in AnnotationsOf(w.docs[pod])
  {
    if ts == [] then {} else Victims(w, ts[..|ts| - 1]) + Gain(w, ts[|ts| - 1])
  }

  lemma {:induction false} VictimsMembers(w: World, ts: seq<Attempt>, pod: PodKey)
    requires w.Valid()
    ensures pod in Victims(w, ts) <==> exists i | 0 <= i < |ts| :: pod in Gain(w, ts[i])
  {
    hide Gain;
    if ts != [] {
      var n := |ts| - 1;
      VictimsMembers(w, ts[..n], pod);
      if pod in Victims(w, ts[..n]) {
        var i :| 0 <= i < n && pod in Gain(w, ts[..n][i]);
        assert pod in Gain(w, ts[i]);
      }
    }
  }

  lemma VictimsGrow(w: World, ts: seq<Attempt>, m: nat)
    requires w.Valid() && m <= |ts|
    ensures Victims(w, ts[..m]) <= Victims(w, ts)
  {
    hide Victims, Gain;
    forall pod | pod in Victims(w, ts[..m])
      ensures pod in Victims(w, ts)
    {
      VictimsMembers(w, ts[..m], pod);
      VictimsMembers(w, ts, pod);
      var i :| 0 <= i < m && pod in Gain(w, ts[..m][i]);
      assert pod in Gain(w, ts[i]);
    }
  }

  function AllMarked(cfg: Config, docs: Docs, pods: set<PodKey>): Docs {
    map pod | pod in docs :: if pod in pods then Marked(docs[pod], cfg.key, cfg.val) else docs[pod]
  }

  lemma AllMarkedKeys(w: World, marked: set<PodKey>)
    requires w.Valid()
    ensures AllMarked(w.cfg, w.docs, marked).Keys == w.docs.Keys
    ensures AllIn(w.pods, AllMarked(w.cfg, w.docs, marked))
  {
  }

  lemma AllMarkedShows(w: World, marked: set<PodKey>, pod: PodKey)
    requires w.Valid() && pod in w.docs
    ensures w.cfg.key in ShownAnnotations(AllMarked(w.cfg, w.docs, marked)[pod])
       <==> pod in marked || w.cfg.key in AnnotationsOf(w.docs[pod])
  {
    hide Marked;
    MarkedFrame(w.docs[pod], w.cfg.key, w.cfg.val);
  }

  lemma MarkOneMore(w: World, marked: set<PodKey>, pod: PodKey)
    requires w.Valid() && pod in w.docs
    ensures
      var docs := AllMarked(w.cfg, w.docs, marked);
      docs[pod := Marked(docs[pod], w.cfg.key, w.cfg.val)] == AllMarked(w.cfg, w.docs, marked + {pod})
  {
    hide Marked;
    MarkedFrame(w.docs[pod], w.cfg.key, w.cfg.val);
  }

  // ----- One event on a stale list -----

  /** The number of marks counted. */
  function Marks(a: Agent): nat {
    if a.counters.None? then 0 else Total(a.counters.value, MarkApplied)
  }

  /** The event leads to a request: its victim does not show as marked in a list from
      when just `stale` were. */
  ghost predicate Asks(w: World, e: BpfEvent, stale: set<PodKey>)
    requires w.Valid()
  {
    NewVictim(w, e).Some? && NewVictim(w, e).value !in stale
  }

  lemma CountedMarks(a: Agent, c: Cell)
    ensures a.Counted(c).docs == a.docs && a.Counted(c).counters.Some? == a.counters.Some?
    ensures Marks(a.Counted(c)) == Marks(a) + if a.counters.Some? && c == MarkApplied then 1 else 0
  {
    hide Total, Bump;
    if a.counters.Some? {
      CountedCells(a, c);
    }
  }

  lemma StaleMark(cfg: Config, a: Agent, e: BpfEvent, pods: seq<Pod>, id: ID, outcome: Outcome)
    requires (id.namespace, id.name) in a.docs
    ensures
      var pod := (id.namespace, id.name);
      var a' := Mark(cfg, a, e, pods, id, outcome);
      var asks := cfg.key != "" && cfg.key !in id.annotations;
      && a'.docs == (if asks && !outcome.Rejected?
                     then a.docs[pod := Marked(a.docs[pod], cfg.key, cfg.val)] else a.docs)
      && Marks(a') == Marks(a) + if a.counters.Some? && asks && outcome.Applied? then 1 else 0
  {
    hide Marks, Bump, Annotated;
    var pod, annotations := (id.namespace, id.name), map[cfg.key := cfg.val];
    var a1 := a.(docs := DocsAfter(a.docs, pod, annotations, outcome),
                 requests := a.requests + [Request(pod, e, pods)]);
    assert Marks(a1) == Marks(a) by {
      SameCountersSameMarks(a, a1);
    }
    CountedMarks(a, AlreadyMarked);
    CountedMarks(a1, MarkApplied);
    CountedMarks(a1, AnnotationFailed);
  }

  lemma SameCountersSameMarks(a: Agent, b: Agent)
    requires a.counters == b.counters
    ensures Marks(a) == Marks(b)
  {
  }

  /** An event handled on a list from when `stale` were marked, in a cluster where
      `marked` are: the gain of the attempt is marked in addition. */
  lemma StaleStep(w: World, a: Agent, t: Attempt, stale: set<PodKey>, marked: set<PodKey>)
    requires w.Valid()
    requires stale <= marked && a.docs == AllMarked(w.cfg, w.docs, marked)
    ensures
      var list := Snapshot(w.pods, AllMarked(w.cfg, w.docs, stale));
      var a' := Handle(w.cfg, a, t.event, Listed(list), t.outcome).0;
      && a'.docs == AllMarked(w.cfg, w.docs, marked + Gain(w, t))
      && Marks(a') == Marks(a) + if a.counters.Some? && Asks(w, t.event, stale) && t.outcome.Applied? then 1 else 0
  {
    hide Resolve, Marks, Bump, CharsToString, Snapshot, AllMarked, ShownAnnotations, Marked, Mark;
    var docs := AllMarked(w.cfg, w.docs, stale);
    AllMarkedKeys(w, stale);
    AllMarkedKeys(w, marked);
    var list := Snapshot(w.pods, docs);
    var names := CharsToStrings(t.event.names);
    ResolveInSnapshot(names, w.pods, w.docs);
    ResolveInSnapshot(names, w.pods, docs);
    var id := Resolve(names, w.pods);
    var seen := a.Counted(Observed);
    CountedMarks(a, Observed);
    CountedMarks(seen, NonGlobal);
    CountedMarks(seen, NoMatch);
    CountedMarks(seen, Identified);
    assert marked + {} == marked;
    if id.Some? && GatedIn(w.cfg, t.event) {
      var pod := (id.value.namespace, id.value.name);
      AllMarkedShows(w, stale, pod);
      assert pod in marked ==> marked + {pod} == marked;
      MarkOneMore(w, marked, pod);
      StaleMark(w.cfg, seen.Counted(Identified), t.event, list, AsShown(id, docs).value, t.outcome);
    }
  }

  // ----- Runs -----

  /** Attempt i may be decided on the cluster as of any earlier one. */
  ghost predicate Picks(ts: seq<Attempt>, picks: seq<nat>) {
    |picks| == |ts| && forall i | 0 <= i < |picks| :: picks[i] <= i
  }

  /** Every list is up to date. */
  function Fresh(n: nat): seq<nat> {
    seq(n, i => i)
  }

  /** The agent before and after each of the first n attempts, where attempt i is
      decided on the list as of picks[i]. */
  ghost function States(w: World, ts: seq<Attempt>, picks: seq<nat>, n: nat): (r: seq<Agent>)
    requires w.Valid() && Picks(ts, picks) && n <= |ts|
    ensures |r| == n + 1
    ensures forall i | 0 <= i <= n :: r[i].docs.Keys == w.docs.Keys
  {
    if n == 0 then [Agent(Some(Counters(map[], map[])), w.docs, [])]
    else
      var before := States(w, ts, picks, n - 1);
      assert AllIn(w.pods, before[picks[n - 1]].docs);
      var list := Snapshot(w.pods, before[picks[n - 1]].docs);
      HandleKeepsKeys(w.cfg, before[n - 1], ts[n - 1].event, Listed(list), ts[n - 1].outcome);
      before + [Handle(w.cfg, before[n - 1], ts[n - 1].event, Listed(list), ts[n - 1].outcome).0]
  }

  lemma HandleKeepsKeys(cfg: Config, a: Agent, e: BpfEvent, listing: Listing, outcome: Outcome)
    ensures Handle(cfg, a, e, listing, outcome).0.docs.Keys == a.docs.Keys
  {
    hide Resolve, Marked, Justified;
    HandleIsSafe(cfg, a, e, listing, outcome);
  }

  /** Attempt i repeats a mark: its victim was marked before, but the list it is decided
      on is older than that, and the server applies the patch once more. */
  ghost predicate RepeatsMark(w: World, ts: seq<Attempt>, picks: seq<nat>, i: nat)
    requires w.Valid() && Picks(ts, picks) && i < |ts|
  {
    && Asks(w, ts[i].event, Victims(w, ts[..picks[i]]))
    && !Asks(w, ts[i].event, Victims(w, ts[..i]))
    && ts[i].outcome.Applied?
  }

  /** Attempt i marks a pod that was not marked, but its reply is lost. */
  ghost predicate LosesMark(w: World, ts: seq<Attempt>, i: nat)
    requires w.Valid() && i < |ts|
  {
    Asks(w, ts[i].event, Victims(w, ts[..i])) && ts[i].outcome.ReplyLost?
  }

  ghost function Repeats(w: World, ts: seq<Attempt>, picks: seq<nat>, n: nat): nat
    requires w.Valid() && Picks(ts, picks) && n <= |ts|
  {
    if n == 0 then 0 else Repeats(w, ts, picks, n - 1) + if RepeatsMark(w, ts, picks, n - 1) then 1 else 0
  }

  ghost function Losses(w: World, ts: seq<Attempt>, n: nat): nat
    requires w.Valid() && n <= |ts|
  {
    if n == 0 then 0 else Losses(w, ts, n - 1) + if LosesMark(w, ts, n - 1) then 1 else 0
  }

  lemma {:induction false} NoRepeats(w: World, ts: seq<Attempt>, picks: seq<nat>, n: nat)
    requires w.Valid() && Picks(ts, picks) && n <= |ts|
    ensures Repeats(w, ts, picks, n) == 0 <==> forall i | 0 <= i < n :: !RepeatsMark(w, ts, picks, i)
  {
    hide RepeatsMark;
    if n > 0 {
      NoRepeats(w, ts, picks, n - 1);
    }
  }

  lemma {:induction false} NoLosses(w: World, ts: seq<Attempt>, n: nat)
    requires w.Valid() && n <= |ts|
    ensures Losses(w, ts, n) == 0 <==> forall i | 0 <= i < n :: !LosesMark(w, ts, i)
  {
    hide LosesMark;
    if n > 0 {
      NoLosses(w, ts, n - 1);
    }
  }

  lemma StatesUnfold(w: World, ts: seq<Attempt>, picks: seq<nat>, n: nat)
    requires w.Valid() && Picks(ts, picks) && 0 < n <= |ts|
    ensures
      var before := States(w, ts, picks, n - 1);
      && AllIn(w.pods, before[picks[n - 1]].docs)
      && var list := Snapshot(w.pods, before[picks[n - 1]].docs);
      States(w, ts, picks, n)
      == before + [Handle(w.cfg, before[n - 1], ts[n - 1].event, Listed(list), ts[n - 1].outcome).0]
  {
    hide Handle, Snapshot;
  }

  lemma VictimsUnfold(w: World, ts: seq<Attempt>, n: nat)
    requires w.Valid() && 0 < n <= |ts|
    ensures
      var before := Victims(w, ts[..n - 1]);
      && Victims(w, ts[..n]) == before + Gain(w, ts[n - 1])
      && |Victims(w, ts[..n])|
         == |before| + if Asks(w, ts[n - 1].event, before) && !ts[n - 1].outcome.Rejected? then 1 else 0
  {
    hide NewVictim;
    assert ts[..n][..n - 1] == ts[..n - 1];
    var before, gain := Victims(w, ts[..n - 1]), Gain(w, ts[n - 1]);
    if gain <= before {
      assert before + gain == before;
    }
  }

  lemma NothingYet(w: World, ts: seq<Attempt>, picks: seq<nat>)
    requires w.Valid() && Picks(ts, picks)
    ensures
      var a := States(w, ts, picks, 0)[0];
      && Victims(w, ts[..0]) == {} && a.docs == AllMarked(w.cfg, w.docs, {})
      && a.counters.Some? && Marks(a) == 0
  {
    hide Marked;
  }

  /** However stale the lists, the cluster after n attempts is the start with just the
      victims marked. The marks counted are those, less the lost ones, and the repeated
      ones. */
  lemma {:induction false} StateAfter(w: World, ts: seq<Attempt>, picks: seq<nat>, n: nat)
    requires w.Valid() && Picks(ts, picks) && n <= |ts|
    ensures
      var states := States(w, ts, picks, n);
      && (forall m | 0 <= m <= n :: states[m].docs == AllMarked(w.cfg, w.docs, Victims(w, ts[..m])))
      && states[n].counters.Some?
      && Marks(states[n]) + Losses(w, ts, n) == |Victims(w, ts[..n])| + Repeats(w, ts, picks, n)
  {
    hide Handle, AllMarked, Snapshot, NewVictim, Gain, Marks, States, Victims, Repeats, Losses;
    if n == 0 {
      NothingYet(w, ts, picks);
      NothingRepeated(w, ts, picks);
    } else {
      StateAfter(w, ts, picks, n - 1);
      StatesUnfold(w, ts, picks, n);
      var p := picks[n - 1];
      VictimsGrow(w, ts[..n - 1], p);
      assert ts[..n - 1][..p] == ts[..p];
      var a := States(w, ts, picks, n - 1)[n - 1];
      var list := Snapshot(w.pods, States(w, ts, picks, n - 1)[p].docs);
      HandleKeepsMetrics(w.cfg, a, ts[n - 1].event, Listed(list), ts[n - 1].outcome);
      StaleStep(w, a, ts[n - 1], Victims(w, ts[..p]), Victims(w, ts[..n - 1]));
      VictimsUnfold(w, ts, n);
      OneMoreCounted(w, ts, picks, n);
    }
  }

  lemma NothingRepeated(w: World, ts: seq<Attempt>, picks: seq<nat>)
    requires w.Valid() && Picks(ts, picks)
    ensures Repeats(w, ts, picks, 0) == 0 && Losses(w, ts, 0) == 0
  {
  }

  lemma OneMoreCounted(w: World, ts: seq<Attempt>, picks: seq<nat>, n: nat)
    requires w.Valid() && Picks(ts, picks) && 0 < n <= |ts|
    ensures Repeats(w, ts, picks, n)
         == Repeats(w, ts, picks, n - 1) + if RepeatsMark(w, ts, picks, n - 1) then 1 else 0
    ensures Losses(w, ts, n) == Losses(w, ts, n - 1) + if LosesMark(w, ts, n - 1) then 1 else 0
  {
    hide RepeatsMark, LosesMark;
  }

  /** The pods whose mark a run added. */
  ghost function NewlyAnnotated(cfg: Config, before: Docs, after: Docs): set<PodKey>
    requires after.Keys == before.Keys
  {
    set pod | pod in before && cfg.key !in AnnotationsOf(before[pod]) && cfg.key in AnnotationsOf(after[pod])
  }

  lemma NewlyAnnotatedAreVictims(w: World, ts: seq<Attempt>)
    requires w.Valid()
    ensures
      var after := AllMarked(w.cfg, w.docs, Victims(w, ts));
      after.Keys == w.docs.Keys && NewlyAnnotated(w.cfg, w.docs, after) == Victims(w, ts)
  {
    hide Victims, Marked;
    var victims := Victims(w, ts);
    forall pod | pod in w.docs
      ensures w.cfg.key in AnnotationsOf(AllMarked(w.cfg, w.docs, victims)[pod])
         <==> pod in victims || w.cfg.key in AnnotationsOf(w.docs[pod])
    {
      AllMarkedShows(w, victims, pod);
    }
  }

  /** Convergence, whatever becomes of each request: a run on stale lists and the run on
      fresh lists end with the same documents, the start with those pods marked that
      have an attempt which is not rejected. The marked counter and the lost marks are
      the newly annotated pods and the repeated marks; on fresh lists nothing repeats. */
  lemma StaleRunsConverge(w: World, ts: seq<Attempt>, picks: seq<nat>)
    requires w.Valid() && Picks(ts, picks)
    ensures
      var n := |ts|;
      var lagging := States(w, ts, picks, n)[n];
      var current := States(w, ts, Fresh(n), n)[n];
      var added := NewlyAnnotated(w.cfg, w.docs, lagging.docs);
      && lagging.docs == current.docs == AllMarked(w.cfg, w.docs, Victims(w, ts))
      && added == Victims(w, ts)
      && Marks(lagging) + Losses(w, ts, n) == |added| + Repeats(w, ts, picks, n)
      && Marks(current) + Losses(w, ts, n) == |added|
  {
    hide Handle, AllMarked, States, Victims, Marks, NewVictim;
    var n := |ts|;
    assert ts[..n] == ts;
    StateAfter(w, ts, picks, n);
    StateAfter(w, ts, Fresh(n), n);
    NewlyAnnotatedAreVictims(w, ts);
    NoRepeats(w, ts, Fresh(n), n);
  }

  /** When no reply is lost, the marked counter is the number of newly annotated pods if
      and only if no applied request is decided on a list older than its victim's first
      mark. */
  lemma MarksAreExactIff(w: World, ts: seq<Attempt>, picks: seq<nat>)
    requires w.Valid() && Picks(ts, picks)
    requires forall i | 0 <= i < |ts| :: !ts[i].outcome.ReplyLost?
    ensures
      var after := States(w, ts, picks, |ts|)[|ts|];
      Marks(after) == |NewlyAnnotated(w.cfg, w.docs, after.docs)|
      <==> forall i | 0 <= i < |ts| :: !RepeatsMark(w, ts, picks, i)
  {
    hide States, Victims, Marks, NewVictim, RepeatsMark;
    StaleRunsConverge(w, ts, picks);
    NoRepeats(w, ts, picks, |ts|);
    NoLosses(w, ts, |ts|);
  }

  /** Two kills of one pod, both decided on the list from before the first: two marks
      are counted for one newly annotated pod. */
  lemma TwoKillsTwoMarks(w: World, e: BpfEvent, v: PodKey)
    requires w.Valid() && NewVictim(w, e) == Some(v)
    ensures
      var ts := [Attempt(e, Applied), Attempt(e, Applied)];
      && Picks(ts, [0, 0])
      && var after := States(w, ts, [0, 0], 2)[2];
      Marks(after) == 2 && NewlyAnnotated(w.cfg, w.docs, after.docs) == {v}
  {
    hide States, Marks, NewVictim, Victims, Repeats, Losses, AllMarked;
    var t := Attempt(e, Applied);
    var ts := [t, t];
    NothingYet(w, ts, [0, 0]);
    VictimsUnfold(w, ts, 1);
    VictimsUnfold(w, ts, 2);
    assert ts[..2] == ts;
    NothingRepeated(w, ts, [0, 0]);
    OneMoreCounted(w, ts, [0, 0], 1);
    OneMoreCounted(w, ts, [0, 0], 2);
    StaleRunsConverge(w, ts, [0, 0]);
  }
}

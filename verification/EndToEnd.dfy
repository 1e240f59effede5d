/** The composition: kernel memory, record, ring, decoded event, candidate names,
pod, patch.
*/
module EndToEnd {
  import opened Bytes
  import opened KernelMemory
  import opened BpfCoreRead
  import opened Event
  import opened GoStrings
  import opened OomKillProbe
  import opened Ring
  import opened Matching
  import opened PodLookup
  import opened MergePatch
  import opened Tracer
  import opened Pipeline
  import opened SmallKernel
  import opened Convergence

  predicate IsByteString(s: string) {
    forall i | 0 <= i < |s| :: s[i] as int < 0x100
  }

  /** In kernel memory, the i-th node upwards from the victim's cgroup, that is
      from oc->chosen->cgroups->dfl_cgrp->kn, is called `name`. */
  ghost predicate VictimNodeNamed(k: Kill, i: nat, name: string) {
    var f := k.fields;
    var leaf := PointerOrNull(k.heap, k.oc, [f.ocChosen, f.taskCgroups, f.cssSetDflCgrp, f.cgroupKn]);
    var node := Ancestor(k.heap, f, leaf, i);
    && node != 0
    && var nm := PointerOrNull(k.heap, node, [f.knName]);
    && nm != 0 && IsByteString(name) && IsCString(k.heap, nm, BytesOf(name))
  }

  /** The kill is one the agent acts on: any, or only those without a memory cgroup. */
  ghost predicate ActedOn(cfg: Config, k: Kill) {
    cfg.ignoreGlobalOOM || PointerOrNull(k.heap, k.oc, [k.fields.ocMemcg]) == 0
  }

  lemma NullLeaf(k: Kill, i: nat, name: string)
    requires k.Valid() && VictimNodeNamed(k, i, name)
    ensures Victim(k) != 0
  {
    hide Pointer, IsCString;
    var h, f := k.heap, k.fields;
    PointerMeans(h, k.oc, [f.ocChosen]);
    var rest := [f.taskCgroups, f.cssSetDflCgrp, f.cgroupKn];
    DereferenceConcat(h, k.oc, [f.ocChosen], rest, 8);
    assert [f.ocChosen] + rest == [f.ocChosen, f.taskCgroups, f.cssSetDflCgrp, f.cgroupKn];
    AncestorOfNull(h, f, i);
  }

  /** The name arrives at the agent unchanged. */
  lemma NameArrives(k: Kill, i: nat, name: string)
    requires k.Valid() && i < 4 && VictimNodeNamed(k, i, name) && |name| <= 127
    ensures Candidates(k)[i] == name
  {
    hide Pointer, PointerOrNull, Ancestor, IsCString, Candidates, StartNode;
    NullLeaf(k, i, name);
    StartNodeMeans(k);
    CandidateIsAncestorName(k, i);
    assert IsCString(k.heap, NamePointer(k, i), BytesOf(name));
  }

  /** What handling an event does when its victim is identified as `id`. */
  ghost predicate ActsOn(cfg: Config, a: Agent, a': Agent, e: BpfEvent, pods: seq<Pod>, id: ID, outcome: Outcome) {
    var pod := (id.namespace, id.name);
    if cfg.key == "" || cfg.key in id.annotations then
      a'.requests == a.requests && a'.docs == a.docs
    else
      && a'.requests == a.requests + [Request(pod, e, pods)]
      && a'.docs == if pod in a.docs && !outcome.Rejected?
                    then a.docs[pod := Marked(a.docs[pod], cfg.key, cfg.val)] else a.docs
  }

  lemma HandleActsOn(cfg: Config, a: Agent, e: BpfEvent, pods: seq<Pod>, id: ID, outcome: Outcome)
    requires GatedIn(cfg, e) && Resolve(CharsToStrings(e.names), pods) == Some(id)
    ensures
      var (a', next) := Handle(cfg, a, e, Listed(pods), outcome);
      next == Continue && ActsOn(cfg, a, a', e, pods, id, outcome)
  {
    hide Resolve, CharsToString, Bump, Merge;
  }

  /** In a state with the invariant of all runs, the loop is about to read the record
      of kill `k`. */
  ghost predicate NextRecordIs(docs: map<PodKey, Json>, s: System, k: Kill) {
    && Inv(docs, s) && s.phase.AtRead? && !s.readerClosed && Readable(s.ring)
    && s.ring.slots[0].ticket < |s.kills| && s.kills[s.ring.slots[0].ticket] == k
  }

  /** The victim's i-th cgroup node has the given name, and no nearer one has a name
      that resolves to a listed pod. */
  ghost predicate NearestNameIs(k: Kill, i: nat, name: string, pods: seq<Pod>) {
    && i < 4 && |name| <= 127 && VictimNodeNamed(k, i, name)
    && forall j | 0 <= j < i :: Lookup(Candidates(k)[j], pods).None?
  }

  function ReadAndHandle(s: System, pods: seq<Pod>, outcome: Outcome): System {
    Apply(Apply(s, ReadNext), HandleHeld(Listed(pods), outcome))
  }

  /** Whichever run led there: reading and handling the record of a kill acts on the
      pod that the nearest resolving name of its victim stands for. */
  lemma RecordedKillIsActedOn(docs: map<PodKey, Json>, s: System, k: Kill, i: nat, name: string,
                              pods: seq<Pod>, id: ID, outcome: Outcome)
    requires NextRecordIs(docs, s, k) && k.Valid() && ActedOn(s.cfg, k)
    requires NearestNameIs(k, i, name, pods) && Lookup(name, pods) == Some(id)
    ensures
      var s' := ReadAndHandle(s, pods, outcome);
      && s'.observed == s.observed + [EventOf(k)]
      && s'.phase == AtRead
      && Resolve(CharsToStrings(EventOf(k).names), pods) == Some(id)
      && ActsOn(s.cfg, s.agent, s'.agent, EventOf(k), pods, id, outcome)
  {
    hide Record, Encode, Decode, Accounted, Handle, Lookup, Resolve, VictimNodeNamed, CountersInv, PatchInv, Candidates,
         PointerOrNull, ActsOn;
    var e := EventOf(k);
    WireRoundTrip(Record(k));
    assert Apply(s, ReadNext) == s.(ring := Consume(s.ring), observed := s.observed + [e], phase := Holding(e));
    NameArrives(k, i, name);
    ResolveIsLeafmost(Candidates(k), pods, i);
    CandidatesAreNames(k);
    GatedByMemcg(s.cfg, k);
    HandleActsOn(s.cfg, s.agent, e, pods, id, outcome);
  }

  lemma CandidatesAreNames(k: Kill)
    ensures Candidates(k) == CharsToStrings(EventOf(k).names)
  {
  }

  lemma GatedByMemcg(cfg: Config, k: Kill)
    requires k.Valid()
    ensures GatedIn(cfg, EventOf(k)) <==> ActedOn(cfg, k)
  {
    hide Dereference;
    GlobalFlagMeans(k);
  }

  /** The pod slice of the systemd cgroup driver: the agent identifies exactly that
      uid, and patches the earliest listed pod with it. */
  lemma PodSliceKillMarksItsPod(docs: map<PodKey, Json>, s: System, k: Kill, i: nat, prefix: string, uid: string,
                                pods: seq<Pod>, n: nat, outcome: Outcome)
    requires NextRecordIs(docs, s, k) && k.Valid() && ActedOn(s.cfg, k)
    requires NoPodHit(prefix) && IsUid(uid)
    requires NearestNameIs(k, i, PodSlice(prefix, uid), pods)
    requires n < |pods| && pods[n].uid == uid && forall j | 0 <= j < n :: pods[j].uid != uid
    ensures
      var s' := ReadAndHandle(s, pods, outcome);
      && Resolve(CharsToStrings(EventOf(k).names), pods) == Some(Identity(pods[n]))
      && ActsOn(s.cfg, s.agent, s'.agent, EventOf(k), pods, Identity(pods[n]), outcome)
  {
    hide NextRecordIs, NearestNameIs, PodSlice, ActsOn, ActedOn, EventOf, TargetOf, Resolve, ReadAndHandle;
    var name := PodSlice(prefix, uid);
    SpellingsAskForTheUid(prefix, uid);
    assert Earliest(pods, ByUid(uid)) == n;
    RecordedKillIsActedOn(docs, s, k, i, name, pods, Identity(pods[n]), outcome);
  }

  /** The container scope: the agent patches the pod that runs the container. */
  lemma ScopeKillMarksItsPod(docs: map<PodKey, Json>, s: System, k: Kill, i: nat,
                             unit: string, scheme: string, cid: string,
                             pods: seq<Pod>, p: Pod, outcome: Outcome)
    requires NextRecordIs(docs, s, k) && k.Valid() && ActedOn(s.cfg, k)
    requires IsCid(cid) && NoPodHit(unit + "-") && CidText(unit).None? && CidText(scheme).None?
    requires NearestNameIs(k, i, Scope(unit, cid), pods)
    requires p in pods && scheme + "://" + cid in Statuses(p)
    requires forall q, s | q in pods && s in Statuses(q) && CidText(s) == Some(cid) :: Identity(q) == Identity(p)
    ensures
      var s' := ReadAndHandle(s, pods, outcome);
      && Resolve(CharsToStrings(EventOf(k).names), pods) == Some(Identity(p))
      && ActsOn(s.cfg, s.agent, s'.agent, EventOf(k), pods, Identity(p), outcome)
  {
    hide NextRecordIs, NearestNameIs, Scope, ActsOn, ActedOn, EventOf, Lookup, Runs, CidText, Resolve, ReadAndHandle;
    ScopeResolves(unit, scheme, cid, pods, p);
    RecordedKillIsActedOn(docs, s, k, i, Scope(unit, cid), pods, Identity(p), outcome);
  }

  // ----- Every pending kill -----

  /** All records in the ring are submitted, and the loop is at an open reader. */
  ghost predicate Drainable(docs: map<PodKey, Json>, s: System) {
    && Inv(docs, s) && s.phase.AtRead? && !s.readerClosed
    && forall i | 0 <= i < |s.ring.slots| ::
         s.ring.slots[i].data.Some? && s.ring.slots[i].ticket < |s.kills|
  }

  /** One round per entry: read, then handle on that pod list. */
  function Drain(s: System, rounds: seq<(seq<Pod>, Outcome)>): System
    decreases |rounds|
  {
    if rounds == [] then s else Drain(ReadAndHandle(s, rounds[0].0, rounds[0].1), rounds[1..])
  }

  /** The kill whose record is the i-th in the ring. */
  ghost function Pending(docs: map<PodKey, Json>, s: System, i: nat): Kill
    requires Drainable(docs, s) && i < |s.ring.slots|
  {
    s.kills[s.ring.slots[i].ticket]
  }

  lemma HandleContinues(cfg: Config, a: Agent, e: BpfEvent, pods: seq<Pod>, outcome: Outcome)
    ensures Handle(cfg, a, e, Listed(pods), outcome).1 == Continue
  {
    hide Resolve, Mark, CharsToString, Bump;
  }

  /** A round takes the oldest record and leaves the others. */
  lemma Round(docs: map<PodKey, Json>, s: System, pods: seq<Pod>, outcome: Outcome)
    requires Drainable(docs, s) && s.ring.slots != []
    ensures
      var s' := ReadAndHandle(s, pods, outcome);
      && Drainable(docs, s') && s'.kills == s.kills && s'.cfg == s.cfg
      && s'.ring == Consume(s.ring)
      && s'.observed == s.observed + [EventOf(Pending(docs, s, 0))]
  {
    hide Record, Encode, Decode, Handle, Accounted, RingInv, CountersInv, PatchInv, ShutdownInv, EventOf;
    RoundReads(docs, s);
    var e := EventOf(Pending(docs, s, 0));
    HandleContinues(s.cfg, s.agent, e, pods, outcome);
    StepKeepsInv(docs, s, ReadNext);
    StepKeepsInv(docs, Apply(s, ReadNext), HandleHeld(Listed(pods), outcome));
  }

  lemma RoundReads(docs: map<PodKey, Json>, s: System)
    requires Drainable(docs, s) && s.ring.slots != []
    ensures
      var e := EventOf(Pending(docs, s, 0));
      Apply(s, ReadNext) == s.(ring := Consume(s.ring), observed := s.observed + [e], phase := Holding(e))
  {
    hide Record, Encode, Decode, Accounted, CountersInv, PatchInv, ShutdownInv;
    WireRoundTrip(Record(Pending(docs, s, 0)));
  }

  lemma StepKeepsInv(docs: map<PodKey, Json>, s: System, step: Step)
    requires Inv(docs, s)
    ensures Inv(docs, Apply(s, step))
  {
    hide RingInv, CountersInv, PatchInv, ShutdownInv, Apply;
    RunInv(docs, s, [step]);
    assert Run(s, [step]) == Apply(s, step);
  }

  /** As many rounds as wanted take as many records, in the order of the kills. */
  lemma {:induction false} DrainTakesInOrder(docs: map<PodKey, Json>, s: System, rounds: seq<(seq<Pod>, Outcome)>)
    requires Drainable(docs, s) && |rounds| <= |s.ring.slots|
    ensures
      var s' := Drain(s, rounds);
      var n := |rounds|;
      && Drainable(docs, s') && s'.kills == s.kills && s'.cfg == s.cfg
      && s'.ring.slots == s.ring.slots[n..]
      && Kept(s'.ring) == Kept(s.ring)
      && |s'.observed| == |s.observed| + n && s'.observed[..|s.observed|] == s.observed
      && (forall i | 0 <= i < n :: s'.observed[|s.observed| + i] == EventOf(Pending(docs, s, i)))
    decreases |rounds|
  {
    hide ReadAndHandle, Inv, EventOf;
    if rounds != [] {
      var s1 := ReadAndHandle(s, rounds[0].0, rounds[0].1);
      Round(docs, s, rounds[0].0, rounds[0].1);
      assert Kept(s1.ring) == Kept(s.ring);
      DrainTakesInOrder(docs, s1, rounds[1..]);
      forall i: nat | 0 < i < |rounds|
        ensures Drain(s, rounds).observed[|s.observed| + i] == EventOf(Pending(docs, s, i))
      {
        assert Pending(docs, s1, i - 1) == Pending(docs, s, i);
        assert |s.observed| + i == |s1.observed| + (i - 1);
      }
    }
  }

  /** With one round per pending record the ring is empty and every kill that was not
      dropped has been observed. */
  lemma DrainObservesEveryKeptKill(docs: map<PodKey, Json>, s: System, rounds: seq<(seq<Pod>, Outcome)>)
    requires Drainable(docs, s) && |rounds| == |s.ring.slots|
    ensures
      var s' := Drain(s, rounds);
      && s'.ring.slots == [] && s'.ring.consumed == Kept(s.ring)
      && forall t: nat | t < |s.kills| && t !in s.ring.dropped :: EventOf(s.kills[t]) in s'.observed
  {
    hide Drain, EventOf, CountersInv, PatchInv, ShutdownInv, Encode, Record;
    DrainTakesInOrder(docs, s, rounds);
    var s' := Drain(s, rounds);
    assert s'.ring.consumed == Kept(s'.ring);
    forall t: nat | t < |s.kills| && t !in s.ring.dropped
      ensures EventOf(s.kills[t]) in s'.observed
    {
      assert t in s'.ring.consumed;
      var j :| 0 <= j < |s'.ring.consumed| && s'.ring.consumed[j] == t;
      assert s'.observed[j] == EventOf(s'.kills[t]);
    }
  }

  lemma {:induction false} DrainConcat(s: System, x: seq<(seq<Pod>, Outcome)>, y: seq<(seq<Pod>, Outcome)>)
    ensures Drain(s, x + y) == Drain(Drain(s, x), y)
    decreases |x|
  {
    hide ReadAndHandle;
    if x == [] {
      assert x + y == y;
    } else {
      assert (x + y)[1..] == x[1..] + y;
      DrainConcat(ReadAndHandle(s, x[0].0, x[0].1), x[1..], y);
    }
  }

  /** So each of them is acted on: the i-th round handles the i-th pending kill, on the
      pod its victim's nearest resolving name stands for in that round's list. */
  lemma PendingKillIsActedOn(docs: map<PodKey, Json>, s: System, rounds: seq<(seq<Pod>, Outcome)>, i: nat,
                             j: nat, name: string, id: ID)
    requires Drainable(docs, s) && i < |rounds| <= |s.ring.slots|
    requires Pending(docs, s, i).Valid() && ActedOn(s.cfg, Pending(docs, s, i))
    requires NearestNameIs(Pending(docs, s, i), j, name, rounds[i].0) && Lookup(name, rounds[i].0) == Some(id)
    ensures
      var before := Drain(s, rounds[..i]);
      var after := Drain(s, rounds[..i + 1]);
      ActsOn(s.cfg, before.agent, after.agent, EventOf(Pending(docs, s, i)), rounds[i].0, id, rounds[i].1)
  {
    hide ReadAndHandle, Inv, EventOf, NearestNameIs, ActedOn, Lookup, ActsOn, Kept;
    var before := Drain(s, rounds[..i]);
    DrainTakesInOrder(docs, s, rounds[..i]);
    assert rounds[..i + 1] == rounds[..i] + [rounds[i]];
    DrainConcat(s, rounds[..i], [rounds[i]]);
    assert Drain(before, [rounds[i]]) == ReadAndHandle(before, rounds[i].0, rounds[i].1);
    assert before.ring.slots[0] == s.ring.slots[i];
    RecordedKillIsActedOn(docs, before, Pending(docs, s, i), j, name, rounds[i].0, id, rounds[i].1);
  }

  // ----- The premises can be met -----

  /** For every nonzero name there is a kill, without a memory cgroup, whose victim's
      leaf node has it; and two steps from the start its record is the next one. */
  lemma SomeKillIsRecorded(name: string, cfg: Config, docs: map<PodKey, Json>) returns (k: Kill)
    requires IsByteString(name) && |name| <= 127 && forall i | 0 <= i < |name| :: name[i] as int != 0
    ensures k.Valid() && ActedOn(cfg, k) && VictimNodeNamed(k, 0, name)
    ensures NextRecordIs(docs, Reached(cfg, 1, true, docs, [Fire(k), Complete(0)]), k)
  {
    hide PointerOrNull, Inv, Record, Encode, IsCString, SmallHeap;
    k := NamedKill(BytesOf(name));
    NamedKillIsNamed(BytesOf(name));
    var start := Start(cfg, 1, NoCounts(true), docs);
    var steps := [Fire(k), Complete(0)];
    assert Run(start, steps) == Run(Apply(start, Fire(k)), [Complete(0)]) by {
      assert steps[1..] == [Complete(0)];
    }
    ReachedInv(cfg, 1, true, docs, steps);
  }

  /** A run with an excess of marks: one pod with uid "a", and a global kill under its
      cgroup "poda" whose event is handled twice on the list from the start. */
  lemma OvercountExample() returns (w: World, k: Kill, v: PodKey)
    ensures w.Valid() && k.Valid()
    ensures
      var ts := [Attempt(EventOf(k), Applied), Attempt(EventOf(k), Applied)];
      && Picks(ts, [0, 0])
      && var after := States(w, ts, [0, 0], 2)[2];
      Marks(after) == 2 && NewlyAnnotated(w.cfg, w.docs, after.docs) == {v}
  {
    hide Candidates, Marks, States, NewVictim, EventOf, VictimNodeNamed, NextRecordIs, NewlyAnnotated;
    v := ("ns", "p");
    w := World(Config("k", "v", false), [Pod("ns", "p", "a", map[], [], [], [])], map[v := Object(map[])]);
    var name := "pod" + "a";
    k := SomeKillIsRecorded(name, w.cfg, map[]);
    NameArrives(k, 0, name);
    CandidatesAreNames(k);
    GatedByMemcg(w.cfg, k);
    SpellingsAskForTheUid("", "a");
    assert Earliest(w.pods, ByUid("a")) == 0;
    ResolveIsLeafmost(Candidates(k), w.pods, 0);
    VictimIs(w, EventOf(k), Identity(w.pods[0]));
    TwoKillsTwoMarks(w, EventOf(k), v);
  }

  lemma VictimIs(w: World, e: BpfEvent, id: ID)
    requires w.Valid() && w.cfg.key != "" && GatedIn(w.cfg, e)
    requires Resolve(CharsToStrings(e.names), w.pods) == Some(id) && (id.namespace, id.name) in w.docs
    requires w.cfg.key !in AnnotationsOf(w.docs[(id.namespace, id.name)])
    ensures NewVictim(w, e) == Some((id.namespace, id.name))
  {
    hide Resolve, CharsToString;
  }
}

/** The agent: what it does with each event it reads. */
module Tracer {
  import opened Bytes
  import opened Event
  import opened GoStrings
  import opened PodLookup
  import opened MergePatch
  import opened Metrics

  datatype Config = Config(key: string, val: string, ignoreGlobalOOM: bool)

  /** ListPodsOnANode: an error, perhaps one that is context.Canceled, or a list
      that may lag the cluster. */
  datatype Listing = ListFailed(canceled: bool) | Listed(pods: seq<Pod>)

  /** A patch request, with the event and the list it was decided on. */
  datatype Request = Request(pod: PodKey, event: BpfEvent, pods: seq<Pod>)

  /** The counter cells the agent uses. */
  datatype Cell =
    | Observed | NonGlobal | NoMatch | Identified | AnnotationFailed // of events_total
    | MarkApplied | AlreadyMarked                                     // of marked_victims_total

  function LabelsOf(c: Cell): Labels {
    match c
    case Observed => ("observed", "ebpf_capture")
    case NonGlobal => ("skipped", "non_or_ignored_global_oom")
    case NoMatch => ("skipped", "no_pod_match")
    case Identified => ("identified", "pod_identified")
    case AnnotationFailed => ("error", "annotation_failed")
    case MarkApplied => ("marked", "annotation_applied")
    case AlreadyMarked => ("skipped", "annotation_exists")
  }

  function Bump(k: Counters, c: Cell): Counters {
    var (stage, reason) := LabelsOf(c);
    if c.MarkApplied? || c.AlreadyMarked? then k.(markedVictims := Bumped(k.markedVictims, stage, reason))
    else k.(events := Bumped(k.events, stage, reason))
  }

  function Total(k: Counters, c: Cell): nat {
    Count(if c.MarkApplied? || c.AlreadyMarked? then k.markedVictims else k.events, LabelsOf(c))
  }

  lemma LabelsDiffer(c: Cell, d: Cell)
    ensures LabelsOf(c) == LabelsOf(d) ==> c == d
    ensures Effective(LabelsOf(c).0, LabelsOf(c).1) == LabelsOf(c)
  {
  }

  lemma BumpCounts(k: Counters, c: Cell, d: Cell)
    ensures Total(Bump(k, c), d) == Total(k, d) + if c == d then 1 else 0
  {
    hide LabelsOf;
    LabelsDiffer(c, d);
  }

  /** The counters (none without a metrics endpoint), the cluster, and all patch
      requests so far. */
  datatype Agent = Agent(counters: Option<Counters>, docs: map<PodKey, Json>, requests: seq<Request>) {
    function Counted(c: Cell): Agent {
      if counters.None? then this else this.(counters := Some(Bump(counters.value, c)))
    }
  }

  /** How the loop goes on: the next read, or a return of the list error. */
  datatype Next = Continue | Stop(canceled: bool)

  /** The annotation step for an identified victim. */
  function Mark(cfg: Config, a: Agent, e: BpfEvent, pods: seq<Pod>, id: ID, outcome: Outcome): Agent {
    if cfg.key == "" then a
    else if cfg.key in id.annotations then a.Counted(AlreadyMarked)
    else
      var pod := (id.namespace, id.name);
      var annotations := map[cfg.key := cfg.val];
      var a' := a.(docs := DocsAfter(a.docs, pod, annotations, outcome),
                   requests := a.requests + [Request(pod, e, pods)]);
      if Accepted(a.docs, pod, annotations, outcome)
      then a'.Counted(MarkApplied)
      else a'.Counted(AnnotationFailed)
  }

  predicate GatedIn(cfg: Config, e: BpfEvent) {
    cfg.ignoreGlobalOOM || e.globalOom
  }

  /** One decoded event. */
  function Handle(cfg: Config, a: Agent, e: BpfEvent, listing: Listing, outcome: Outcome): (Agent, Next) {
    var seen := a.Counted(Observed);
    if !GatedIn(cfg, e) then (seen.Counted(NonGlobal), Continue)
    else
      match listing
      case ListFailed(canceled) => (seen, Stop(canceled))
      case Listed(pods) =>
        match Resolve(CharsToStrings(e.names), pods)
        case None => (seen.Counted(NoMatch), Continue)
        case Some(id) =>
          (Mark(cfg, seen.Counted(Identified), e, pods, id, outcome), Continue)
  }

  // ----- The loop -----

  /** What one pass through the loop finds at the reader. */
  datatype Input =
    | ReadError
    | ReaderClosed(contextDone: bool)
    | Sample(raw: seq<Byte>, listing: Listing, outcome: Outcome)

  /** The loop's return value: ctx.Err(), nil unless the context is done, or the
      list error. */
  datatype Exit = ContextError(done: bool) | ListError(canceled: bool)

  function Pass(cfg: Config, a: Agent, input: Input): (Agent, Option<Exit>) {
    match input
    case ReadError => (a, None)
    case ReaderClosed(done) => (a, Some(ContextError(done)))
    case Sample(raw, listing, outcome) =>
      match Decode(raw)
      case None => (a, None)
      case Some(e) =>
        var (a', next) := Handle(cfg, a, e, listing, outcome);
        (a', match next case Continue => None case Stop(canceled) => Some(ListError(canceled)))
  }

  function Passes(cfg: Config, a: Agent, inputs: seq<Input>): (Agent, Option<Exit>)
    decreases |inputs|
  {
    if inputs == [] then (a, None)
    else
      var (a', exit) := Pass(cfg, a, inputs[0]);
      if exit.Some? then (a', exit) else Passes(cfg, a', inputs[1..])
  }

  class OOMTracer {
    const cfg: Config
    const cluster: Cluster
    const metrics: MetricsBundle?
    ghost var requests: seq<Request>

    ghost function View(): Agent
      reads this, cluster, metrics
    {
      Agent(if metrics == null then None else Some(metrics.State()), cluster.docs, requests)
    }

    constructor (cfg: Config, cluster: Cluster, metrics: MetricsBundle?)
      ensures this.cfg == cfg && this.cluster == cluster && this.metrics == metrics && requests == []
    {
      this.cfg, this.cluster, this.metrics := cfg, cluster, metrics;
      requests := [];
    }

    /** The annotation step. */
    method MarkVictim(e: BpfEvent, pods: seq<Pod>, id: ID, outcome: Outcome)
      modifies this, cluster, metrics
      ensures View() == Mark(cfg, old(View()), e, pods, id, outcome)
    {
      hide DocsAfter, Accepted, Bumped;
      if cfg.key != "" {
        if cfg.key !in id.annotations {
          var annotations := map[cfg.key := cfg.val];
          requests := requests + [Request((id.namespace, id.name), e, pods)];
          var ok := cluster.AnnotatePod(id.namespace, id.name, annotations, outcome);
          if !ok {
            IncEvent(metrics, "error", "annotation_failed");
            return;
          }
          IncMarkedVictim(metrics, "marked", "annotation_applied");
          return;
        }
        IncMarkedVictim(metrics, "skipped", "annotation_exists");
      }
    }

    /** The loop body after decoding. */
    method HandleEvent(e: BpfEvent, listing: Listing, outcome: Outcome) returns (next: Next)
      modifies this, cluster, metrics
      ensures (View(), next) == Handle(cfg, old(View()), e, listing, outcome)
    {
      hide Mark, Resolve, Bumped, CharsToString;
      IncEvent(metrics, "observed", "ebpf_capture");
      var candidates := Int8SliceToStringSlice(e.names);
      if !cfg.ignoreGlobalOOM && !e.globalOom {
        IncEvent(metrics, "skipped", "non_or_ignored_global_oom");
        return Continue;
      }
      next := Continue;
      if candidates != null {
        if listing.ListFailed? {
          return Stop(listing.canceled);
        }
        var pods := listing.pods;
        var id := ResolveCandidates(candidates[..], pods);
        if id.None? {
          IncEvent(metrics, "skipped", "no_pod_match");
          return Continue;
        }
        IncEvent(metrics, "identified", "pod_identified");
        MarkVictim(e, pods, id.value, outcome);
      }
    }

    /** TraceKernelOOMKills, for as long as inputs last. */
    method TraceKernelOOMKills(inputs: seq<Input>) returns (exit: Option<Exit>)
      modifies this, cluster, metrics
      ensures (View(), exit) == Passes(cfg, old(View()), inputs)
    {
      hide Handle, Decode;
      for i := 0 to |inputs|
        invariant Passes(cfg, old(View()), inputs) == Passes(cfg, View(), inputs[i..])
      {
        match inputs[i] {
          case ReadError =>
          case ReaderClosed(done) =>
            return Some(ContextError(done));
          case Sample(raw, listing, outcome) =>
            var event := Decode(raw);
            if event.Some? {
              var next := HandleEvent(event.value, listing, outcome);
              if next.Stop? {
                return Some(ListError(next.canceled));
              }
            }
        }
      }
      return None;
    }
  }

  // ----- Conservation of the counters -----

  /** Every observed event is accounted for, up to `open` of them; and with a key
      set, every identified victim. */
  ghost predicate Balanced(k: Counters, marking: bool, open: nat) {
    && Total(k, Observed) == Total(k, NonGlobal) + Total(k, NoMatch) + Total(k, Identified) + open
    && Total(k, MarkApplied) + Total(k, AlreadyMarked) + Total(k, AnnotationFailed)
       == if marking then Total(k, Identified) else 0
  }

  lemma CountedCells(a: Agent, c: Cell)
    requires a.counters.Some?
    ensures a.Counted(c).counters.Some?
    ensures forall d :: Total(a.Counted(c).counters.value, d) == Total(a.counters.value, d) + if c == d then 1 else 0
  {
    forall d {
      BumpCounts(a.counters.value, c, d);
    }
  }

  lemma MarkBalances(cfg: Config, a: Agent, e: BpfEvent, pods: seq<Pod>, id: ID, outcome: Outcome)
    requires a.counters.Some?
    ensures
      var a' := Mark(cfg, a, e, pods, id, outcome);
      && a'.counters.Some?
      && var (k, k') := (a.counters.value, a'.counters.value);
      && (forall d: Cell | d.Observed? || d.NonGlobal? || d.NoMatch? || d.Identified? :: Total(k', d) == Total(k, d))
      && Total(k', MarkApplied) + Total(k', AlreadyMarked) + Total(k', AnnotationFailed)
         == Total(k, MarkApplied) + Total(k, AlreadyMarked) + Total(k, AnnotationFailed)
            + (if cfg.key == "" then 0 else 1)
      && Total(k', MarkApplied) + Total(k', AnnotationFailed) - |a'.requests|
         == Total(k, MarkApplied) + Total(k, AnnotationFailed) - |a.requests|
  {
    hide Total, Bump, DocsAfter, Accepted;
    var pod, annotations := (id.namespace, id.name), map[cfg.key := cfg.val];
    var a1 := a.(docs := DocsAfter(a.docs, pod, annotations, outcome),
                 requests := a.requests + [Request(pod, e, pods)]);
    CountedCells(a, AlreadyMarked);
    CountedCells(a1, MarkApplied);
    CountedCells(a1, AnnotationFailed);
  }

  lemma HandleBalances(cfg: Config, a: Agent, e: BpfEvent, listing: Listing, outcome: Outcome)
    requires a.counters.Some? && Balanced(a.counters.value, cfg.key != "", 0)
    ensures
      var (a', next) := Handle(cfg, a, e, listing, outcome);
      && a'.counters.Some?
      && Balanced(a'.counters.value, cfg.key != "", if next.Stop? then 1 else 0)
      && var (k, k') := (a.counters.value, a'.counters.value);
      && Total(k', Observed) == Total(k, Observed) + 1
      && Total(k', NonGlobal) == Total(k, NonGlobal) + (if GatedIn(cfg, e) then 0 else 1)
      && Total(k', MarkApplied) + Total(k', AnnotationFailed) - |a'.requests|
         == Total(k, MarkApplied) + Total(k, AnnotationFailed) - |a.requests|
  {
    hide Resolve, Mark, Total, Bump;
    var seen := a.Counted(Observed);
    CountedCells(a, Observed);
    CountedCells(seen, NonGlobal);
    CountedCells(seen, NoMatch);
    CountedCells(seen, Identified);
    if listing.Listed? {
      var id := Resolve(CharsToStrings(e.names), listing.pods);
      if id.Some? {
        MarkBalances(cfg, seen.Counted(Identified), e, listing.pods, id.value, outcome);
      }
    }
  }

  lemma HandleKeepsMetrics(cfg: Config, a: Agent, e: BpfEvent, listing: Listing, outcome: Outcome)
    ensures Handle(cfg, a, e, listing, outcome).0.counters.Some? == a.counters.Some?
  {
    hide Resolve, DocsAfter, Accepted, Bump, CharsToString;
  }

  /** Which cells an event adds one to, said of the event, the list and the cluster. */
  ghost predicate Counts(cfg: Config, docs: map<PodKey, Json>, e: BpfEvent, listing: Listing, outcome: Outcome, c: Cell)
  {
    var id := if listing.Listed? then Resolve(CharsToStrings(e.names), listing.pods) else None;
    var found := GatedIn(cfg, e) && id.Some?;
    var asks := found && cfg.key != "" && cfg.key !in id.value.annotations;
    var done := asks && outcome == Applied && (id.value.namespace, id.value.name) in docs;
    match c
    case Observed => true
    case NonGlobal => !GatedIn(cfg, e)
    case NoMatch => GatedIn(cfg, e) && listing.Listed? && id.None?
    case Identified => found
    case AlreadyMarked => found && cfg.key != "" && cfg.key in id.value.annotations
    case MarkApplied => done
    case AnnotationFailed => asks && !done
  }

  lemma MarkCounts(cfg: Config, a: Agent, e: BpfEvent, pods: seq<Pod>, id: ID, outcome: Outcome, c: Cell)
    requires a.counters.Some?
    ensures
      var a' := Mark(cfg, a, e, pods, id, outcome);
      var asks := cfg.key != "" && cfg.key !in id.annotations;
      var done := asks && outcome == Applied && (id.namespace, id.name) in a.docs;
      && a'.counters.Some?
      && Total(a'.counters.value, c) == Total(a.counters.value, c) +
           if c == AlreadyMarked && cfg.key != "" && cfg.key in id.annotations then 1
           else if c == MarkApplied && done then 1
           else if c == AnnotationFailed && asks && !done then 1
           else 0
  {
    hide Total, Bump, DocsAfter;
    var pod, annotations := (id.namespace, id.name), map[cfg.key := cfg.val];
    var a1 := a.(docs := DocsAfter(a.docs, pod, annotations, outcome),
                 requests := a.requests + [Request(pod, e, pods)]);
    AcceptedMeansPatched(a.docs, pod, annotations, outcome);
    CountedCells(a, AlreadyMarked);
    CountedCells(a1, MarkApplied);
    CountedCells(a1, AnnotationFailed);
  }

  /** Each counter cell goes up by one exactly when its condition holds, and otherwise
      stays. */
  lemma HandleCounts(cfg: Config, a: Agent, e: BpfEvent, listing: Listing, outcome: Outcome, c: Cell)
    requires a.counters.Some?
    ensures
      var a' := Handle(cfg, a, e, listing, outcome).0;
      && a'.counters.Some?
      && Total(a'.counters.value, c)
         == Total(a.counters.value, c) + if Counts(cfg, a.docs, e, listing, outcome, c) then 1 else 0
  {
    hide Resolve, Mark, Total, Bump, CharsToString;
    var seen := a.Counted(Observed);
    CountedCells(a, Observed);
    CountedCells(seen, NonGlobal);
    CountedCells(seen, NoMatch);
    CountedCells(seen, Identified);
    if listing.Listed? {
      var id := Resolve(CharsToStrings(e.names), listing.pods);
      if id.Some? {
        MarkCounts(cfg, seen.Counted(Identified), e, listing.pods, id.value, outcome, c);
      }
    }
  }

  /** The loop goes on after an event exactly when it is not acted on or the list
      succeeds; otherwise it stops with the list's error and has changed nothing. */
  lemma HandleStopsIffListFails(cfg: Config, a: Agent, e: BpfEvent, listing: Listing, outcome: Outcome)
    ensures
      var (a', next) := Handle(cfg, a, e, listing, outcome);
      && (next.Stop? <==> GatedIn(cfg, e) && listing.ListFailed?)
      && (next.Stop? ==> next.canceled == listing.canceled && a'.docs == a.docs && a'.requests == a.requests)
  {
    hide Resolve, Mark, CharsToString, Bump;
  }

  /** What a pass returns: the context's error for a closed reader, the list's error for
      an event that is acted on, and otherwise nothing. A failed read, or bytes that do
      not decode, change nothing and end nothing. */
  lemma PassReturnsIff(cfg: Config, a: Agent, input: Input)
    ensures
      var (a', exit) := Pass(cfg, a, input);
      var e := if input.Sample? then Decode(input.raw) else None;
      && (forall done :: exit == Some(ContextError(done)) <==> input == ReaderClosed(done))
      && (forall canceled :: exit == Some(ListError(canceled)) <==>
            e.Some? && GatedIn(cfg, e.value) && input.listing == ListFailed(canceled))
      && (e.None? ==> a' == a)
  {
    hide Decode, Handle;
    if input.Sample? && Decode(input.raw).Some? {
      var e := Decode(input.raw).value;
      HandleStopsIffListFails(cfg, a, e, input.listing, input.outcome);
      var next := Handle(cfg, a, e, input.listing, input.outcome).1;
      assert Pass(cfg, a, input).1 == if next.Stop? then Some(ListError(next.canceled)) else None;
    }
  }

  /** Inputs are taken one after the other, up to the first that returns. */
  lemma {:induction false} PassesConcat(cfg: Config, a: Agent, xs: seq<Input>, ys: seq<Input>)
    ensures
      var (a', exit) := Passes(cfg, a, xs);
      Passes(cfg, a, xs + ys) == if exit.Some? then (a', exit) else Passes(cfg, a', ys)
    decreases |xs|
  {
    hide Pass;
    if xs == [] {
      assert xs + ys == ys;
    } else {
      assert (xs + ys)[1..] == xs[1..] + ys;
      PassesConcat(cfg, Pass(cfg, a, xs[0]).0, xs[1..], ys);
    }
  }

  function Open(exit: Option<Exit>): nat {
    if exit.Some? && exit.value.ListError? then 1 else 0
  }

  lemma PassBalances(cfg: Config, a: Agent, input: Input)
    requires a.counters.Some? && Balanced(a.counters.value, cfg.key != "", 0)
    ensures
      var (a', exit) := Pass(cfg, a, input);
      a'.counters.Some? && Balanced(a'.counters.value, cfg.key != "", Open(exit))
  {
    hide Balanced, Handle, Decode;
    if input.Sample? && Decode(input.raw).Some? {
      var e := Decode(input.raw).value;
      HandleBalances(cfg, a, e, input.listing, input.outcome);
      var (a', next) := Handle(cfg, a, e, input.listing, input.outcome);
      assert Pass(cfg, a, input).0 == a';
      assert Open(Pass(cfg, a, input).1) == if next.Stop? then 1 else 0;
    }
  }

  /** In every run of the loop the counters balance at each loop head, and are
      short by exactly one only when it returned a list error. */
  lemma {:induction false} PassesBalance(cfg: Config, a: Agent, inputs: seq<Input>)
    requires a.counters.Some? && Balanced(a.counters.value, cfg.key != "", 0)
    ensures
      var (a', exit) := Passes(cfg, a, inputs);
      a'.counters.Some? && Balanced(a'.counters.value, cfg.key != "", Open(exit))
    decreases |inputs|
  {
    hide Balanced, Pass;
    if inputs != [] {
      PassBalances(cfg, a, inputs[0]);
      var (a', exit) := Pass(cfg, a, inputs[0]);
      if exit.None? {
        PassesBalance(cfg, a', inputs[1..]);
      }
    }
  }

  // ----- Safety of the patches -----

  /** A request was decided as it should be: for the pod that the event resolves
      to in the list at hand, not yet marked there, with marking on. */
  ghost predicate Justified(cfg: Config, r: Request) {
    var id := Resolve(CharsToStrings(r.event.names), r.pods);
    && cfg.key != "" && GatedIn(cfg, r.event)
    && id.Some? && r.pod == (id.value.namespace, id.value.name) && cfg.key !in id.value.annotations
  }

  /** The documents, each as it was or with the mark added. */
  ghost predicate OnlyMarksAdded(cfg: Config, before: map<PodKey, Json>, after: map<PodKey, Json>) {
    && after.Keys == before.Keys
    && forall pod | pod in before :: after[pod] == before[pod] || after[pod] == Marked(before[pod], cfg.key, cfg.val)
  }

  /** The step issued one justified request, decided on event `e` and the given list,
      and the cluster changed at most by that mark. */
  ghost predicate OneRequest(cfg: Config, a: Agent, a': Agent, e: BpfEvent, listing: Listing) {
    && listing.Listed?
    && a'.requests != []
    && var r := a'.requests[|a'.requests| - 1];
    && a'.requests == a.requests + [r]
    && r.event == e && r.pods == listing.pods && Justified(cfg, r)
    && (a'.docs != a.docs ==> r.pod in a.docs && a'.docs == a.docs[r.pod := Marked(a.docs[r.pod], cfg.key, cfg.val)])
  }

  /** An event leads to at most one request, a justified one. */
  lemma HandleIsSafe(cfg: Config, a: Agent, e: BpfEvent, listing: Listing, outcome: Outcome)
    ensures
      var a' := Handle(cfg, a, e, listing, outcome).0;
      (a'.requests == a.requests && a'.docs == a.docs) || OneRequest(cfg, a, a', e, listing)
  {
    hide Resolve, Mark, CharsToString, Bump;
    if listing.Listed? {
      var id := Resolve(CharsToStrings(e.names), listing.pods);
      if id.Some? && GatedIn(cfg, e) {
        MarkIsSafe(cfg, a.Counted(Observed).Counted(Identified), e, listing.pods, id.value, outcome);
      }
    }
  }

  lemma MarkIsSafe(cfg: Config, a: Agent, e: BpfEvent, pods: seq<Pod>, id: ID, outcome: Outcome)
    requires GatedIn(cfg, e) && Resolve(CharsToStrings(e.names), pods) == Some(id)
    ensures
      var a' := Mark(cfg, a, e, pods, id, outcome);
      (a'.requests == a.requests && a'.docs == a.docs) || OneRequest(cfg, a, a', e, Listed(pods))
  {
    hide Resolve, Merge, CharsToString, Bump;
  }

  lemma MarkingKeepsFrame(cfg: Config, before: map<PodKey, Json>, docs: map<PodKey, Json>, pod: PodKey)
    requires OnlyMarksAdded(cfg, before, docs) && pod in docs
    ensures OnlyMarksAdded(cfg, before, docs[pod := Marked(docs[pod], cfg.key, cfg.val)])
  {
    hide Marked;
    MarkedFrame(before[pod], cfg.key, cfg.val);
  }
}

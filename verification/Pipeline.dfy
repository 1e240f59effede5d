/** The whole pipeline as one state machine: probes firing on several CPUs, the
ring between kernel and agent, the agent's loop, and the goroutine that closes
the reader when the context is cancelled. A run is any sequence of steps; a step
that is not possible in a state leaves it as it is, so the runs are all the
interleavings.
*/
module Pipeline {
  import opened Bytes
  import opened Event
  import opened KernelMemory
  import opened BpfCoreRead
  import opened OomKillProbe
  import opened Ring
  import opened Annotation
  import opened PodLookup
  import opened MergePatch
  import opened Metrics
  import opened Tracer

  /** Where the loop stands: in rd.Read, with a decoded event in hand, or gone. */
  datatype Phase =
    | AtRead
    | Holding(event: BpfEvent)
    | Returned(exit: Exit)

  /** An event that was handled: on which list, with which outcome in store for a patch
      request, and in which cluster. */
  datatype Turn = Turn(event: BpfEvent, listing: Listing, outcome: Outcome, docs: map<PodKey, Json>)

  datatype System = System(
    cfg: Config,
    kills: seq<Kill>,            // all calls of oom_kill_process, in order
    ring: RingState,
    observed: seq<BpfEvent>,     // all events the agent decoded, in order
    turns: seq<Turn>,            // all events the agent handled, in order, and on what
    agent: Agent,
    phase: Phase,
    contextDone: bool,
    readerClosed: bool)

  datatype Step =
    | Fire(kill: Kill)           // the probe runs up to its reservation
    | Complete(ticket: nat)      // a probe submits its record
    | Signal                     // SIGINT or SIGTERM cancels the context
    | CloseReader                // the goroutine behind <-ctx.Done()
    | DeferredClose              // closeFn, once the loop has returned
    | ReadFails                  // rd.Read returns some other error
    | ReadNext
    | HandleHeld(listing: Listing, outcome: Outcome)

  function Start(cfg: Config, capacity: nat, counters: Option<Counters>, docs: map<PodKey, Json>): System {
    System(cfg, [], Empty(capacity), [], [], Agent(counters, docs, []), AtRead, false, false)
  }

  function Apply(s: System, step: Step): System {
    match step
    case Fire(kill) => s.(kills := s.kills + [kill], ring := Reserve(s.ring))
    case Complete(ticket) =>
      if ticket < |s.kills| then s.(ring := Submit(s.ring, ticket, Encode(Record(s.kills[ticket])))) else s
    case Signal => s.(contextDone := true)
    case CloseReader => if s.contextDone then s.(readerClosed := true) else s
    case DeferredClose => if s.phase.Returned? then s.(readerClosed := true) else s
    case ReadFails => s
    case ReadNext => if s.phase.AtRead? then ApplyRead(s) else s
    case HandleHeld(listing, outcome) => if s.phase.Holding? then ApplyHandle(s, listing, outcome) else s
  }

  /** rd.Read and binary.Read: blocks on an unsubmitted or missing record. */
  function ApplyRead(s: System): System {
    if s.readerClosed then s.(phase := Returned(ContextError(s.contextDone)))
    else if !Readable(s.ring) then s
    else
      var head := s.ring.slots[0];
      match Decode(head.data.value)
      case None => s.(ring := Consume(s.ring))
      case Some(e) => s.(ring := Consume(s.ring), observed := s.observed + [e], phase := Holding(e))
  }

  function ApplyHandle(s: System, listing: Listing, outcome: Outcome): System
    requires s.phase.Holding?
  {
    var (agent', next) := Handle(s.cfg, s.agent, s.phase.event, listing, outcome);
    var s' := s.(agent := agent', turns := s.turns + [Turn(s.phase.event, listing, outcome, s.agent.docs)]);
    match next
    case Continue => s'.(phase := AtRead)
    case Stop(canceled) => s'.(phase := Returned(ListError(canceled)))
  }

  function Run(s: System, steps: seq<Step>): System
    decreases |steps|
  {
    if steps == [] then s else Run(Apply(s, steps[0]), steps[1..])
  }

  // ----- Kernel to agent: conservation and order -----

  /** The event the agent should see for a kill. */
  function EventOf(k: Kill): BpfEvent {
    AsBpfEvent(Record(k))
  }

  /** Every kill is dropped, pending or observed, exactly once; what a submitted
      record holds; and that the agent has seen just the consumed records. */
  ghost predicate RingInv(s: System) {
    && Accounted(s.ring)
    && s.ring.fired == |s.kills|
    && (forall i | 0 <= i < |s.ring.slots| ::
          var slot := s.ring.slots[i];
          slot.ticket < |s.kills| && (slot.data.Some? ==> slot.data.value == Encode(Record(s.kills[slot.ticket]))))
    && |s.observed| == |s.ring.consumed|
    && (forall j | 0 <= j < |s.observed| ::
          s.ring.consumed[j] < |s.kills| && s.observed[j] == EventOf(s.kills[s.ring.consumed[j]]))
    && (s.phase.Holding? ==> s.observed != [] && s.phase.event == s.observed[|s.observed| - 1])
  }

  lemma RingInvStep(s: System, step: Step)
    requires RingInv(s)
    ensures RingInv(Apply(s, step))
  {
    hide Encode, Decode, Record, Handle, RingInv, ApplyRead;
    match step
    case Fire(kill) =>
      RingInvFire(s, kill);
    case Complete(ticket) =>
      if ticket < |s.kills| {
        RingInvComplete(s, ticket);
      }
    case ReadNext =>
      if s.phase.AtRead? {
        RingInvReadNext(s);
      }
    case _ =>
      RingInvSame(s, Apply(s, step));
  }

  lemma RingInvSame(s: System, s': System)
    requires RingInv(s)
    requires s'.ring == s.ring && s'.kills == s.kills && s'.observed == s.observed
    requires s'.phase.Holding? ==> s'.phase == s.phase
    ensures RingInv(s')
  {
    hide Encode, Record, EventOf, Accounted;
  }

  lemma RingInvFire(s: System, kill: Kill)
    requires RingInv(s)
    ensures RingInv(Apply(s, Fire(kill)))
  {
    hide Encode, Record, EventOf, Accounted;
    ReserveAccounts(s.ring);
  }

  lemma RingInvComplete(s: System, ticket: nat)
    requires RingInv(s) && ticket < |s.kills|
    ensures RingInv(Apply(s, Complete(ticket)))
  {
    hide Encode, Record, EventOf, Accounted;
    SubmitAccounts(s.ring, ticket, Encode(Record(s.kills[ticket])));
  }

  lemma RingInvReadNext(s: System)
    requires RingInv(s) && s.phase.AtRead?
    ensures RingInv(ApplyRead(s))
  {
    hide Encode, Decode, Record, RingInv;
    if s.readerClosed || !Readable(s.ring) {
      RingInvSame(s, ApplyRead(s));
    } else {
      RingInvRead(s);
    }
  }

  /** Decoding never fails on a record of the probe. */
  lemma RingInvRead(s: System)
    requires RingInv(s) && !s.readerClosed && Readable(s.ring)
    ensures RingInv(ApplyRead(s))
    ensures ApplyRead(s).phase.Holding? && ApplyRead(s).observed == s.observed + [ApplyRead(s).phase.event]
  {
    hide Encode, Decode, Record, AsBpfEvent, Accounted;
    ConsumeAccounts(s.ring);
    WireRoundTrip(Record(s.kills[s.ring.slots[0].ticket]));
  }

  // ----- The counters -----

  /** How many of the events the agent does not act on. */
  function Ignored(cfg: Config, events: seq<BpfEvent>): nat {
    if events == [] then 0
    else Ignored(cfg, events[..|events| - 1]) + if GatedIn(cfg, events[|events| - 1]) then 0 else 1
  }

  function Handled(s: System): seq<BpfEvent> {
    if s.phase.Holding? && s.observed != [] then s.observed[..|s.observed| - 1] else s.observed
  }

  /** The observed counter is the number of events handled, the non-global one the
      number of those not acted on; the counters balance, with one observed event
      open after a list error; and every patch request was counted once. */
  ghost predicate CountersInv(s: System) {
    s.agent.counters.Some? ==>
      var k := s.agent.counters.value;
      && Balanced(k, s.cfg.key != "", if s.phase.Returned? && s.phase.exit.ListError? then 1 else 0)
      && Total(k, Observed) == |Handled(s)|
      && Total(k, NonGlobal) == Ignored(s.cfg, Handled(s))
      && Total(k, MarkApplied) + Total(k, AnnotationFailed) == |s.agent.requests|
  }

  lemma CountersInvStep(s: System, step: Step)
    requires RingInv(s) && CountersInv(s)
    ensures CountersInv(Apply(s, step))
  {
    hide Encode, Decode, Record, Handle, RingInv, CountersInv, ApplyRead, ApplyHandle;
    match step
    case ReadNext =>
      if s.phase.AtRead? {
        CountersInvRead(s);
      }
    case HandleHeld(listing, outcome) =>
      if s.phase.Holding? {
        CountersInvHandle(s, listing, outcome);
      }
    case _ =>
      CountersInvSame(s, Apply(s, step));
  }

  lemma CountersInvSame(s: System, s': System)
    requires CountersInv(s)
    requires s'.cfg == s.cfg && s'.agent == s.agent && s'.observed == s.observed && s'.phase == s.phase
    ensures CountersInv(s')
  {
    hide Balanced, Total, Ignored;
  }

  lemma CountersInvRead(s: System)
    requires RingInv(s) && CountersInv(s) && s.phase.AtRead?
    ensures CountersInv(ApplyRead(s))
  {
    hide Encode, Decode, Record, RingInv, Balanced, Total, Ignored;
    if !s.readerClosed && Readable(s.ring) {
      RingInvRead(s);
    }
  }

  lemma CountersInvHandle(s: System, listing: Listing, outcome: Outcome)
    requires s.phase.Holding? && RingInv(s) && CountersInv(s)
    ensures CountersInv(ApplyHandle(s, listing, outcome))
  {
    hide Balanced, Total, RingInv, Handle;
    assert s.observed != [] && s.phase.event == s.observed[|s.observed| - 1] by {
      LastIsHeld(s);
    }
    HandleKeepsMetrics(s.cfg, s.agent, s.phase.event, listing, outcome);
    if s.agent.counters.Some? {
      HandleBalances(s.cfg, s.agent, s.phase.event, listing, outcome);
    }
    var (agent', next) := Handle(s.cfg, s.agent, s.phase.event, listing, outcome);
    assert ApplyHandle(s, listing, outcome).agent == agent';
  }

  lemma LastIsHeld(s: System)
    requires RingInv(s) && s.phase.Holding?
    ensures s.observed != [] && s.phase.event == s.observed[|s.observed| - 1]
  {
  }

  // ----- The turns -----

  lemma HandledGrows(s: System, step: Step)
    requires RingInv(s)
    ensures Handled(Apply(s, step))
         == Handled(s) + if step.HandleHeld? && s.phase.Holding? then [s.phase.event] else []
  {
    hide Encode, Decode, Record, Handle, RingInv, Reserve, Submit, ApplyRead, ApplyHandle, Handled;
    if s.phase.Holding? {
      LastIsHeld(s);
    }
    match step
    case ReadNext =>
      if s.phase.AtRead? {
        ReadHandlesNothing(s);
      }
    case HandleHeld(listing, outcome) =>
      if s.phase.Holding? {
        HeldIsHandled(s, listing, outcome);
      }
    case _ =>
      SameHandled(s, Apply(s, step));
  }

  lemma SameHandled(s: System, s': System)
    requires s'.observed == s.observed && s'.phase == s.phase
    ensures Handled(s') == Handled(s)
  {
  }

  lemma ReadHandlesNothing(s: System)
    requires RingInv(s) && s.phase.AtRead?
    ensures Handled(ApplyRead(s)) == Handled(s)
  {
    hide Encode, Decode, Record, RingInv;
    if !s.readerClosed && Readable(s.ring) {
      RingInvRead(s);
    }
  }

  lemma HeldIsHandled(s: System, listing: Listing, outcome: Outcome)
    requires s.phase.Holding? && s.observed != [] && s.phase.event == s.observed[|s.observed| - 1]
    ensures Handled(ApplyHandle(s, listing, outcome)) == Handled(s) + [s.phase.event]
  {
    hide Handle;
    assert s.observed == s.observed[..|s.observed| - 1] + [s.phase.event];
  }

  lemma QuietStep(s: System, step: Step)
    requires !(step.HandleHeld? && s.phase.Holding?)
    ensures Apply(s, step).agent == s.agent
  {
    hide Decode;
  }

  lemma HandledStep(s: System, listing: Listing, outcome: Outcome)
    requires s.phase.Holding?
    ensures Apply(s, HandleHeld(listing, outcome)).agent == Handle(s.cfg, s.agent, s.phase.event, listing, outcome).0
  {
    hide Handle;
  }

  /** How many turns add one to a counter cell. */
  ghost function TurnsWith(cfg: Config, c: Cell, turns: seq<Turn>): nat {
    if turns == [] then 0
    else
      var t := turns[|turns| - 1];
      TurnsWith(cfg, c, turns[..|turns| - 1])
      + if Counts(cfg, t.docs, t.event, t.listing, t.outcome, c) then 1 else 0
  }

  /** The turns are those of the handled events, and every counter is the number of the
      turns that add to it. */
  ghost predicate TurnsInv(s: System) {
    && |s.turns| == |Handled(s)|
    && (forall i | 0 <= i < |s.turns| :: s.turns[i].event == Handled(s)[i])
    && (s.agent.counters.Some? ==> forall c :: Total(s.agent.counters.value, c) == TurnsWith(s.cfg, c, s.turns))
  }

  lemma TurnsInvStep(s: System, step: Step)
    requires RingInv(s) && TurnsInv(s)
    ensures TurnsInv(Apply(s, step))
  {
    hide RingInv, Encode, Decode, Record, Handle, Handled, TurnsWith, Total, ApplyHandle;
    HandledGrows(s, step);
    if step.HandleHeld? && s.phase.Holding? {
      TurnsInvHandle(s, step.listing, step.outcome);
    } else {
      QuietStep(s, step);
    }
  }

  lemma TurnsInvHandle(s: System, listing: Listing, outcome: Outcome)
    requires s.phase.Holding? && RingInv(s) && TurnsInv(s)
    ensures TurnsInv(ApplyHandle(s, listing, outcome))
  {
    hide RingInv, Handle, Handled, Total, Counts;
    LastIsHeld(s);
    HeldIsHandled(s, listing, outcome);
    HandleKeepsMetrics(s.cfg, s.agent, s.phase.event, listing, outcome);
    var s' := ApplyHandle(s, listing, outcome);
    assert s'.agent == Handle(s.cfg, s.agent, s.phase.event, listing, outcome).0;
    if s.agent.counters.Some? {
      forall c
        ensures Total(s'.agent.counters.value, c) == TurnsWith(s'.cfg, c, s'.turns)
      {
        HandleCounts(s.cfg, s.agent, s.phase.event, listing, outcome, c);
        assert s'.turns[..|s.turns|] == s.turns;
      }
    }
  }

  // ----- The patches -----

  ghost predicate PatchInv(docs: map<PodKey, Json>, s: System) {
    && (forall i | 0 <= i < |s.agent.requests| ::
          Justified(s.cfg, s.agent.requests[i]) && s.agent.requests[i].event in s.observed)
    && OnlyMarksAdded(s.cfg, docs, s.agent.docs)
    && (s.agent.requests == [] ==> s.agent.docs == docs)
  }

  lemma PatchInvStep(docs: map<PodKey, Json>, s: System, step: Step)
    requires RingInv(s) && PatchInv(docs, s)
    ensures PatchInv(docs, Apply(s, step))
  {
    hide Encode, Decode, Record, AsBpfEvent, Handle, Justified, OnlyMarksAdded;
    if step.HandleHeld? && s.phase.Holding? {
      PatchInvHandle(docs, s, step.listing, step.outcome);
    }
  }

  lemma PatchInvHandle(docs: map<PodKey, Json>, s: System, listing: Listing, outcome: Outcome)
    requires s.phase.Holding? && RingInv(s) && PatchInv(docs, s)
    ensures PatchInv(docs, ApplyHandle(s, listing, outcome))
  {
    hide RingInv, Handle, Justified, OnlyMarksAdded, Marked;
    LastIsHeld(s);
    var a, e := s.agent, s.phase.event;
    var s' := ApplyHandle(s, listing, outcome);
    var a' := s'.agent;
    HandleIsSafe(s.cfg, a, e, listing, outcome);
    if OneRequest(s.cfg, a, a', e, listing) {
      var r := a'.requests[|a'.requests| - 1];
      if a'.docs != a.docs {
        assert r.pod in a.docs;
        MarkingKeepsFrame(s.cfg, docs, a.docs, r.pod);
      }
    }
  }

  // ----- Shutdown -----

  ghost predicate ShutdownInv(s: System) {
    && (s.readerClosed && !s.phase.Returned? ==> s.contextDone)
    && (s.phase.Returned? && s.phase.exit.ContextError? ==> s.phase.exit.done && s.contextDone)
  }

  lemma ShutdownInvStep(s: System, step: Step)
    requires ShutdownInv(s)
    ensures ShutdownInv(Apply(s, step))
  {
    hide Encode, Decode, Record, Handle;
  }

  // ----- Every run -----

  ghost predicate Inv(docs: map<PodKey, Json>, s: System) {
    RingInv(s) && CountersInv(s) && TurnsInv(s) && PatchInv(docs, s) && ShutdownInv(s)
  }

  function NoCounts(metrics: bool): Option<Counters> {
    if metrics then Some(Counters(map[], map[])) else None
  }

  lemma StartInv(cfg: Config, capacity: nat, metrics: bool, docs: map<PodKey, Json>)
    ensures Inv(docs, Start(cfg, capacity, NoCounts(metrics), docs))
  {
    hide LabelsOf, Marked, Record, Encode, EventOf, Justified, Apply, Accounted;
    assert Accounted(Empty(capacity)) by {
      EmptyIsAccounted(capacity);
    }
  }

  lemma {:induction false} RunInv(docs: map<PodKey, Json>, s: System, steps: seq<Step>)
    requires Inv(docs, s)
    ensures Inv(docs, Run(s, steps))
    ensures Run(s, steps).cfg == s.cfg
    decreases |steps|
  {
    hide RingInv, CountersInv, TurnsInv, PatchInv, ShutdownInv, Encode, Record, Decode, Handle;
    if steps != [] {
      RingInvStep(s, steps[0]);
      CountersInvStep(s, steps[0]);
      TurnsInvStep(s, steps[0]);
      PatchInvStep(docs, s, steps[0]);
      ShutdownInvStep(s, steps[0]);
      RunInv(docs, Apply(s, steps[0]), steps[1..]);
    }
  }

  /** Reachable from a fresh start with this configuration and these documents. */
  function Reached(cfg: Config, capacity: nat, metrics: bool, docs: map<PodKey, Json>, steps: seq<Step>): System {
    Run(Start(cfg, capacity, NoCounts(metrics), docs), steps)
  }

  lemma ReachedInv(cfg: Config, capacity: nat, metrics: bool, docs: map<PodKey, Json>, steps: seq<Step>)
    ensures Inv(docs, Reached(cfg, capacity, metrics, docs, steps))
    ensures Reached(cfg, capacity, metrics, docs, steps).cfg == cfg
  {
    hide Inv;
    StartInv(cfg, capacity, metrics, docs);
    RunInv(docs, Start(cfg, capacity, NoCounts(metrics), docs), steps);
  }

  // ----- The machine's steps and the imperative code -----

  /** One pass of the agent's loop over a record is a read and a handling step. */
  lemma PassIsReadThenHandle(s: System, listing: Listing, outcome: Outcome)
    requires s.phase.AtRead? && !s.readerClosed && Readable(s.ring)
    ensures
      var s' := Apply(Apply(s, ReadNext), HandleHeld(listing, outcome));
      var (agent', exit) := Pass(s.cfg, s.agent, Sample(s.ring.slots[0].data.value, listing, outcome));
      s'.agent == agent' && s'.phase == if exit.Some? then Returned(exit.value) else AtRead
  {
    hide Decode, Handle;
  }

  /** A pass over a failed read is the machine's failing read: nothing happens. A pass
      over a closed reader is its read, which returns. */
  lemma PassIsReadFailsOrReturns(s: System)
    requires s.phase.AtRead?
    ensures Pass(s.cfg, s.agent, ReadError) == (Apply(s, ReadFails).agent, None) && Apply(s, ReadFails) == s
    ensures s.readerClosed ==>
      var (agent', exit) := Pass(s.cfg, s.agent, ReaderClosed(s.contextDone));
      exit.Some? && Apply(s, ReadNext) == s.(agent := agent', phase := Returned(exit.value))
  {
  }

  predicate IsOutside(step: Step) {
    step.Fire? || step.Complete? || step.Signal? || step.CloseReader? || step.DeferredClose?
  }

  /** The agent's own steps for one input. */
  function StepsOf(input: Input): seq<Step> {
    match input
    case ReadError => [ReadFails]
    case ReaderClosed(_) => [ReadNext]
    case Sample(_, listing, outcome) => [ReadNext, HandleHeld(listing, outcome)]
  }

  /** A run of the machine: before each input come the steps of the others. */
  function Schedule(feeds: seq<seq<Step>>, inputs: seq<Input>): seq<Step>
    requires |feeds| == |inputs|
  {
    if inputs == [] then [] else feeds[0] + StepsOf(inputs[0]) + Schedule(feeds[1..], inputs[1..])
  }

  /** The input is what the reader gives in this state. */
  ghost predicate Gives(s: System, input: Input) {
    match input
    case ReadError => true
    case ReaderClosed(done) => s.readerClosed && s.contextDone == done
    case Sample(raw, _, _) => !s.readerClosed && Readable(s.ring) && s.ring.slots[0].data.value == raw
  }

  /** Up to the input that returns, each is what the reader gives at its time. */
  ghost predicate Feeds(s: System, feeds: seq<seq<Step>>, inputs: seq<Input>)
    requires |feeds| == |inputs|
    decreases |inputs|
  {
    inputs == [] || s.phase.Returned? ||
    (&& (forall i | 0 <= i < |feeds[0]| :: IsOutside(feeds[0][i]))
     && Gives(Run(s, feeds[0]), inputs[0])
     && Feeds(Run(Run(s, feeds[0]), StepsOf(inputs[0])), feeds[1..], inputs[1..]))
  }

  lemma {:induction false} RunConcat(s: System, x: seq<Step>, y: seq<Step>)
    ensures Run(s, x + y) == Run(Run(s, x), y)
    decreases |x|
  {
    hide Apply;
    if x == [] {
      assert x + y == y;
    } else {
      assert (x + y)[1..] == x[1..] + y;
      RunConcat(Apply(s, x[0]), x[1..], y);
    }
  }

  lemma {:induction false} OutsideLeavesTheAgent(s: System, steps: seq<Step>)
    requires forall i | 0 <= i < |steps| :: IsOutside(steps[i])
    ensures Run(s, steps).agent == s.agent && Run(s, steps).phase == s.phase && Run(s, steps).cfg == s.cfg
    decreases |steps|
  {
    hide Record, Encode, Decode, Handle;
    if steps != [] {
      assert IsOutside(steps[0]);
      OutsideLeavesTheAgent(Apply(s, steps[0]), steps[1..]);
    }
  }

  lemma PassIsItsSteps(s: System, input: Input)
    requires s.phase.AtRead? && Gives(s, input)
    ensures
      var s' := Run(s, StepsOf(input));
      var (agent', exit) := Pass(s.cfg, s.agent, input);
      && s'.agent == agent' && s'.cfg == s.cfg
      && s'.phase == if exit.Some? then Returned(exit.value) else AtRead
  {
    hide Decode, Handle, Apply;
    match input
    case ReadError =>
      OneStep(s, ReadFails);
      PassIsReadFailsOrReturns(s);
    case ReaderClosed(done) =>
      OneStep(s, ReadNext);
      PassIsReadFailsOrReturns(s);
    case Sample(raw, listing, outcome) =>
      RunConcat(s, [ReadNext], [HandleHeld(listing, outcome)]);
      assert [ReadNext] + [HandleHeld(listing, outcome)] == StepsOf(input);
      OneStep(s, ReadNext);
      OneStep(Apply(s, ReadNext), HandleHeld(listing, outcome));
      PassIsReadThenHandle(s, listing, outcome);
      StepKeepsConfig(s, ReadNext);
      StepKeepsConfig(Apply(s, ReadNext), HandleHeld(listing, outcome));
  }

  lemma StepKeepsConfig(s: System, step: Step)
    ensures Apply(s, step).cfg == s.cfg
  {
    hide Record, Encode, Decode, Handle;
  }

  /** The agent's loop over a list of inputs is the run of the machine that gives it
      those inputs, with any steps of probes and canceller in between: the same agent at
      the end, and the same return value. */
  lemma {:induction false} PassesAreARun(s: System, feeds: seq<seq<Step>>, inputs: seq<Input>)
    requires |feeds| == |inputs| && s.phase.AtRead? && Feeds(s, feeds, inputs)
    ensures
      var end := Run(s, Schedule(feeds, inputs));
      var (agent', exit) := Passes(s.cfg, s.agent, inputs);
      end.agent == agent' && end.phase == if exit.Some? then Returned(exit.value) else AtRead
    decreases |inputs|
  {
    hide Apply, Pass, Gives, StepsOf;
    if inputs != [] {
      var rest := Schedule(feeds[1..], inputs[1..]);
      RunConcat(s, feeds[0] + StepsOf(inputs[0]), rest);
      RunConcat(s, feeds[0], StepsOf(inputs[0]));
      var s1 := Run(s, feeds[0]);
      OutsideLeavesTheAgent(s, feeds[0]);
      PassIsItsSteps(s1, inputs[0]);
      var s2 := Run(s1, StepsOf(inputs[0]));
      if s2.phase.Returned? {
        ReturnedStays(s2, rest);
      } else {
        PassesAreARun(s2, feeds[1..], inputs[1..]);
      }
    }
  }

  /** One uninterrupted run of the probe is a firing and a completion. */
  lemma ProbeIsFireThenComplete(s: System, k: Kill)
    requires RingInv(s)
    ensures
      var reserved := Reserve(s.ring);
      Apply(Apply(s, Fire(k)), Complete(|s.kills|)).ring ==
        if |s.ring.slots| < s.ring.capacity then Submit(reserved, s.ring.fired, Encode(Record(k))) else reserved
  {
    hide Encode, Record;
    var r := Reserve(s.ring);
    if |s.ring.slots| >= s.ring.capacity {
      forall i | 0 <= i < |r.slots|
        ensures r.slots[i].ticket != |s.kills|
      {
        assert Kept(s.ring)[|s.ring.consumed| + i] == r.slots[i].ticket;
      }
      assert Submit(r, |s.kills|, Encode(Record(k))).slots == r.slots;
    }
  }

  // ----- What every run satisfies -----

  /** Conservation and order over all interleavings: kills are dropped, pending or
      observed, and the observed events are those of an increasing selection of the
      kills. */
  lemma RunsConserveKills(cfg: Config, capacity: nat, metrics: bool, docs: map<PodKey, Json>, steps: seq<Step>)
    ensures
      var s := Reached(cfg, capacity, metrics, docs, steps);
      && |s.kills| == |s.ring.dropped| + |s.ring.slots| + |s.observed|
      && |s.ring.slots| <= capacity
      && |s.ring.consumed| == |s.observed| && Increasing(s.ring.consumed)
      && (forall j | 0 <= j < |s.observed| ::
            s.ring.consumed[j] < |s.kills| && s.observed[j] == EventOf(s.kills[s.ring.consumed[j]]))
  {
    hide Record, AsBpfEvent, Encode, Apply, CountersInv, TurnsInv, PatchInv, ShutdownInv, EventOf;
    ReachedInv(cfg, capacity, metrics, docs, steps);
    var s := Reached(cfg, capacity, metrics, docs, steps);
    assert forall j | 0 <= j < |s.ring.consumed| :: s.ring.consumed[j] == Kept(s.ring)[j];
    CapacityStays(Start(cfg, capacity, NoCounts(metrics), docs), steps);
  }

  /** A kill is dropped if and only if the ring was full when its probe fired, however
      the run goes on. */
  lemma DroppedIffFull(cfg: Config, capacity: nat, metrics: bool, docs: map<PodKey, Json>, steps: seq<Step>,
                       kill: Kill, later: seq<Step>)
    ensures
      var s := Reached(cfg, capacity, metrics, docs, steps);
      var end := Run(Apply(s, Fire(kill)), later);
      |s.kills| in end.ring.dropped <==> |s.ring.slots| == capacity
  {
    hide Record, Encode, Decode, Handle, CountersInv, TurnsInv, PatchInv, ShutdownInv, EventOf, Run;
    ReachedInv(cfg, capacity, metrics, docs, steps);
    var s := Reached(cfg, capacity, metrics, docs, steps);
    CapacityStays(Start(cfg, capacity, NoCounts(metrics), docs), steps);
    var fired := Apply(s, Fire(kill));
    RingInvStep(s, Fire(kill));
    if |s.ring.slots| == capacity {
      assert fired.ring.dropped[|s.ring.dropped|] == |s.kills|;
    }
    DroppedStays(fired, later, |s.kills|);
  }

  lemma DroppedStep(s: System, step: Step, t: nat)
    requires t < s.ring.fired
    ensures t in Apply(s, step).ring.dropped <==> t in s.ring.dropped
    ensures s.ring.fired <= Apply(s, step).ring.fired
  {
    hide Record, Encode, Decode, Handle;
  }

  /** Whether a fired kill is dropped is settled. */
  lemma {:induction false} DroppedStays(s: System, steps: seq<Step>, t: nat)
    requires t < s.ring.fired
    ensures t in Run(s, steps).ring.dropped <==> t in s.ring.dropped
    decreases |steps|
  {
    hide Apply;
    if steps != [] {
      DroppedStep(s, steps[0], t);
      DroppedStays(Apply(s, steps[0]), steps[1..], t);
    }
  }

  /** The record of kill `t` has been read, or it is in the ring with its data. */
  ghost predicate Delivered(s: System, t: nat) {
    t in s.ring.consumed
    || exists i | 0 <= i < |s.ring.slots| :: s.ring.slots[i].ticket == t && s.ring.slots[i].data.Some?
  }

  /** Once a probe that found room has submitted its record, the record is in the ring
      with the kill's bytes, or it has been read; whatever other probes, the agent and
      the canceller do in between and after, and however many records are ahead. */
  lemma SubmittedRecordsAreDelivered(cfg: Config, capacity: nat, metrics: bool, docs: map<PodKey, Json>,
                                     before: seq<Step>, kill: Kill, between: seq<Step>, after: seq<Step>)
    requires |Reached(cfg, capacity, metrics, docs, before).ring.slots| < capacity
    ensures
      var s := Reached(cfg, capacity, metrics, docs, before);
      var t := |s.kills|;
      var end := Run(Apply(Run(Apply(s, Fire(kill)), between), Complete(t)), after);
      || t in end.ring.consumed
      || Slot(t, Some(Encode(Record(kill)))) in end.ring.slots
  {
    hide Record, Encode, Decode, Handle, CountersInv, TurnsInv, PatchInv, ShutdownInv, EventOf, Run, Apply, Kept, RingInv;
    var s := Reached(cfg, capacity, metrics, docs, before);
    var t := |s.kills|;
    ReachedInv(cfg, capacity, metrics, docs, before);
    CapacityStays(Start(cfg, capacity, NoCounts(metrics), docs), before);
    var s1 := Apply(s, Fire(kill));
    FireKeeps(s, kill);
    RingInvStep(s, Fire(kill));
    var s2 := Run(s1, between);
    RunKeepsRingInv(s1, between);
    DroppedStays(s1, between, t);
    KillsStay(s1, between, t);
    var s3 := Apply(s2, Complete(t));
    CompleteDelivers(s2, t);
    RingInvStep(s2, Complete(t));
    KillsStay(s2, [Complete(t)], t);
    OneStep(s2, Complete(t));
    RunDelivers(s3, after, t);
    RunKeepsRingInv(s3, after);
    KillsStay(s3, after, t);
    DeliveredData(Run(s3, after), t);
  }

  lemma OneStep(s: System, step: Step)
    ensures Run(s, [step]) == Apply(s, step)
  {
    hide Apply;
    assert [step][1..] == [];
  }

  lemma FireKeeps(s: System, kill: Kill)
    requires RingInv(s) && |s.ring.slots| < s.ring.capacity
    ensures
      var s' := Apply(s, Fire(kill));
      && s'.kills == s.kills + [kill] && s'.ring.fired == |s.kills| + 1
      && |s.kills| !in s'.ring.dropped
  {
    hide Encode, Record, EventOf;
  }

  lemma {:induction false} RunKeepsRingInv(s: System, steps: seq<Step>)
    requires RingInv(s)
    ensures RingInv(Run(s, steps))
    decreases |steps|
  {
    hide Apply, RingInv;
    if steps != [] {
      RingInvStep(s, steps[0]);
      RunKeepsRingInv(Apply(s, steps[0]), steps[1..]);
    }
  }

  lemma {:induction false} KillsStay(s: System, steps: seq<Step>, t: nat)
    requires t < |s.kills|
    ensures t < |Run(s, steps).kills| && Run(s, steps).kills[t] == s.kills[t]
    decreases |steps|
  {
    hide Record, Encode, Decode, Handle;
    if steps != [] {
      KillsStay(Apply(s, steps[0]), steps[1..], t);
    }
  }

  /** Completing a kept kill delivers it, wherever its record stands. */
  lemma CompleteDelivers(s: System, t: nat)
    requires RingInv(s) && t < |s.kills| && t !in s.ring.dropped
    ensures Delivered(Apply(s, Complete(t)), t)
  {
    hide Encode, Record, EventOf, Submit;
    assert t in Kept(s.ring);
    var j :| 0 <= j < |Kept(s.ring)| && Kept(s.ring)[j] == t;
    var n := |s.ring.consumed|;
    if j >= n {
      SubmitFillsItsRecord(s.ring, t, Encode(Record(s.kills[t])), j - n);
    } else {
      assert s.ring.consumed[j] == t;
      SubmitKeepsConsumed(s.ring, t, Encode(Record(s.kills[t])));
    }
  }

  lemma SubmitKeepsConsumed(r: RingState, ticket: nat, data: seq<Byte>)
    ensures Submit(r, ticket, data).consumed == r.consumed
  {
  }

  lemma DeliveredStep(s: System, step: Step, t: nat)
    requires Delivered(s, t)
    ensures Delivered(Apply(s, step), t)
  {
    hide Encode, Record, Decode, Handle;
    var s' := Apply(s, step);
    if t in s.ring.consumed {
      assert t in s'.ring.consumed;
    } else {
      var i :| 0 <= i < |s.ring.slots| && s.ring.slots[i].ticket == t && s.ring.slots[i].data.Some?;
      if s'.ring == s.ring || step.Fire? || step.Complete? {
        assert s'.ring.slots[i] == s.ring.slots[i];
      } else {
        assert s'.ring == Consume(s.ring);
        if i == 0 {
          assert s'.ring.consumed[|s.ring.consumed|] == t;
        } else {
          assert s'.ring.slots[i - 1] == s.ring.slots[i];
        }
      }
    }
  }

  lemma {:induction false} RunDelivers(s: System, steps: seq<Step>, t: nat)
    requires Delivered(s, t)
    ensures Delivered(Run(s, steps), t)
    decreases |steps|
  {
    hide Apply, Delivered;
    if steps != [] {
      DeliveredStep(s, steps[0], t);
      RunDelivers(Apply(s, steps[0]), steps[1..], t);
    }
  }

  lemma DeliveredData(s: System, t: nat)
    requires RingInv(s) && Delivered(s, t) && t < |s.kills|
    ensures t in s.ring.consumed || Slot(t, Some(Encode(Record(s.kills[t])))) in s.ring.slots
  {
    hide Encode, Record, EventOf, Accounted;
    if t !in s.ring.consumed {
      var i :| 0 <= i < |s.ring.slots| && s.ring.slots[i].ticket == t && s.ring.slots[i].data.Some?;
      assert s.ring.slots[i] == Slot(t, Some(Encode(Record(s.kills[t]))));
    }
  }

  lemma {:induction false} CapacityStays(s: System, steps: seq<Step>)
    ensures Run(s, steps).ring.capacity == s.ring.capacity
    decreases |steps|
  {
    hide Record, Encode, Decode, Handle;
    if steps != [] {
      CapacityStays(Apply(s, steps[0]), steps[1..]);
    }
  }

  /** The counters at every loop head of every run, by their labels. */
  lemma RunsConserveCounters(cfg: Config, capacity: nat, docs: map<PodKey, Json>, steps: seq<Step>)
    ensures
      var s := Reached(cfg, capacity, true, docs, steps);
      && s.agent.counters.Some?
      && var k := s.agent.counters.value;
      var skipped := k.Event("skipped", "non_or_ignored_global_oom") + k.Event("skipped", "no_pod_match");
      var identified := k.Event("identified", "pod_identified");
      var decided := k.Victim("marked", "annotation_applied") + k.Victim("skipped", "annotation_exists")
                     + k.Event("error", "annotation_failed");
      && (s.phase.AtRead? ==> k.Event("observed", "ebpf_capture") == |s.observed| == skipped + identified)
      && (s.phase.Returned? ==>
            k.Event("observed", "ebpf_capture") == |s.observed|
            == skipped + identified + if s.phase.exit.ListError? then 1 else 0)
      && (!s.phase.Holding? ==> k.Event("skipped", "non_or_ignored_global_oom") == Ignored(cfg, s.observed))
      && decided == (if cfg.key != "" then identified else 0)
      && k.Victim("marked", "annotation_applied") + k.Event("error", "annotation_failed") == |s.agent.requests|
  {
    hide Record, Encode, Apply, RingInv, TurnsInv, PatchInv, ShutdownInv, EventOf;
    ReachedInv(cfg, capacity, true, docs, steps);
    CountersStay(Start(cfg, capacity, NoCounts(true), docs), steps);
  }

  /** Every counter of every run is the number of handled events that meet its condition
      in the list and the cluster they were handled on; in particular with or without a
      key the identified ones are those acted on whose names resolve. */
  lemma RunsCountTurns(cfg: Config, capacity: nat, docs: map<PodKey, Json>, steps: seq<Step>)
    ensures
      var s := Reached(cfg, capacity, true, docs, steps);
      && s.agent.counters.Some?
      && |s.turns| == |Handled(s)| && (forall i | 0 <= i < |s.turns| :: s.turns[i].event == Handled(s)[i])
      && var k := s.agent.counters.value;
      && k.Event("observed", "ebpf_capture") == TurnsWith(cfg, Observed, s.turns)
      && k.Event("skipped", "non_or_ignored_global_oom") == TurnsWith(cfg, NonGlobal, s.turns)
      && k.Event("skipped", "no_pod_match") == TurnsWith(cfg, NoMatch, s.turns)
      && k.Event("identified", "pod_identified") == TurnsWith(cfg, Identified, s.turns)
      && k.Event("error", "annotation_failed") == TurnsWith(cfg, AnnotationFailed, s.turns)
      && k.Victim("marked", "annotation_applied") == TurnsWith(cfg, MarkApplied, s.turns)
      && k.Victim("skipped", "annotation_exists") == TurnsWith(cfg, AlreadyMarked, s.turns)
  {
    hide Record, Encode, Apply, RingInv, CountersInv, PatchInv, ShutdownInv, TurnsWith, Handled, Count;
    ReachedInv(cfg, capacity, true, docs, steps);
    CountersStay(Start(cfg, capacity, NoCounts(true), docs), steps);
    var s := Reached(cfg, capacity, true, docs, steps);
    var k := s.agent.counters.value;
    assert forall c :: Total(k, c) == TurnsWith(cfg, c, s.turns);
    assert Total(k, Observed) == k.Event("observed", "ebpf_capture");
    assert Total(k, NonGlobal) == k.Event("skipped", "non_or_ignored_global_oom");
    assert Total(k, NoMatch) == k.Event("skipped", "no_pod_match");
    assert Total(k, Identified) == k.Event("identified", "pod_identified");
    assert Total(k, AnnotationFailed) == k.Event("error", "annotation_failed");
    assert Total(k, MarkApplied) == k.Victim("marked", "annotation_applied");
    assert Total(k, AlreadyMarked) == k.Victim("skipped", "annotation_exists");
  }

  lemma {:induction false} CountersStay(s: System, steps: seq<Step>)
    ensures Run(s, steps).agent.counters.Some? == s.agent.counters.Some?
    decreases |steps|
  {
    hide Record, Encode, Decode, Handle;
    if steps != [] {
      if s.phase.Holding? && steps[0].HandleHeld? {
        HandleKeepsMetrics(s.cfg, s.agent, s.phase.event, steps[0].listing, steps[0].outcome);
      }
      CountersStay(Apply(s, steps[0]), steps[1..]);
    }
  }

  /** Every patch of every run goes to the pod that the cgroup names of an observed
      kill resolve to; without the ignore flag the memcg field of that kill is null, or
      it cannot be read. */
  lemma RunsPatchSafely(cfg: Config, capacity: nat, metrics: bool, docs: map<PodKey, Json>, steps: seq<Step>, i: nat)
    returns (t: nat)
    requires i < |Reached(cfg, capacity, metrics, docs, steps).agent.requests|
    ensures
      var s := Reached(cfg, capacity, metrics, docs, steps);
      var r := s.agent.requests[i];
      && t in s.ring.consumed && t < |s.kills|
      && var id := Resolve(Candidates(s.kills[t]), r.pods);
      && id.Some? && r.pod == (id.value.namespace, id.value.name) && cfg.key !in id.value.annotations
      && (!cfg.ignoreGlobalOOM && s.kills[t].Valid() ==>
            var k := s.kills[t];
            var memcg := Dereference(k.heap, k.oc, [k.fields.ocMemcg], 8);
            if Mapped(k.heap, Plus(k.oc, k.fields.ocMemcg), 8) then memcg == Some(0) else memcg == None)
  {
    hide Record, Encode, Apply, Accounted, Resolve, CountersInv, TurnsInv, ShutdownInv, Dereference, OnlyMarksAdded;
    ReachedInv(cfg, capacity, metrics, docs, steps);
    var s := Reached(cfg, capacity, metrics, docs, steps);
    var r := s.agent.requests[i];
    var j :| 0 <= j < |s.observed| && s.observed[j] == r.event;
    t := s.ring.consumed[j];
    assert Justified(cfg, r);
    if s.kills[t].Valid() {
      GlobalFlagMeans(s.kills[t]);
    }
  }

  /** No run deletes anything from any pod, adds anything but the mark, or changes
      any other annotation. */
  lemma RunsTouchOnlyTheMark(cfg: Config, capacity: nat, metrics: bool, docs: map<PodKey, Json>, steps: seq<Step>,
                             pod: PodKey)
    requires pod in docs
    ensures
      var after := Reached(cfg, capacity, metrics, docs, steps).agent.docs;
      && after.Keys == docs.Keys
      && (after[pod] == docs[pod] || after[pod] == Marked(docs[pod], cfg.key, cfg.val))
      && AnnotationsOf(after[pod]) - {cfg.key} == AnnotationsOf(docs[pod]) - {cfg.key}
  {
    hide Record, Encode, Apply, RingInv, CountersInv, TurnsInv, ShutdownInv, Justified, Marked, Reached;
    ReachedInv(cfg, capacity, metrics, docs, steps);
    MarkedFrame(docs[pod], cfg.key, cfg.val);
  }

  /** NewOOMTracer: a bad flag is an error. */
  function Configured(flag: string, ignoreGlobalOOM: bool): Option<Config> {
    match ParseAnnotation(flag)
    case Annotation(key, val) => Some(Config(key, val, ignoreGlobalOOM))
    case NotKeyValue => None
    case EmptyKey => None
  }

  /** The tracer starts with the trimmed key and value of the flag, or not at all. */
  lemma ConfiguredFromFlag(flag: string, ignoreGlobalOOM: bool)
    ensures
      var i := EqualsAt(flag);
      Configured(flag, ignoreGlobalOOM) ==
        if IsBlank(flag) then Some(Config("", "", ignoreGlobalOOM))
        else if i == |flag| || IsBlank(flag[..i]) then None
        else Some(Config(Trim(flag[..i]), Trim(flag[i + 1..]), ignoreGlobalOOM))
  {
    hide ParseAnnotation, Trim, IsSpace;
    EqualsIsSolid();
    var i := EqualsAt(flag);
    if i == |flag| {
      ParseWithoutEquals(flag);
    } else {
      assert flag[i] == '=';
      assert flag == flag[..i] + "=" + flag[i + 1..];
      ParseKeyValue(flag[..i], flag[i + 1..]);
    }
  }

  /** With a blank annotation flag the tracer starts, and no run ever patches
      anything; and no other flag has that effect on the key. */
  lemma BlankFlagNeverPatches(flag: string, ignoreGlobalOOM: bool, capacity: nat, metrics: bool,
                              docs: map<PodKey, Json>, steps: seq<Step>)
    ensures
      var cfg := Configured(flag, ignoreGlobalOOM);
      && (IsBlank(flag) <==> cfg.Some? && cfg.value.key == "")
      && (IsBlank(flag) ==>
            var s := Reached(cfg.value, capacity, metrics, docs, steps);
            s.agent.requests == [] && s.agent.docs == docs)
  {
    hide Record, Encode, Apply, RingInv, CountersInv, TurnsInv, ShutdownInv, OnlyMarksAdded, ParseAnnotation, Trim, Reached;
    EqualsIsSolid();
    if '=' !in flag {
      ParseWithoutEquals(flag);
    } else {
      var i := EqualsAt(flag);
      assert i < |flag|;
      assert flag == flag[..i] + "=" + flag[i + 1..];
      ParseKeyValue(flag[..i], flag[i + 1..]);
      TrimOfBlank(flag[..i]);
    }
    if IsBlank(flag) {
      var cfg := Configured(flag, ignoreGlobalOOM).value;
      ReachedInv(cfg, capacity, metrics, docs, steps);
      var requests := Reached(cfg, capacity, metrics, docs, steps).agent.requests;
      assert requests != [] ==> Justified(cfg, requests[0]);
    }
  }

  // ----- How runs end -----

  /** main: a fatal exit, unless the error is nil or context.Canceled. */
  predicate MainFails(exit: Exit) {
    exit.ListError? && !exit.canceled
  }

  lemma {:induction false} ReturnedStays(s: System, steps: seq<Step>)
    requires s.phase.Returned?
    ensures Run(s, steps).phase == s.phase && Run(s, steps).agent == s.agent
    decreases |steps|
  {
    hide Record, Encode, Decode, Handle;
    if steps != [] {
      ReturnedStays(Apply(s, steps[0]), steps[1..]);
    }
  }

  /** A pod-list error ends the run: with an event in hand that is acted on, the loop
      returns that error, has patched nothing for it, and stays returned; the deferred
      close then closes the reader; and main exits fatally unless the error is
      context.Canceled. For an event that is not acted on the list plays no role. */
  lemma ListFailureEndsTheRun(s: System, canceled: bool, outcome: Outcome, later: seq<Step>)
    requires s.phase.Holding?
    ensures
      var s' := Apply(s, HandleHeld(ListFailed(canceled), outcome));
      && s'.agent.docs == s.agent.docs && s'.agent.requests == s.agent.requests
      && (!GatedIn(s.cfg, s.phase.event) ==> s'.phase == AtRead)
      && (GatedIn(s.cfg, s.phase.event) ==>
            && Run(s', later).phase == Returned(ListError(canceled))
            && Run(s', later).agent == s'.agent
            && Apply(s', DeferredClose).readerClosed)
    ensures MainFails(ListError(canceled)) <==> !canceled
    ensures !MainFails(ContextError(true)) && !MainFails(ContextError(false))
  {
    hide Handle, Run;
    HandleStopsIffListFails(s.cfg, s.agent, s.phase.event, ListFailed(canceled), outcome);
    var s' := Apply(s, HandleHeld(ListFailed(canceled), outcome));
    if GatedIn(s.cfg, s.phase.event) {
      ReturnedStays(s', later);
    } else {
      UngatedChangesNothing(s.cfg, s.agent, s.phase.event, ListFailed(canceled), outcome);
    }
  }

  lemma UngatedChangesNothing(cfg: Config, a: Agent, e: BpfEvent, listing: Listing, outcome: Outcome)
    requires !GatedIn(cfg, e)
    ensures
      var a' := Handle(cfg, a, e, listing, outcome).0;
      a'.docs == a.docs && a'.requests == a.requests
  {
    hide Bump;
  }

  /** Once started the loop never returns nil; a context error comes only after a
      cancellation; and main exits fatally for a pod-list error alone. */
  lemma RunsReturnAnError(cfg: Config, capacity: nat, metrics: bool, docs: map<PodKey, Json>, steps: seq<Step>)
    ensures
      var s := Reached(cfg, capacity, metrics, docs, steps);
      && (s.readerClosed && !s.phase.Returned? ==> s.contextDone)
      && (s.phase.Returned? ==> s.phase.exit != ContextError(false))
      && (s.phase.Returned? && s.phase.exit.ContextError? ==> s.contextDone)
  {
    hide Record, Encode, Apply, RingInv, CountersInv, TurnsInv, PatchInv, Reached;
    ReachedInv(cfg, capacity, metrics, docs, steps);
  }

  /** After the reader is closed the agent takes nothing more from the ring. */
  lemma {:induction false} ClosedReaderReadsNothing(s: System, steps: seq<Step>)
    requires s.readerClosed
    ensures Run(s, steps).observed == s.observed
    ensures Run(s, steps).readerClosed
    ensures s.phase.Returned? ==> Run(s, steps).phase == s.phase
    decreases |steps|
  {
    hide Record, Encode, Decode, Handle;
    if steps != [] {
      ClosedReaderReadsNothing(Apply(s, steps[0]), steps[1..]);
    }
  }

  predicate ListsSucceed(steps: seq<Step>) {
    forall i | 0 <= i < |steps| :: steps[i].HandleHeld? ==> steps[i].listing.Listed?
  }

  /** A signal stops the loop at any point of any run: once the goroutine has closed
      the reader, and whatever else happens in between, finishing the event in hand
      and reading once more returns. Unless the pod list failed it returns
      context.Canceled, which main takes as a clean exit. */
  lemma SignalStopsTheLoop(s: System, a: seq<Step>, listing: Listing, outcome: Outcome, b: seq<Step>)
    requires ShutdownInv(s)
    ensures
      var closed := Apply(Apply(s, Signal), CloseReader);
      var handled := Apply(Run(closed, a), HandleHeld(listing, outcome));
      var last := Apply(Run(handled, b), ReadNext);
      && last.phase.Returned?
      && (!FailedList(s) && ListsSucceed(a) && listing.Listed? && ListsSucceed(b) ==>
            last.phase.exit == ContextError(true) && !MainFails(last.phase.exit))
  {
    hide Record, Encode, Decode, Handle, Apply;
    SignalCloses(s);
    var closed := Apply(Apply(s, Signal), CloseReader);
    ClosedReaderReadsNothing(closed, a);
    RunKeepsShutdownInv(closed, a);
    var s1 := Run(closed, a);
    var s2 := Apply(s1, HandleHeld(listing, outcome));
    HandledOrReturned(s1, listing, outcome);
    ShutdownInvStep(s1, HandleHeld(listing, outcome));
    NeverHoldsAgain(s2, b);
    RunKeepsShutdownInv(s2, b);
    LastRead(Run(s2, b));
    if !FailedList(s) && ListsSucceed(a) && listing.Listed? && ListsSucceed(b) {
      NoFailureNoListError(closed, a);
      NoFailureNoListError(s1, [HandleHeld(listing, outcome)]);
      assert Run(s1, [HandleHeld(listing, outcome)]) == s2;
      NoFailureNoListError(s2, b);
    }
  }

  predicate FailedList(s: System) {
    s.phase.Returned? && s.phase.exit.ListError?
  }

  lemma SignalCloses(s: System)
    requires ShutdownInv(s)
    ensures
      var closed := Apply(Apply(s, Signal), CloseReader);
      closed.readerClosed && ShutdownInv(closed) && closed.phase == s.phase
  {
  }

  lemma ListedStep(s: System, step: Step)
    requires !FailedList(s) && ListsSucceed([step])
    ensures !FailedList(Apply(s, step))
  {
    hide Record, Encode, Decode, Resolve, Mark;
    assert step == [step][0];
  }

  lemma {:induction false} NoFailureNoListError(s: System, steps: seq<Step>)
    requires !FailedList(s) && ListsSucceed(steps)
    ensures !FailedList(Run(s, steps))
    decreases |steps|
  {
    hide Apply;
    if steps != [] {
      ListedStep(s, steps[0]);
      NoFailureNoListError(Apply(s, steps[0]), steps[1..]);
    }
  }

  lemma HandledOrReturned(s: System, listing: Listing, outcome: Outcome)
    ensures
      var s' := Apply(s, HandleHeld(listing, outcome));
      !s'.phase.Holding? && s'.readerClosed == s.readerClosed
  {
    hide Handle;
  }

  lemma LastRead(s: System)
    requires s.readerClosed && ShutdownInv(s) && !s.phase.Holding?
    ensures
      var s' := Apply(s, ReadNext);
      s'.phase == if s.phase.Returned? then s.phase else Returned(ContextError(true))
  {
    hide Decode;
  }

  lemma {:induction false} NeverHoldsAgain(s: System, steps: seq<Step>)
    requires s.readerClosed && !s.phase.Holding?
    ensures Run(s, steps).readerClosed && !Run(s, steps).phase.Holding?
    decreases |steps|
  {
    hide Record, Encode, Decode, Handle;
    if steps != [] {
      NeverHoldsAgain(Apply(s, steps[0]), steps[1..]);
    }
  }

  lemma {:induction false} RunKeepsShutdownInv(s: System, steps: seq<Step>)
    requires ShutdownInv(s)
    ensures ShutdownInv(Run(s, steps))
    decreases |steps|
  {
    hide Record, Encode, Decode, Handle;
    if steps != [] {
      ShutdownInvStep(s, steps[0]);
      RunKeepsShutdownInv(Apply(s, steps[0]), steps[1..]);
    }
  }
}

/** The kprobe on oom_kill_process: what it records about one kill. */
module OomKillProbe {
  import opened Bytes
  import opened KernelMemory
  import opened BpfCoreRead
  import opened Event
  import opened GoStrings
  import opened Ring

  /** Where the fields the probe reads lie in their kernel structs. */
  datatype Layout = Layout(
    ocTotalpages: nat, ocChosen: nat, ocMemcg: nat,
    taskPid: nat, taskComm: nat, taskCgroups: nat, cssSetDflCgrp: nat,
    cgroupKn: nat, memcgCssCgroup: nat,
    knName: nat, knParent: nat)
  {
    predicate Valid() {
      && ocTotalpages < NULL_GUARD && ocChosen < NULL_GUARD && ocMemcg < NULL_GUARD
      && taskPid < NULL_GUARD && taskComm < NULL_GUARD && taskCgroups < NULL_GUARD && cssSetDflCgrp < NULL_GUARD
      && cgroupKn < NULL_GUARD && memcgCssCgroup < NULL_GUARD
      && knName < NULL_GUARD && knParent < NULL_GUARD
    }
  }

  /** One call of oom_kill_process: kernel memory, which the probe sees frozen,
      the oom_control pointer, and the current task. */
  datatype Kill = Kill(heap: Heap, fields: Layout, oc: Address, pidTgid: Uint64, comm: Comm) {
    ghost predicate Valid() {
      fields.Valid() && LowMemoryUnmapped(heap)
    }
  }

  function Pointer(h: Heap, src: Address, accessors: seq<nat>): Address
    requires accessors != []
  {
    Widths();
    CoreRead(h, src, accessors, 8)
  }

  const MINUS_ONE: Address := 0xFFFF_FFFF_FFFF_FFFF

  function Victim(k: Kill): Address {
    Pointer(k.heap, k.oc, [k.fields.ocChosen])
  }

  function Memcg(k: Kill): Address {
    Pointer(k.heap, k.oc, [k.fields.ocMemcg])
  }

  /** The kernfs node the walk starts from; null when there is none. */
  function StartNode(k: Kill): Address {
    if Victim(k) != 0 then
      var dcg := Pointer(k.heap, Victim(k), [k.fields.taskCgroups, k.fields.cssSetDflCgrp]);
      if dcg != 0 then Pointer(k.heap, dcg, [k.fields.cgroupKn]) else 0
    else if Memcg(k) != 0 then
      var cg := Pointer(k.heap, Memcg(k), [k.fields.memcgCssCgroup]);
      if cg != 0 then Pointer(k.heap, cg, [k.fields.cgroupKn]) else 0
    else 0
  }

  function NodeName(h: Heap, f: Layout, kn: Address): NameBuffer {
    var nm := Pointer(h, kn, [f.knName]);
    if nm != 0 then ReadString(h, nm, EMPTY_NAME) else EMPTY_NAME
  }

  /** The buffers of `n` nodes upwards from `kn`. */
  function Names(h: Heap, f: Layout, kn: Address, n: nat): (r: seq<NameBuffer>)
    ensures |r| == n
    decreases n
  {
    if n == 0 then []
    else if kn == 0 then [EMPTY_NAME] + Names(h, f, 0, n - 1)
    else [NodeName(h, f, kn)] + Names(h, f, Pointer(h, kn, [f.knParent]), n - 1)
  }

  /** The record of a kill. */
  function Record(k: Kill): KernelEvent {
    Widths();
    var victim := Victim(k);
    var known := victim != 0 && victim != MINUS_ONE;
    KernelEvent(
      if known then CoreRead(k.heap, victim, [k.fields.taskPid], 4) else 0,
      k.pidTgid / 0x1_0000_0000,
      if known then ReadString(k.heap, Plus(victim, k.fields.taskComm), ZeroBytes(16)) else ZeroBytes(16),
      k.comm,
      ReadUint(k.heap, Plus(k.oc, k.fields.ocTotalpages), 8),
      Memcg(k) == 0,
      Names(k.heap, k.fields, StartNode(k), 4))
  }

  /** The reserved ring memory, seen as a `struct event`. */
  class EventRecord {
    var victimPid: Uint32
    var triggerPid: Uint32
    var victimComm: Comm
    var triggerComm: Comm
    var totalpages: Uint64
    var globalOom: bool
    var names: NameTable

    function Value(): KernelEvent
      reads this
    {
      KernelEvent(victimPid, triggerPid, victimComm, triggerComm, totalpages, globalOom, names)
    }

    /** Reserved memory holds whatever was there before. */
    constructor (garbage: KernelEvent)
      ensures Value() == garbage
    {
      victimPid, triggerPid := garbage.victimPid, garbage.triggerPid;
      victimComm, triggerComm := garbage.victimComm, garbage.triggerComm;
      totalpages, globalOom, names := garbage.totalpages, garbage.globalOom, garbage.names;
    }

    method Clear()
      modifies this
      ensures Value() == KernelEvent(0, 0, ZeroBytes(16), ZeroBytes(16), 0, false,
                                     [EMPTY_NAME, EMPTY_NAME, EMPTY_NAME, EMPTY_NAME])
    {
      victimPid, triggerPid, victimComm, triggerComm := 0, 0, ZeroBytes(16), ZeroBytes(16);
      totalpages, globalOom := 0, false;
      names := [EMPTY_NAME, EMPTY_NAME, EMPTY_NAME, EMPTY_NAME];
    }

    /** The ancestor walk of the probe. */
    method WalkNames(h: Heap, f: Layout, start: Address)
      requires names == [EMPTY_NAME, EMPTY_NAME, EMPTY_NAME, EMPTY_NAME]
      modifies this`names
      ensures names == Names(h, f, start, 4)
    {
      hide Pointer, NodeName, Names;
      var kn := start;
      ghost var all := Names(h, f, start, 4);
      for i := 0 to 4
        invariant names[..i] + Names(h, f, kn, 4 - i) == all
        invariant forall j | i <= j < 4 :: names[j] == EMPTY_NAME
      {
        if kn == 0 {
          NamesOfNull(h, f, 4 - i);
          Finished(names, i, all);
          break;
        }
        NamesOfNode(h, f, kn, 4 - i);
        ghost var before, name := names, NodeName(h, f, kn);
        CopyName(h, f, kn, i);
        kn := Pointer(h, kn, [f.knParent]);
        Advanced(before, i, name, Names(h, f, kn, 4 - i - 1), all);
      }
    }

    /** The body of that walk for one node. */
    method CopyName(h: Heap, f: Layout, kn: Address, i: nat)
      requires i < 4 && names[i] == EMPTY_NAME
      modifies this`names
      ensures names == old(names)[i := NodeName(h, f, kn)]
    {
      var nm := Pointer(h, kn, [f.knName]);
      if nm != 0 {
        names := names[i := ReadString(h, nm, names[i])];
      }
    }
  }

  lemma Advanced(names: seq<NameBuffer>, i: nat, name: NameBuffer, rest: seq<NameBuffer>, all: seq<NameBuffer>)
    requires i < |names|
    requires names[..i] + ([name] + rest) == all
    ensures names[i := name][..i + 1] + rest == all
  {
    assert names[i := name][..i + 1] == names[..i] + [name];
  }

  lemma Finished(names: seq<NameBuffer>, i: nat, all: seq<NameBuffer>)
    requires i <= |names|
    requires forall j | i <= j < |names| :: names[j] == EMPTY_NAME
    requires names[..i] + seq(|names| - i, _ => EMPTY_NAME) == all
    ensures names == all
  {
    assert names == names[..i] + names[i..];
  }

  lemma NamesOfNode(h: Heap, f: Layout, kn: Address, n: nat)
    requires kn != 0 && n > 0
    ensures Names(h, f, kn, n) == [NodeName(h, f, kn)] + Names(h, f, Pointer(h, kn, [f.knParent]), n - 1)
  {
  }

  lemma {:induction false} NamesOfNull(h: Heap, f: Layout, n: nat)
    ensures Names(h, f, 0, n) == seq(n, _ => EMPTY_NAME)
  {
    if n > 0 {
      NamesOfNull(h, f, n - 1);
    }
  }

  /** kprobe__oom_kill_process. */
  method KprobeOomKill(ring: RingBuffer, k: Kill, garbage: KernelEvent)
    modifies ring
    ensures
      var reserved := Reserve(old(ring.State()));
      ring.State() == if old(|ring.slots| < ring.capacity)
                      then Submit(reserved, old(ring.fired), Encode(Record(k)))
                      else reserved
  {
    hide Pointer, CoreRead, ReadUint, ReadString, Names, Encode;
    var ticket := ring.TryReserve();
    if ticket.None? {
      return;
    }
    var h, f := k.heap, k.fields;
    var e := new EventRecord(garbage);
    e.Clear();

    e.triggerPid := k.pidTgid / 0x1_0000_0000;
    e.triggerComm := k.comm;
    Widths();
    e.totalpages := ReadUint(h, Plus(k.oc, f.ocTotalpages), 8);

    var victim := Pointer(h, k.oc, [f.ocChosen]);
    if victim != 0 && victim != MINUS_ONE {
      e.victimPid := CoreRead(h, victim, [f.taskPid], 4);
      e.victimComm := ReadString(h, Plus(victim, f.taskComm), e.victimComm);
    }

    var memcg := Pointer(h, k.oc, [f.ocMemcg]);
    e.globalOom := memcg == 0;

    var kn := 0;
    if victim != 0 {
      var dcg := Pointer(h, victim, [f.taskCgroups, f.cssSetDflCgrp]);
      if dcg != 0 {
        kn := Pointer(h, dcg, [f.cgroupKn]);
      }
    } else if memcg != 0 {
      var cg := Pointer(h, memcg, [f.memcgCssCgroup]);
      if cg != 0 {
        kn := Pointer(h, cg, [f.cgroupKn]);
      }
    }

    e.WalkNames(h, f, kn);
    ring.Commit(ticket.value, Encode(e.Value()));
  }

  // ----- What the record says about kernel memory -----

  lemma PointerMeans(h: Heap, src: Address, accessors: seq<nat>)
    requires accessors != [] && LowMemoryUnmapped(h) && SmallOffsets(accessors)
    ensures Pointer(h, src, accessors) == PointerOrNull(h, src, accessors)
  {
    CoreReadMeansDereference(h, src, accessors, 8, Locals(0, 0));
  }

  /** The walk starts at chosen->cgroups->dfl_cgrp->kn, or without a victim at
      memcg->css.cgroup->kn; the tests in between only catch nulls. */
  lemma StartNodeMeans(k: Kill)
    requires k.Valid()
    ensures
      var f := k.fields;
      StartNode(k) ==
        if Victim(k) != 0
        then PointerOrNull(k.heap, k.oc, [f.ocChosen, f.taskCgroups, f.cssSetDflCgrp, f.cgroupKn])
        else PointerOrNull(k.heap, k.oc, [f.ocMemcg, f.memcgCssCgroup, f.cgroupKn])
  {
    hide Pointer, PointerOrNull;
    var h, f := k.heap, k.fields;
    PointerMeans(h, k.oc, [f.ocChosen]);
    PointerMeans(h, k.oc, [f.ocMemcg]);
    if Victim(k) != 0 {
      TwoHops(h, k.oc, [f.ocChosen], [f.taskCgroups, f.cssSetDflCgrp], [f.cgroupKn]);
      assert [f.ocChosen] + [f.taskCgroups, f.cssSetDflCgrp] + [f.cgroupKn]
          == [f.ocChosen, f.taskCgroups, f.cssSetDflCgrp, f.cgroupKn];
    } else {
      TwoHops(h, k.oc, [f.ocMemcg], [f.memcgCssCgroup], [f.cgroupKn]);
      assert [f.ocMemcg] + [f.memcgCssCgroup] + [f.cgroupKn] == [f.ocMemcg, f.memcgCssCgroup, f.cgroupKn];
    }
  }

  lemma TwoHops(h: Heap, p: Address, xs: seq<nat>, ys: seq<nat>, zs: seq<nat>)
    requires xs != [] && ys != [] && zs != []
    requires LowMemoryUnmapped(h) && SmallOffsets(ys) && SmallOffsets(zs)
    ensures
      var q := PointerOrNull(h, p, xs);
      PointerOrNull(h, p, xs + ys + zs) ==
        if q == 0 then 0
        else if Pointer(h, q, ys) == 0 then 0
        else Pointer(h, Pointer(h, q, ys), zs)
  {
    hide Pointer, Dereference;
    var q := PointerOrNull(h, p, xs);
    DereferenceConcat(h, p, xs + ys, zs, 8);
    DereferenceConcat(h, p, xs, ys, 8);
    if q != 0 {
      PointerMeans(h, q, ys);
      PointerMeans(h, Pointer(h, q, ys), zs);
    }
  }

  /** The i-th node upwards from `kn` along the parent pointers; null above the root. */
  function Ancestor(h: Heap, f: Layout, kn: Address, i: nat): Address {
    if i == 0 then kn
    else
      var below := Ancestor(h, f, kn, i - 1);
      if below == 0 then 0 else PointerOrNull(h, below, [f.knParent])
  }

  lemma {:induction false} AncestorOfParent(h: Heap, f: Layout, kn: Address, i: nat)
    requires kn != 0
    ensures Ancestor(h, f, PointerOrNull(h, kn, [f.knParent]), i) == Ancestor(h, f, kn, i + 1)
  {
    if i > 0 {
      AncestorOfParent(h, f, kn, i - 1);
    }
  }

  lemma {:induction false} AncestorOfNull(h: Heap, f: Layout, i: nat)
    ensures Ancestor(h, f, 0, i) == 0
  {
    if i > 0 {
      AncestorOfNull(h, f, i - 1);
    }
  }

  lemma {:induction false} NamesAreAncestors(h: Heap, f: Layout, kn: Address, n: nat, i: nat)
    requires LowMemoryUnmapped(h) && f.Valid()
    requires i < n
    ensures
      var node := Ancestor(h, f, kn, i);
      Names(h, f, kn, n)[i] == if node == 0 then EMPTY_NAME else NodeName(h, f, node)
    decreases n
  {
    hide Pointer, PointerOrNull, NodeName, Names;
    if kn == 0 {
      NamesOfNull(h, f, n);
      AncestorOfNull(h, f, i);
      return;
    }
    NamesOfNode(h, f, kn, n);
    if i > 0 {
      PointerMeans(h, kn, [f.knParent]);
      AncestorOfParent(h, f, kn, i - 1);
      NamesAreAncestors(h, f, Pointer(h, kn, [f.knParent]), n - 1, i - 1);
    }
  }

  /** The victim's cgroup names as the agent sees them. */
  function Candidates(k: Kill): (r: seq<string>)
    ensures |r| == 4
  {
    CharsToStrings(AsBpfEvent(Record(k)).names)
  }

  /** The name pointer of the i-th node of the walk; null when there is none. */
  function NamePointer(k: Kill, i: nat): Address {
    var node := Ancestor(k.heap, k.fields, StartNode(k), i);
    if node == 0 then 0 else PointerOrNull(k.heap, node, [k.fields.knName])
  }

  lemma TextOfBuffer(h: Heap, a: Address, n: nat)
    requires n > 0
    ensures CharsToString(Signed(ReadString(h, a, ZeroBytes(n)))) == Text(ScanString(h, a, n - 1).GetOr([]))
  {
    var buf := ReadString(h, a, ZeroBytes(n));
    UnsignedOfSigned(buf);
    match ScanString(h, a, n - 1)
    case None =>
      assert buf == [] + [0] + buf[1..];
      UntilNulOfTerminated([], buf[1..]);
    case Some(s) =>
      UntilNulOfTerminated(s, ZeroBytes(n)[|s| + 1..]);
  }

  lemma TextOfZeros(n: nat)
    ensures CharsToString(Signed(ZeroBytes(n))) == ""
  {
    UnsignedOfSigned(ZeroBytes(n));
  }

  /** Candidate i is the name of ancestor i, all byte values included, cut to 127
      bytes; it is empty above the root, for a nameless node and for a name that
      cannot be read. */
  lemma CandidateIsAncestorName(k: Kill, i: nat)
    requires k.Valid() && i < 4
    ensures
      var nm := NamePointer(k, i);
      && (nm == 0 ==> Candidates(k)[i] == "")
      && (nm != 0 ==> Candidates(k)[i] == Text(ScanString(k.heap, nm, 127).GetOr([])))
      && (forall s | nm != 0 && IsCString(k.heap, nm, s) ::
            Candidates(k)[i] == Text(if |s| <= 127 then s else s[..127]))
  {
    hide Pointer, PointerOrNull, Names, Ancestor, StartNode, CharsToString, ReadString;
    var h, f, kn := k.heap, k.fields, StartNode(k);
    var node, nm := Ancestor(h, f, kn, i), NamePointer(k, i);
    NamesAreAncestors(h, f, kn, 4, i);
    TextOfZeros(128);
    if node != 0 {
      PointerMeans(h, node, [f.knName]);
      TextOfBuffer(h, nm, 128);
    }
    assert Candidates(k)[i] == CharsToString(Signed(Record(k).names[i]));
    forall s | nm != 0 && IsCString(h, nm, s)
      ensures Candidates(k)[i] == Text(if |s| <= 127 then s else s[..127])
    {
      ScanOfCString(h, nm, s, 127);
    }
  }

  /** The other fields. The pid is oc->chosen->pid, zero when that is undefined; the
      probe's own test for null and -1 changes nothing about it. The command is the
      string at chosen->comm, cut to 15 bytes. */
  lemma RecordMeans(k: Kill)
    requires k.Valid()
    ensures
      var r := Record(k);
      var f := k.fields;
      && r.victimPid == Dereference(k.heap, k.oc, [f.ocChosen, f.taskPid], 4).GetOr(0)
      && r.totalpages == PointerOrNull(k.heap, k.oc, [f.ocTotalpages])
      && r.triggerPid == k.pidTgid / 0x1_0000_0000 && r.triggerComm == k.comm
      && CharsToString(Signed(r.victimComm)) ==
           if Victim(k) == 0 then "" else Text(ScanString(k.heap, Plus(Victim(k), f.taskComm), 15).GetOr([]))
  {
    hide Pointer, CoreRead, Dereference, Names, CharsToString, ScanString, ReadString;
    var h, f, victim := k.heap, k.fields, Victim(k);
    PointerMeans(h, k.oc, [f.ocChosen]);
    DereferenceConcat(h, k.oc, [f.ocChosen], [f.taskPid], 4);
    assert [f.ocChosen] + [f.taskPid] == [f.ocChosen, f.taskPid];
    CoreReadMeansDereference(h, victim, [f.taskPid], 4, Locals(0, 0));
    SingleHop(h, k.oc, f.ocTotalpages, 8);
    SingleHop(h, victim, f.taskPid, 4);
    TextOfBuffer(h, Plus(victim, f.taskComm), 16);
    TextOfZeros(16);
    if victim == MINUS_ONE {
      NothingAboveTop(h, f.taskPid, 4);
      NothingAboveTop(h, f.taskComm, 15);
    }
  }

  lemma SingleHop(h: Heap, p: Address, a: nat, size: nat)
    ensures Dereference(h, p, [a], size).GetOr(0) == ReadUint(h, Plus(p, a), size)
  {
  }

  /** The event is flagged global exactly when oc->memcg was read as null or could
      not be read; and the latter exactly when the field is not mapped. */
  lemma GlobalFlagMeans(k: Kill)
    requires k.Valid()
    ensures
      var memcg := Dereference(k.heap, k.oc, [k.fields.ocMemcg], 8);
      && (Record(k).globalOom <==> memcg == None || memcg == Some(0))
      && (memcg == None <==> !Mapped(k.heap, Plus(k.oc, k.fields.ocMemcg), 8))
  {
    PointerMeans(k.heap, k.oc, [k.fields.ocMemcg]);
  }

  /** Nothing can be read through the pointer -1: the address wraps around into
      unmapped low memory. */
  lemma NothingAboveTop(h: Heap, offset: nat, n: nat)
    requires LowMemoryUnmapped(h) && offset < NULL_GUARD && n > 1
    ensures ReadUint(h, Plus(MINUS_ONE, offset), n) == 0
    ensures ScanString(h, Plus(MINUS_ONE, offset), n).GetOr([]) == []
  {
    var a := Plus(MINUS_ONE, offset);
    assert Plus(a, 1) == offset;
    assert Plus(a, 1) !in h;
    assert ScanString(h, offset, n - 1) == None;
  }

  lemma AbortedKillStartsNowhere(k: Kill)
    requires k.Valid() && Victim(k) == MINUS_ONE
    ensures StartNode(k) == 0
  {
    var f := k.fields;
    PointerMeans(k.heap, MINUS_ONE, [f.taskCgroups, f.cssSetDflCgrp]);
    NothingAboveTop(k.heap, f.taskCgroups, 8);
  }

  /** An aborted kill, chosen == (void *)-1, passes the cgroup branch's test: the
      record then has no victim and no names. */
  lemma AbortedKillHasNoNames(k: Kill, i: nat)
    requires k.Valid() && Victim(k) == MINUS_ONE && i < 4
    ensures Record(k).victimPid == 0 && Candidates(k)[i] == ""
  {
    AbortedKillStartsNowhere(k);
    AncestorOfNull(k.heap, k.fields, i);
    CandidateIsAncestorName(k, i);
  }

  /** Among the kills without a usable victim, the walk starts at the memory cgroup's
      node exactly when chosen is null, or when there is no such node. */
  lemma FallbackTakenIffNoVictim(k: Kill)
    requires k.Valid() && (Victim(k) == 0 || Victim(k) == MINUS_ONE)
    ensures
      var f := k.fields;
      var node := PointerOrNull(k.heap, k.oc, [f.ocMemcg, f.memcgCssCgroup, f.cgroupKn]);
      StartNode(k) == node <==> Victim(k) == 0 || node == 0
  {
    hide PointerOrNull, Pointer, StartNode;
    if Victim(k) == 0 {
      StartNodeMeans(k);
    } else {
      AbortedKillStartsNowhere(k);
    }
  }
}

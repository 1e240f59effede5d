# OOM Tracer: a verified model

OOM Tracer watches the kernel's OOM killer with an eBPF kprobe, passes each kill
through a ring buffer to a Go agent, resolves the victim's cgroup names to a pod
of the node, and marks that pod with an annotation. This project models that
pipeline in Dafny and proves what it does over all inputs and all runs.

| file | models |
|---|---|
| `Bytes.dfy`, `KernelMemory.dfy` | bytes, little-endian numbers, kernel memory as a partial map from 64-bit addresses to bytes |
| `BpfCoreRead.dfy` | the `BPF_CORE_READ` macro expansion |
| `Bitfield.dfy` | the bitfield readers and the writer of `bpf_core_read.h` |
| `Event.dfy`, `GoStrings.dfy` | `struct event`, its bytes, the generated Go struct, char buffers to Go strings |
| `Ring.dfy` | the ring buffer: reserve, submit, consume |
| `OomKillProbe.dfy` | the kprobe on `oom_kill_process` |
| `Matching.dfy`, `PodLookup.dfy` | the two regular expressions, `LookupPod`, the candidate loop |
| `Annotation.dfy` | `parseAnnotation` |
| `MergePatch.dfy` | `AnnotatePod` and the merge patch of RFC 7396 |
| `Metrics.dfy`, `Tracer.dfy` | the counters and the agent's loop |
| `Pipeline.dfy` | probes, ring, agent and canceller as one state machine; properties of all runs |
| `Convergence.dfy` | runs on stale pod lists |
| `PipelineConvergence.dfy` | the same for the runs of the whole pipeline |
| `EndToEnd.dfy` | kernel memory to patch, as one statement, for one record and for all pending ones |
| `SmallKernel.dfy` | small kernel memories that meet premises and show the odd cases |

Check everything with `dafny verify dfyconfig.toml`.

## What the model assumes

- A probe read that touches an unmapped byte leaves its destination zero. The helper's
  documentation only promises a negative return code, which the probe ignores.
- No kernel object lies in the first 64 KiB of the address space and every struct offset the
  probe uses is below that. Kernel memory does not change while one probe runs.
- `bpf_probe_read_kernel_str` touches at most size-1 bytes of the string.
- The ring is a FIFO with room for some number of records. A reservation fails exactly when it
  is full. A record that is reserved but not yet submitted holds up the later ones.
- `rd.Read` returns `ErrClosed` whenever the reader is closed.
- The regular expressions match ASCII classes, so matching bytes is matching characters. A Go
  string is a Dafny `string` of its bytes; the annotation flag is a `string` of Unicode characters.
- Nobody but the agent writes the pod documents during a run. In the convergence results the set
  of listed pods is fixed as well.
- The API server applies a merge patch as section 2 of RFC 7396 says. A request may be applied,
  rejected, or applied with the reply lost.

## Findings

- When `oc->chosen` is `(void *)-1` the probe skips pid and command but still takes the victim
  branch of the cgroup walk, so the record has no names (`OomKillProbe.AbortedKillHasNoNames`).
  `SmallKernel.AbortedKillLosesItsName` gives a kill whose memory cgroup has a name that is lost
  this way, and `OomKillProbe.FallbackTakenIffNoVictim` the exact condition. Whether the kernel ever
  calls `oom_kill_process` with that value cannot be seen from this repository.
- A container scope `<unit>-<cid>.scope` is taken for a pod name when `<unit>-` contains a pod
  pattern, which it may do although `<unit>` does not: `libpod-<cid>.scope` is such a case
  (`PodLookup.RuntimeEndingInPod`, exact condition in `PodLookup.ScopeAsksForTheCid`).
- The global flag is also set when `oc->memcg` cannot be read (`OomKillProbe.GlobalFlagMeans`, shown
  at a kill in `SmallKernel.UnreadableMemcgCountsAsGlobal`).
- The first trim in `parseAnnotation` matters for one kind of flag only, blanks and nothing else,
  which it turns from an error into "no annotation" (`Annotation.FirstTrimMattersForBlanks`).
- With stale lists and no lost replies the marked counter exceeds the number of newly annotated
  pods by the number of applied requests that were decided on a list older than their victim's
  first mark (`Convergence.StaleRunsConverge`, exact condition in `Convergence.MarksAreExactIff`,
  shown for a kill in `EndToEnd.OvercountExample`).

## Model

| member | source | states |
|---|---|---|
| `EndToEnd.RecordedKillIsActedOn` | pkg/oomtracer/oomtracer.go:87-180 | in every state with the run invariant whose next record is a kill the agent acts on: if kernel memory gives the victim's i-th cgroup node (i < 4) a name of at most 127 bytes that resolves, and no nearer name resolves, then reading and handling observes exactly that event, identifies that pod and issues the one patch, or none when the key is unset or already listed |
| `EndToEnd.PodSliceKillMarksItsPod` | pkg/ebpf/bpf/oomkill.c:52-79 | the same for a victim under `<prefix>pod<uid with _ for ->.slice`, any prefix without a pod-pattern hit: exactly that uid is identified and the earliest listed pod with it is patched |
| `EndToEnd.ScopeKillMarksItsPod` | pkg/oomtracer/oomtracer.go:183-221 | the same for a victim under `<unit>-<cid>.scope` and the pod whose status is `<scheme>://<cid>` in any of its three lists, when `<unit>-` has no pod-pattern hit, neither prefix holds a 64-hex run and no other listed pod carries the id; the two prefixes need not agree |
| `EndToEnd.DrainObservesEveryKeptKill` | pkg/oomtracer/oomtracer.go:87-180 | from any state with the run invariant, an open reader and all records submitted, one read and handling per record empties the ring, and every kill that was not dropped has then been observed |
| `EndToEnd.DrainTakesInOrder` | pkg/oomtracer/oomtracer.go:87-101 | any number of such rounds observes exactly that many pending kills, in their order |
| `EndToEnd.PendingKillIsActedOn` | pkg/oomtracer/oomtracer.go:103-179 | the i-th round acts on the pod that the nearest resolving name of the i-th pending kill stands for in that round's list |
| `EndToEnd.SomeKillIsRecorded` | pkg/ebpf/bpf/oomkill.c:31-81 | the premises of the above can be met: for every name of at most 127 nonzero bytes there are kernel memory and a two-step run after which the next record is a kill of a victim with that name and no memory cgroup |
| `EndToEnd.NameArrives` | pkg/ebpf/bpf/oomkill.c:58-77 | a name at the i-th node upwards from chosen->cgroups->dfl_cgrp->kn in kernel memory reaches the agent unchanged as candidate i |
| `Pipeline.RunsConserveKills` | pkg/ebpf/bpf/oomkill.c:22-34 | in every interleaving of probes, reader, canceller and agent: kills = dropped + pending + observed, and the observed events are those of a strictly increasing selection of the kills |
| `Pipeline.DroppedIffFull` | pkg/ebpf/bpf/oomkill.c:32-34 | a kill is dropped if and only if the ring was full when its probe fired, however the run goes on |
| `Pipeline.SubmittedRecordsAreDelivered` | pkg/ebpf/bpf/oomkill.c:79 | in every run, once a probe that found room has submitted its record, that record is in the ring with the kill's bytes or has been read, whatever the other probes, the agent and the canceller do in between and after |
| `Pipeline.RunsConserveCounters` | pkg/oomtracer/oomtracer.go:103-179 | in every run, by label: observed = non-global + no-match + identified, one short only after a pod-list error; with a key identified = marked + already marked + failed and without one those are zero; the non-global count is the number of ungated events, and every patch request is counted once |
| `Pipeline.RunsCountTurns` | pkg/oomtracer/oomtracer.go:103-179 | in every run each of the seven labelled counters is the number of handled events that meet its condition in the list and the cluster they were handled on, with or without a key |
| `Pipeline.RunsPatchSafely` | pkg/oomtracer/oomtracer.go:118-151 | every patch of every run goes to the pod that the cgroup names of some observed kill resolve to in the list at hand, not yet marked there; without the ignore flag that kill's memcg field is null when it is mapped, and otherwise could not be read |
| `Pipeline.RunsTouchOnlyTheMark` | pkg/k8s/k8s.go:65-83 | over every run each pod's document is as at the start or that document with the mark; every other annotation is unchanged and no pod appears or disappears |
| `Pipeline.BlankFlagNeverPatches` | pkg/oomtracer/oomtracer.go:56-70 | the key is empty if and only if the flag is blank, and then no run issues a patch or changes the cluster |
| `Pipeline.ConfiguredFromFlag` | pkg/oomtracer/oomtracer.go:56-70 | the tracer starts with the trimmed sides of the flag's first '=' as key and value, with neither for a blank flag, and not at all otherwise |
| `Pipeline.RunsReturnAnError` | pkg/oomtracer/oomtracer.go:77-95 | in every interleaving, while the loop runs a closed reader means a done context, so the loop never returns nil; the deferred close after a return is a step of its own |
| `Pipeline.ListFailureEndsTheRun` | pkg/oomtracer/oomtracer.go:125-128 | with an event in hand that is acted on, a pod-list error is returned at once, nothing is patched and the loop stays returned; main exits fatally if and only if the error is not context.Canceled; for an event that is not acted on the list plays no role |
| `Pipeline.SignalStopsTheLoop` | cmd/main.go:99-103 | from any point of any run, after a signal and the closing of the reader, finishing the event in hand and one more read return, with any other steps in between; the error is context.Canceled and main exits cleanly unless the pod list failed |
| `Pipeline.ClosedReaderReadsNothing` | pkg/oomtracer/oomtracer.go:79-92 | after the reader is closed no continuation of the run observes another event, and a return value stays |
| `Pipeline.PassIsReadThenHandle` | pkg/oomtracer/oomtracer.go:87-101 | the read and handle steps of the machine together are one pass of the agent's loop |
| `Pipeline.PassIsReadFailsOrReturns` | pkg/oomtracer/oomtracer.go:88-95 | a pass over a failed read changes nothing and goes on; over a closed reader it is the machine's read, which returns ctx.Err() |
| `Pipeline.PassesAreARun` | pkg/oomtracer/oomtracer.go:87-181 | the agent's loop over any list of inputs is the run of the machine that gives it those inputs, with any steps of probes and canceller in between: the same agent and the same return value |
| `Pipeline.ProbeIsFireThenComplete` | pkg/ebpf/bpf/oomkill.c:31-81 | the fire and complete steps of the machine together are one run of the probe |
| `Convergence.StaleRunsConverge` | pkg/oomtracer/oomtracer.go:125-178 | for a fixed pod set, any choice of an earlier snapshot at each event and any outcome of each request, the final documents equal those of the run on fresh lists: the start with those pods marked that have an attempt which is not rejected; marks counted + marks lost with a reply = newly annotated pods + repeated marks, and on fresh lists nothing repeats |
| `Convergence.MarksAreExactIff` | pkg/oomtracer/oomtracer.go:148-178 | with no lost reply the marked counter is the number of newly annotated pods if and only if no applied request is decided on a list older than its victim's first mark |
| `PipelineConvergence.StalePipelineRunsConverge` | pkg/oomtracer/oomtracer.go:87-181 | for every run of the whole pipeline in which each list shows the pods as of an earlier state of that run, the attempts are the handled events in order, and the final documents are the start with the victims of the attempts that are not rejected marked |
| `PipelineConvergence.KillsAloneDecide` | pkg/oomtracer/oomtracer.go:87-181 | with no request rejected, two such runs that handle the same set of events, with any lag, ring size and interleaving, end with the same documents |
| `Convergence.TwoKillsTwoMarks` | pkg/oomtracer/oomtracer.go:148-168 | two kills of one unmarked pod, both decided on the list from before the first, count two marks for one newly annotated pod |
| `EndToEnd.OvercountExample` | pkg/oomtracer/oomtracer.go:148-168 | such a run exists: a pod, and the event of a global kill under its cgroup in kernel memory, handled twice on the first list |
| `Convergence.ResolveInSnapshot` | pkg/oomtracer/oomtracer.go:130-139 | resolution on a snapshot is the resolution on the fixed pod set, shown with the snapshot's annotations |
| `Tracer.OOMTracer.HandleEvent` | pkg/oomtracer/oomtracer.go:103-179 | the loop body on counters, cluster and requests, refining `Handle`; the candidates slice is never nil |
| `Tracer.OOMTracer.MarkVictim` | pkg/oomtracer/oomtracer.go:148-178 | the annotation step, refining `Mark` |
| `Tracer.OOMTracer.TraceKernelOOMKills` | pkg/oomtracer/oomtracer.go:87-181 | the loop over any finite sequence of reader results, refining `Passes` |
| `Tracer.PassesBalance` | pkg/oomtracer/oomtracer.go:87-181 | the counters balance after every finite run of that loop, one short exactly when it returned a list error |
| `Tracer.HandleIsSafe` | pkg/oomtracer/oomtracer.go:118-151 | an event causes at most one patch request; it is for the resolved pod, with a key set, past the global gate, and the cluster changes at most by that mark |
| `Tracer.HandleBalances` | pkg/oomtracer/oomtracer.go:103-179 | one event keeps the counters balanced, or leaves one open on a list error |
| `Tracer.HandleCounts` | pkg/oomtracer/oomtracer.go:103-179 | each counter cell goes up by one exactly when its condition on event, list and cluster holds |
| `Tracer.HandleStopsIffListFails` | pkg/oomtracer/oomtracer.go:118-128 | the loop stops after an event if and only if it is acted on and the list fails, with that list's error |
| `Tracer.PassReturnsIff` | pkg/oomtracer/oomtracer.go:88-101 | a pass returns ctx.Err() if and only if the reader is closed, the list error if and only if a decoded event is acted on and its list fails, and otherwise nothing; a failed read or undecodable bytes change nothing |
| `Tracer.PassesConcat` | pkg/oomtracer/oomtracer.go:87-181 | inputs are taken one after the other up to the first that returns |
| `OomKillProbe.KprobeOomKill` | pkg/ebpf/bpf/oomkill.c:31-81 | the probe drops the kill when the ring is full and otherwise submits the bytes of its record, whatever the reserved memory held |
| `OomKillProbe.EventRecord.WalkNames` | pkg/ebpf/bpf/oomkill.c:68-77 | the bounded ancestor loop fills the four name buffers |
| `OomKillProbe.CandidateIsAncestorName` | pkg/ebpf/bpf/oomkill.c:68-77 | candidate i is the name of the i-th ancestor along the parent pointers, every byte value kept, cut to 127 bytes; empty above the root, for a nameless node and for an unreadable name |
| `OomKillProbe.StartNodeMeans` | pkg/ebpf/bpf/oomkill.c:58-66 | the walk starts at chosen->cgroups->dfl_cgrp->kn, or without a victim at memcg->css.cgroup->kn, null when that chain is undefined |
| `OomKillProbe.RecordMeans` | pkg/ebpf/bpf/oomkill.c:39-50 | pid, page count and command are what the chained dereferences give, zero or empty when undefined |
| `OomKillProbe.GlobalFlagMeans` | pkg/ebpf/bpf/oomkill.c:52-53 | the flag is set if and only if oc->memcg is null or unreadable, and it is unreadable if and only if the field is not mapped |
| `OomKillProbe.AbortedKillHasNoNames` | pkg/ebpf/bpf/oomkill.c:46-66 | with chosen == -1 every candidate is empty and the pid zero |
| `OomKillProbe.FallbackTakenIffNoVictim` | pkg/ebpf/bpf/oomkill.c:58-66 | with chosen null or -1 the walk starts at the memory cgroup's node if and only if chosen is null or there is no such node |
| `SmallKernel.AbortedKillLosesItsName` | pkg/ebpf/bpf/oomkill.c:46-66 | a kill with chosen == -1 whose memory cgroup's node has any given name, and whose candidates are all empty |
| `SmallKernel.UnreadableMemcgCountsAsGlobal` | pkg/ebpf/bpf/oomkill.c:52-53 | a kill whose memcg field is unmapped and which is flagged global |
| `BpfCoreRead.CoreReadMeansDereference` | pkg/ebpf/bpf/headers/bpf_core_read.h:399-436 | for every accessor list the last/nolast expansion, whatever its uninitialised locals hold, yields the left-to-right chained dereference, and zero on a fault or null pointer anywhere |
| `BpfCoreRead.DereferenceConcat` | pkg/ebpf/bpf/headers/bpf_core_read.h:501-529 | a chain may be cut anywhere: read the prefix, test for null, go on |
| `Bitfield.ReadAfterWrite` | pkg/ebpf/bpf/headers/bpf_core_read.h:117-147 | for storage sizes 1, 2, 4, 8, all shifts that fit, both byte orders: a read after a write returns new_val mod 2^(64-rshift), as an unsigned or a two's complement number |
| `Bitfield.DisjointFieldUnchanged` | pkg/ebpf/bpf/headers/bpf_core_read.h:121-147 | any field that shares no memory bit with the written one reads the same before and after, also when their storage units overlap |
| `Bitfield.WriteKeepsOtherBits` | pkg/ebpf/bpf/headers/bpf_core_read.h:138-146 | no memory bit outside the field changes |
| `Bitfield.WriteBitfield` | pkg/ebpf/bpf/headers/bpf_core_read.h:121-147 | the in-place write, on the whole memory |
| `Bitfield.ReadBitfield` | pkg/ebpf/bpf/headers/bpf_core_read.h:90-115 | the direct read is the widened field of the storage unit, and zero for any other storage size |
| `Bitfield.ReadBitfieldProbed` | pkg/ebpf/bpf/headers/bpf_core_read.h:46-82 | the probed read equals the same widened field, on both byte orders, and is zero when the read faults |
| `Event.WireRoundTrip` | pkg/ebpf/bpf_x86_bpfel.go:16-26 | decoding the laid-out C struct never fails and returns every field |
| `Event.EncodeShape` | pkg/ebpf/bpf/oomkill.c:12-20 | the C alignment rules put no padding between the members and seven bytes after them, 568 in all |
| `Event.DecodeNeedsOneStruct` | pkg/oomtracer/oomtracer.go:97-101 | decoding fails if and only if fewer than 568 bytes are there, looks at no more than those, and reads any nonzero byte as true |
| `GoStrings.WireKeepsEveryField` | pkg/ebpf/bpf_x86_bpfel.go:16-26 | field by field, what is decoded has the pids, commands, page count, flag and names that were encoded |
| `Bytes.LittleEndianConcat` | pkg/oomtracer/oomtracer.go:98 | the first byte of a number counts ones and each later one 256 times as much |
| `GoStrings.Int8SliceToString` | pkg/oomtracer/oomtracer.go:227-233 | the bytes before the first NUL, through int8 and back |
| `GoStrings.Int8SliceToStringSlice` | pkg/oomtracer/oomtracer.go:236-247 | the same for each buffer, in a slice that is never nil |
| `Ring.ReserveAccounts` | pkg/ebpf/bpf/oomkill.c:32-34 | a reservation keeps every kill in exactly one place and the kept tickets increasing |
| `Ring.ConsumeAccounts` | pkg/oomtracer/oomtracer.go:88-95 | so does a read |
| `Ring.SubmitFillsItsRecord` | pkg/ebpf/bpf/oomkill.c:79 | a submission fills the unfilled record with its ticket, wherever it stands, and no other one |
| `Ring.RingBuffer.TryReserve` | pkg/ebpf/bpf/oomkill.c:32-34 | a full ring drops the kill, otherwise a record is appended unsubmitted |
| `Ring.RingBuffer.TryConsume` | pkg/oomtracer/oomtracer.go:88-95 | the oldest record, once it is submitted |
| `Matching.PodCaptureIsLeftmost` | pkg/oomtracer/oomtracer.go:223 | the capture is the group of the leftmost greedy match of the pod pattern, and there is none if and only if nothing matches |
| `Matching.CidTextIsLeftmost` | pkg/oomtracer/oomtracer.go:224 | the text is the leftmost match and opens the first maximal run of at least 64 hex digits |
| `Matching.ClassesSpeltOut` | pkg/oomtracer/oomtracer.go:223-224 | the two character classes, character by character |
| `Matching.FindPod` | pkg/oomtracer/oomtracer.go:184 | a scan that finds it |
| `Matching.FindCid` | pkg/oomtracer/oomtracer.go:185 | a one-pass run-counting scan that finds it |
| `PodLookup.LookupPod` | pkg/oomtracer/oomtracer.go:183-221 | the search loops refine `Lookup` |
| `PodLookup.Earliest` | pkg/oomtracer/oomtracer.go:190-220 | the index of the first pod that meets the target, with none before it |
| `PodLookup.LookupIsExact` | pkg/oomtracer/oomtracer.go:183-221 | the earliest pod by uid when a pod pattern occurs, otherwise by container id in any status list; nil if and only if none meets it |
| `PodLookup.RunsMeansCarries` | pkg/oomtracer/oomtracer.go:203-217 | a pod matches a container id if and only if some status of any of its three lists holds exactly that id |
| `PodLookup.LookupIgnoresOrder` | pkg/oomtracer/oomtracer.go:190-219 | with unique uids and unshared container ids the result does not depend on the order of pods or statuses |
| `PodLookup.LookupIgnoresPermutation` | pkg/oomtracer/oomtracer.go:190-219 | in particular not on a permutation of the pods |
| `PodLookup.ResolveCandidates` | pkg/oomtracer/oomtracer.go:130-139 | the candidate loop; its skip of empty strings changes nothing |
| `PodLookup.ResolveIsLeafmost` | pkg/oomtracer/oomtracer.go:130-139 | the result is that of the first name that resolves |
| `PodLookup.ResolveComesFromAName` | pkg/oomtracer/oomtracer.go:130-145 | conversely a result comes from some name with none before it resolving, and there is none only when no name resolves |
| `PodLookup.SpellingsAgree` | pkg/oomtracer/oomtracer.go:184-200 | the slice spelling and the plain `pod<uid>` spelling give the same lookup |
| `PodLookup.SpellingsAskForTheUid` | pkg/oomtracer/oomtracer.go:192 | both capture the whole uid greedily and undo to it |
| `PodLookup.KubepodsSliceAsksForTheUid` | pkg/oomtracer/oomtracer.go:184-200 | `kubepods-<qos>-pod<uid with _ for ->.slice` asks for that uid, for all three classes |
| `PodLookup.ParentSlicesResolveNothing` | pkg/oomtracer/oomtracer.go:184-188 | `kubepods.slice` and its burstable and besteffort children resolve to nothing |
| `PodLookup.ScopeResolves` | pkg/oomtracer/oomtracer.go:201-217 | `<unit>-<cid>.scope` resolves to the pod that carries `<scheme>://<cid>` when `<unit>-` has no pod-pattern hit, neither prefix holds a 64-hex run and no other listed pod carries the id; the two prefixes need not agree |
| `PodLookup.ScopeAsksForTheCid` | pkg/oomtracer/oomtracer.go:184-188 | a scope asks for its container id if and only if `<unit>-` hides no pod pattern and the unit prefix no other id |
| `PodLookup.RuntimeEndingInPod` | pkg/oomtracer/oomtracer.go:223 | the failing family: under any hit-free prefix that ends in `pod`, as `libpod`, the scope asks for the uid `-<cid>` |
| `Annotation.ParseKeyValue` | pkg/oomtracer/oomtracer.go:249-264 | text with '=' splits at the first one into trimmed sides, an error if and only if the key side is blank |
| `Annotation.ParseWithoutEquals` | pkg/oomtracer/oomtracer.go:250-257 | text without '=' is accepted if and only if blank |
| `Annotation.KeyIffTextBeforeEquals` | pkg/oomtracer/oomtracer.go:258-263 | a nonempty key if and only if the text before the first '=' trims to nonempty; it then has no '=' and no outer blank |
| `Annotation.ReparseIsFixedPoint` | pkg/oomtracer/oomtracer.go:249-264 | parsing key=value of a result gives it back, also when the value has '=' |
| `Annotation.PaddingChangesNothing` | pkg/oomtracer/oomtracer.go:250-259 | blanks around key and value change nothing |
| `Annotation.OuterPaddingChangesNothing` | pkg/oomtracer/oomtracer.go:250 | blanks around any flag, with or without '=', change nothing |
| `Annotation.FirstTrimMattersForBlanks` | pkg/oomtracer/oomtracer.go:250-253 | parsing with and without the first trim agrees if and only if the flag is empty or not blank |
| `Annotation.SpacesSpeltOut` | pkg/oomtracer/oomtracer.go:250 | the characters that trimming removes, one by one |
| `MergePatch.AnnotatedFrame` | pkg/k8s/k8s.go:69-78 | for any JSON document the patch sets exactly the given annotations, creates missing objects and leaves every other member |
| `MergePatch.MergeIsIdempotent` | pkg/k8s/k8s.go:78 | applying any merge patch twice is applying it once |
| `MergePatch.MergeMemberByMember` | pkg/k8s/k8s.go:78 | a null deletes a member, another value is merged into it or creates it, an unnamed member stays, and a patch that is no object replaces the target |
| `MergePatch.MarkedFrame` | pkg/oomtracer/oomtracer.go:149-151 | marking sets one annotation, keeps the others and is idempotent |
| `MergePatch.AcceptedMeansPatched` | pkg/k8s/k8s.go:78-82 | the client hears of success if and only if the pod is there and was patched with a reply; a rejected request changes nothing and no other pod ever changes |
| `MergePatch.Cluster.AnnotatePod` | pkg/k8s/k8s.go:65-83 | the cluster after a request that is applied, rejected or applied with its reply lost, and the returned error |
| `Metrics.IncEvent` | pkg/metrics/metrics.go:57-62 | bumps one cell of the events vector; a nil receiver does nothing |
| `Metrics.IncMarkedVictim` | pkg/metrics/metrics.go:65-70 | bumps one cell of the victims vector; a nil receiver does nothing |
| `Metrics.Increment` | pkg/metrics/metrics.go:73-81 | exactly the cell with the effective labels (`unknown` and `none` for empty ones) goes up by one, every other cell stays and no other appears |

## Left out

- `LoadBPF` and the generated loader: the model starts where the loop does; a failure to load or attach returns before it.
- `CreateClients` and how the pod cache is kept: a pod list is any list, or in `Convergence.dfy` any earlier snapshot of the run.
- `NewMetrics` registration, `ServeMux` and the log lines: they publish counters and text that nothing in the loop reads back.
- Flag handling in `cmd/main.go` beyond the annotation flag and the treatment of the returned error.
- `pkg/version`: formats build information for display; the tracer does not use it.
- What `closeFn` does besides closing the reader: it also detaches the probe, while the machine lets probes fire on after a return.
- The user-space and non-CO-RE variants of the read macros: the same expansion with another read function.
- How clang and the loader compute field offsets, sizes and shifts: these are parameters.
- The limit of nine accessors of `BPF_CORE_READ`: the expansion is modelled for lists of any length.
- JSON text: the patch is modelled as a JSON value, not as the bytes `json.Marshal` writes.
- The size of the ring in bytes: its capacity is any number of records.
- Tracer.OOMTracer.TraceKernelOOMKills: runs over a finite sequence of reader results, because the endless loop has no final state; `Pipeline.PassesAreARun` makes each such run one of the machine in `Pipeline.dfy`, where all interleavings and the shutdown are covered.
- Bitfield: words are sequences of 64 bits with the C operators written out, not machine words.

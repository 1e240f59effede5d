/** Victim resolution: from the cgroup names of a victim to a pod of the node. */
module PodLookup {
  import opened Bytes
  import opened Matching

  /** A listed pod, with the container ids of its three status lists. */
  datatype Pod = Pod(
    namespace: string,
    name: string,
    uid: string,
    annotations: map<string, string>,
    containers: seq<string>,
    initContainers: seq<string>,
    ephemeralContainers: seq<string>)

  datatype ID = ID(namespace: string, name: string, uid: string, annotations: map<string, string>)

  function Identity(p: Pod): ID {
    ID(p.namespace, p.name, p.uid, p.annotations)
  }

  /** strings.ReplaceAll(s, from, to) for one-character arguments. */
  function Replaced(s: string, from: char, to: char): (r: string)
    ensures |r| == |s|
    ensures forall i | 0 <= i < |s| :: if s[i] == from then r[i] == to else r[i] == s[i]
  {
    seq(|s|, i requires 0 <= i < |s| => if s[i] == from then to else s[i])
  }

  // ----- What a name asks for -----

  /** A pod pattern anywhere in the name takes precedence over a container id. */
  datatype Target = ByUid(uid: string) | ByCid(cid: string) | Nothing

  function TargetOf(pcid: string): Target {
    match PodCapture(pcid)
    case Some(capture) => ByUid(Replaced(capture, '_', '-'))
    case None =>
      match CidText(pcid)
      case Some(cid) => ByCid(cid)
      case None => Nothing
  }

  predicate Lists(statuses: seq<string>, cid: string) {
    exists i | 0 <= i < |statuses| :: CidText(statuses[i]) == Some(cid)
  }

  predicate Runs(p: Pod, cid: string) {
    Lists(p.containers, cid) || Lists(p.initContainers, cid) || Lists(p.ephemeralContainers, cid)
  }

  predicate Meets(p: Pod, t: Target) {
    match t
    case ByUid(uid) => p.uid == uid
    case ByCid(cid) => Runs(p, cid)
    case Nothing => false
  }

  function Statuses(p: Pod): seq<string> {
    p.containers + p.initContainers + p.ephemeralContainers
  }

  /** A pod runs a container when the id is the one in some status of any list. */
  lemma RunsMeansCarries(p: Pod, cid: string)
    ensures Runs(p, cid) <==> exists s :: s in Statuses(p) && CidText(s) == Some(cid)
  {
    hide CidText;
    if Runs(p, cid) {
      var list := if Lists(p.containers, cid) then p.containers
                  else if Lists(p.initContainers, cid) then p.initContainers else p.ephemeralContainers;
      var i :| 0 <= i < |list| && CidText(list[i]) == Some(cid);
      assert list[i] in Statuses(p);
    }
    if s :| s in Statuses(p) && CidText(s) == Some(cid) {
      var list := if s in p.containers then p.containers
                  else if s in p.initContainers then p.initContainers else p.ephemeralContainers;
      var i :| 0 <= i < |list| && list[i] == s;
    }
  }

  /** What the agent promises about the pod it picks for a name: the uid is the captured
      one, or without a pod pattern some status holds the name's container id. */
  ghost predicate IsFor(p: Pod, pcid: string) {
    match PodCapture(pcid)
    case Some(capture) => p.uid == Replaced(capture, '_', '-')
    case None => exists s :: s in Statuses(p) && CidText(s).Some? && CidText(s) == CidText(pcid)
  }

  lemma MeetsMeansIsFor(p: Pod, pcid: string)
    ensures Meets(p, TargetOf(pcid)) <==> IsFor(p, pcid)
  {
    hide CidText, PodCapture, Runs, Replaced;
    if PodCapture(pcid).None? && CidText(pcid).Some? {
      RunsMeansCarries(p, CidText(pcid).value);
    }
  }

  /** The index of the earliest pod that meets the target; |pods| when none does. */
  function Earliest(pods: seq<Pod>, t: Target): (i: nat)
    ensures i <= |pods|
    ensures i < |pods| ==> Meets(pods[i], t)
    ensures forall j | 0 <= j < i :: !Meets(pods[j], t)
  {
    if pods == [] || Meets(pods[0], t) then 0 else 1 + Earliest(pods[1..], t)
  }

  function Lookup(pcid: string, pods: seq<Pod>): Option<ID> {
    var i := Earliest(pods, TargetOf(pcid));
    if i < |pods| then Some(Identity(pods[i])) else None
  }

  // ----- The search as the agent runs it -----

  /** One of the three status loops. */
  method ScanStatuses(statuses: seq<string>, target: string) returns (found: bool)
    ensures found == Lists(statuses, target)
  {
    for i := 0 to |statuses|
      invariant forall j | 0 <= j < i :: CidText(statuses[j]) != Some(target)
    {
      var live := FindCid(statuses[i]);
      if live == Some(target) {
        return true;
      }
    }
    return false;
  }

  method LookupPod(pcid: string, pods: seq<Pod>) returns (id: Option<ID>)
    ensures id == Lookup(pcid, pods)
  {
    hide PodCapture, CidText, Lists;
    var podUIDMatch := FindPod(pcid);
    var containerIDMatch := FindCid(pcid);
    if podUIDMatch.None? && containerIDMatch.None? {
      assert forall i | 0 <= i < |pods| :: !Meets(pods[i], TargetOf(pcid));
      return None;
    }
    for i := 0 to |pods|
      invariant forall j | 0 <= j < i :: !Meets(pods[j], TargetOf(pcid))
    {
      var pod := pods[i];
      if podUIDMatch.Some? {
        var podUID := Replaced(podUIDMatch.value, '_', '-');
        if pod.uid == podUID {
          return Some(Identity(pod));
        }
      } else {
        var target := containerIDMatch.value;
        var found := ScanStatuses(pod.containers, target);
        if found {
          return Some(Identity(pod));
        }
        found := ScanStatuses(pod.initContainers, target);
        if found {
          return Some(Identity(pod));
        }
        found := ScanStatuses(pod.ephemeralContainers, target);
        if found {
          return Some(Identity(pod));
        }
      }
    }
    return None;
  }

  /** The agent's loop over the candidates, without its test for empty strings. */
  function Resolve(candidates: seq<string>, pods: seq<Pod>): Option<ID> {
    if candidates == [] then None
    else
      var id := Lookup(candidates[0], pods);
      if id.Some? then id else Resolve(candidates[1..], pods)
  }

  lemma EmptyNameResolvesNothing(pods: seq<Pod>)
    ensures Lookup("", pods) == None
  {
  }

  /** The loop that skips empty names: the skip changes nothing. */
  method ResolveCandidates(candidates: seq<string>, pods: seq<Pod>) returns (id: Option<ID>)
    ensures id == Resolve(candidates, pods)
  {
    hide Lookup;
    id := None;
    for i := 0 to |candidates|
      invariant id == None
      invariant Resolve(candidates, pods) == Resolve(candidates[i..], pods)
    {
      var s := candidates[i];
      if s == "" {
        EmptyNameResolvesNothing(pods);
        continue;
      }
      id := LookupPod(s, pods);
      if id.Some? {
        break;
      }
    }
  }

  /** The result is the leaf-most name's: the first that resolves at all. */
  lemma {:induction false} ResolveIsLeafmost(candidates: seq<string>, pods: seq<Pod>, i: nat)
    requires i <= |candidates|
    requires forall j | 0 <= j < i :: Lookup(candidates[j], pods).None?
    requires i < |candidates| ==> Lookup(candidates[i], pods).Some?
    ensures Resolve(candidates, pods) == if i < |candidates| then Lookup(candidates[i], pods) else None
  {
    if i > 0 {
      ResolveIsLeafmost(candidates[1..], pods, i - 1);
    }
  }

  /** Conversely, a resolution comes from some name, and none before it resolves. */
  lemma {:induction false} ResolveComesFromAName(candidates: seq<string>, pods: seq<Pod>) returns (i: nat)
    ensures i <= |candidates|
    ensures forall j | 0 <= j < i :: Lookup(candidates[j], pods).None?
    ensures Resolve(candidates, pods) == if i < |candidates| then Lookup(candidates[i], pods) else None
    ensures i < |candidates| ==> Lookup(candidates[i], pods).Some?
  {
    if candidates == [] || Lookup(candidates[0], pods).Some? {
      i := 0;
    } else {
      i := ResolveComesFromAName(candidates[1..], pods);
      i := i + 1;
    }
  }

  // ----- Exactness and order -----

  /** What a lookup returns, and exactly when it returns nothing. */
  lemma LookupIsExact(pcid: string, pods: seq<Pod>)
    ensures Lookup(pcid, pods).None? <==> forall p | p in pods :: !IsFor(p, pcid)
    ensures Lookup(pcid, pods).Some? ==>
      exists i | 0 <= i < |pods| ::
        && Lookup(pcid, pods) == Some(Identity(pods[i])) && IsFor(pods[i], pcid)
        && forall j | 0 <= j < i :: !IsFor(pods[j], pcid)
  {
    hide IsFor, TargetOf, Meets;
    forall p: Pod
      ensures Meets(p, TargetOf(pcid)) <==> IsFor(p, pcid)
    {
      MeetsMeansIsFor(p, pcid);
    }
    var i := Earliest(pods, TargetOf(pcid));
    if i < |pods| {
      assert pods[i] in pods;
    }
  }

  /** The same pod, its statuses listed in another order. */
  predicate Reordered(p: Pod, q: Pod) {
    && Identity(p) == Identity(q)
    && multiset(p.containers) == multiset(q.containers)
    && multiset(p.initContainers) == multiset(q.initContainers)
    && multiset(p.ephemeralContainers) == multiset(q.ephemeralContainers)
  }

  ghost predicate AllOccurIn(ps: seq<Pod>, qs: seq<Pod>) {
    forall p | p in ps :: exists q :: q in qs && Reordered(p, q)
  }

  ghost predicate UidsAreUnique(ps: seq<Pod>) {
    forall p, q | p in ps && q in ps && p.uid == q.uid :: Identity(p) == Identity(q)
  }

  ghost predicate CidsAreUnshared(ps: seq<Pod>) {
    forall p, q, s, t | p in ps && q in ps && s in Statuses(p) && t in Statuses(q) ::
      CidText(s).Some? && CidText(s) == CidText(t) ==> Identity(p) == Identity(q)
  }

  lemma UnsharedMeans(ps: seq<Pod>)
    ensures CidsAreUnshared(ps) <==>
      forall p, q, cid | p in ps && q in ps && Runs(p, cid) && Runs(q, cid) :: Identity(p) == Identity(q)
  {
    hide Runs, CidText, Statuses;
    forall p: Pod, cid: string
      ensures Runs(p, cid) <==> exists s :: s in Statuses(p) && CidText(s) == Some(cid)
    {
      RunsMeansCarries(p, cid);
    }
    if forall p, q, cid | p in ps && q in ps && Runs(p, cid) && Runs(q, cid) :: Identity(p) == Identity(q) {
      forall p, q, s, t | p in ps && q in ps && s in Statuses(p) && t in Statuses(q)
        ensures CidText(s).Some? && CidText(s) == CidText(t) ==> Identity(p) == Identity(q)
      {
        if CidText(s).Some? && CidText(s) == CidText(t) {
          assert Runs(p, CidText(s).value) && Runs(q, CidText(s).value);
        }
      }
    }
  }

  lemma ListsIgnoresOrder(xs: seq<string>, ys: seq<string>, cid: string)
    requires multiset(xs) == multiset(ys)
    ensures Lists(xs, cid) == Lists(ys, cid)
  {
    hide CidText;
    if Lists(xs, cid) {
      var i :| 0 <= i < |xs| && CidText(xs[i]) == Some(cid);
      assert xs[i] in multiset(ys);
    }
    if Lists(ys, cid) {
      var i :| 0 <= i < |ys| && CidText(ys[i]) == Some(cid);
      assert ys[i] in multiset(xs);
    }
  }

  lemma MeetsIgnoresOrder(p: Pod, q: Pod, t: Target)
    requires Reordered(p, q)
    ensures Meets(p, t) == Meets(q, t)
  {
    if t.ByCid? {
      ListsIgnoresOrder(p.containers, q.containers, t.cid);
      ListsIgnoresOrder(p.initContainers, q.initContainers, t.cid);
      ListsIgnoresOrder(p.ephemeralContainers, q.ephemeralContainers, t.cid);
    }
  }

  lemma LookupCarriesOver(pcid: string, ps: seq<Pod>, qs: seq<Pod>)
    requires AllOccurIn(ps, qs)
    requires UidsAreUnique(qs) && CidsAreUnshared(qs)
    ensures Lookup(pcid, ps).Some? ==> Lookup(pcid, qs) == Lookup(pcid, ps)
  {
    hide TargetOf, Runs, CidsAreUnshared;
    UnsharedMeans(qs);
    var t := TargetOf(pcid);
    var i, j := Earliest(ps, t), Earliest(qs, t);
    if i < |ps| {
      assert ps[i] in ps;
      var q :| q in qs && Reordered(ps[i], q);
      MeetsIgnoresOrder(ps[i], q, t);
      assert j < |qs| && qs[j] in qs;
    }
  }

  lemma UniquenessCarriesOver(ps: seq<Pod>, qs: seq<Pod>)
    requires AllOccurIn(qs, ps)
    requires UidsAreUnique(ps) && CidsAreUnshared(ps)
    ensures UidsAreUnique(qs) && CidsAreUnshared(qs)
  {
    hide Runs, CidsAreUnshared;
    UnsharedMeans(ps);
    UnsharedMeans(qs);
    forall q, q' | q in qs && q' in qs
      ensures q.uid == q'.uid ==> Identity(q) == Identity(q')
      ensures forall cid | Runs(q, cid) && Runs(q', cid) :: Identity(q) == Identity(q')
    {
      var p :| p in ps && Reordered(q, p);
      var p' :| p' in ps && Reordered(q', p');
      forall cid
        ensures Runs(q, cid) == Runs(p, cid) && Runs(q', cid) == Runs(p', cid)
      {
        MeetsIgnoresOrder(q, p, ByCid(cid));
        MeetsIgnoresOrder(q', p', ByCid(cid));
      }
    }
  }

  /** With unique uids and no container id in two pods, neither the order of the
      pods nor that of their statuses matters. */
  lemma LookupIgnoresOrder(pcid: string, ps: seq<Pod>, qs: seq<Pod>)
    requires AllOccurIn(ps, qs) && AllOccurIn(qs, ps)
    requires UidsAreUnique(ps) && CidsAreUnshared(ps)
    ensures Lookup(pcid, ps) == Lookup(pcid, qs)
  {
    UniquenessCarriesOver(ps, qs);
    LookupCarriesOver(pcid, ps, qs);
    LookupCarriesOver(pcid, qs, ps);
  }

  /** In particular for a permutation of the pods. */
  lemma LookupIgnoresPermutation(pcid: string, ps: seq<Pod>, qs: seq<Pod>)
    requires multiset(ps) == multiset(qs)
    requires UidsAreUnique(ps) && CidsAreUnshared(ps)
    ensures Lookup(pcid, ps) == Lookup(pcid, qs)
  {
    forall p
      ensures p in ps <==> p in qs
    {
      assert p in ps <==> p in multiset(ps);
      assert p in qs <==> p in multiset(qs);
    }
    assert forall p: Pod :: Reordered(p, p);
    LookupIgnoresOrder(pcid, ps, qs);
  }

  // ----- The naming schemes of the cgroup drivers -----

  /** A pod uid: hex digits and dashes. */
  predicate IsUid(uid: string) {
    uid != "" && forall i | 0 <= i < |uid| :: IsHex(uid[i]) || uid[i] == '-'
  }

  function PodSlice(prefix: string, uid: string): string {
    prefix + "pod" + Replaced(uid, '-', '_') + ".slice"
  }

  /** Both spellings of a uid ask for that uid. */
  lemma SpellingsAskForTheUid(prefix: string, uid: string)
    requires NoPodHit(prefix) && IsUid(uid)
    ensures TargetOf(PodSlice(prefix, uid)) == ByUid(uid)
    ensures TargetOf("pod" + uid) == ByUid(uid)
  {
    hide PodCapture, CidText, Replaced;
    SpellingsUndo(uid);
    PodCaptureBehind(prefix, Replaced(uid, '-', '_'), ".slice");
    PodCaptureBehind("", uid, "");
    assert "" + "pod" + uid + "" == "pod" + uid;
  }

  lemma SpellingsUndo(uid: string)
    requires IsUid(uid)
    ensures Replaced(Replaced(uid, '-', '_'), '_', '-') == uid && Replaced(uid, '_', '-') == uid
    ensures forall k | 0 <= k < |uid| :: IsUidChar(uid[k]) && IsUidChar(Replaced(uid, '-', '_')[k])
  {
  }

  /** So they resolve alike. */
  lemma SpellingsAgree(prefix: string, uid: string, pods: seq<Pod>)
    requires NoPodHit(prefix) && IsUid(uid)
    ensures Lookup(PodSlice(prefix, uid), pods) == Lookup("pod" + uid, pods)
  {
    SpellingsAskForTheUid(prefix, uid);
  }

  /** The prefixes of the systemd driver have no hit: in "kubepods" an 's' follows. */
  lemma KubepodsHasNoHit(qos: string)
    requires qos in {"", "-burstable", "-besteffort"}
    ensures NoPodHit("kubepods" + qos + "-")
    ensures NoPodHit("kubepods" + qos + ".slice")
  {
    var rest := qos + "-";
    var rest' := qos + ".slice";
    assert "kubepods" + qos + "-" == "kubepods" + rest;
    assert "kubepods" + qos + ".slice" == "kubepods" + rest';
    assert forall i | 0 <= i < |rest| :: rest[i] != 'p';
    assert forall i | 0 <= i < |rest'| :: rest'[i] != 'p';
    NoHitBehindKubepods(rest);
    NoHitBehindKubepods(rest');
  }

  lemma NoHitBehindKubepods(rest: string)
    requires forall i | 0 <= i < |rest| :: rest[i] != 'p'
    ensures NoPodHit("kubepods" + rest)
  {
    var s := "kubepods" + rest;
    assert s[..8] == "kubepods";
    assert forall i | 8 <= i < |s| :: s[i] == rest[i - 8];
    assert forall i: nat | i < |s| && s[i] == 'p' :: i == 4;
  }

  /** The names the systemd driver gives its pod slices, for all three classes. */
  lemma KubepodsSliceAsksForTheUid(qos: string, uid: string)
    requires qos in {"", "-burstable", "-besteffort"} && IsUid(uid)
    ensures TargetOf("kubepods" + qos + "-pod" + Replaced(uid, '-', '_') + ".slice") == ByUid(uid)
  {
    hide TargetOf, IsUid;
    KubepodsHasNoHit(qos);
    SpellingsAskForTheUid("kubepods" + qos + "-", uid);
    DashThenPod("kubepods" + qos, Replaced(uid, '-', '_') + ".slice");
    assert "kubepods" + qos + "-pod" + Replaced(uid, '-', '_') + ".slice"
        == "kubepods" + qos + "-pod" + (Replaced(uid, '-', '_') + ".slice");
    assert PodSlice("kubepods" + qos + "-", uid)
        == "kubepods" + qos + "-" + "pod" + (Replaced(uid, '-', '_') + ".slice");
  }

  lemma DashThenPod(a: string, b: string)
    ensures a + "-pod" + b == a + "-" + "pod" + b
  {
    assert a + "-pod" == a + "-" + "pod";
  }

  /** The slices above the pods resolve to nothing, whatever is listed. */
  lemma ParentSlicesResolveNothing(qos: string, pods: seq<Pod>)
    requires qos in {"", "-burstable", "-besteffort"}
    ensures Lookup("kubepods" + qos + ".slice", pods) == None
  {
    var s := "kubepods" + qos + ".slice";
    KubepodsHasNoHit(qos);
    assert PodCapture(s) == None;
    assert |s| < 64;
    assert CidText(s) == None;
    LookupIsExact(s, pods);
  }

  function Scope(runtime: string, cid: string): string {
    runtime + "-" + cid + ".scope"
  }

  predicate IsCid(cid: string) {
    |cid| == 64 && forall i | 0 <= i < 64 :: IsHex(cid[i])
  }

  lemma ScopeHits(runtime: string, cid: string)
    requires IsCid(cid)
    ensures NoPodHit(Scope(runtime, cid)) <==> NoPodHit(runtime + "-")
  {
    var head, s := runtime + "-", Scope(runtime, cid);
    var n := |head|;
    assert s == head + cid + ".scope";
    forall i: nat | i < n
      ensures PodHit(s, i) <==> PodHit(head, i)
    {
      assert s[n - 1] == '-';
    }
    forall i: nat | n <= i
      ensures !PodHit(s, i) && !PodHit(head, i)
    {
      if i < n + 64 {
        assert s[i] == cid[i - n];
      } else if i < |s| {
        assert s[i] == ".scope"[i - n - 64];
      }
    }
  }

  lemma ScopeCid(runtime: string, cid: string)
    requires IsCid(cid)
    ensures CidText(Scope(runtime, cid)) == Some(CidText(runtime).GetOr(cid))
    ensures CidText(runtime + "://" + cid) == Some(CidText(runtime).GetOr(cid))
  {
    var s, u := Scope(runtime, cid), runtime + "://" + cid;
    match FirstCidHit(runtime, 0)
    case None =>
      NoCidHitLonger(runtime, "-");
      NoCidHitLonger(runtime, "://");
      CidTextBehind(runtime + "-", cid, ".scope");
      CidTextBehind(runtime + "://", cid, "");
      assert u == runtime + "://" + cid + "";
    case Some(i) =>
      CidHitKept(runtime, "-" + cid + ".scope", i);
      assert s == runtime + ("-" + cid + ".scope");
      CidHitKept(runtime, "://" + cid, i);
      assert u == runtime + ("://" + cid);
  }

  lemma NoCidHitLonger(s: string, t: string)
    requires forall k: nat :: !CidHit(s, k)
    requires 0 < |t| < 64 && !IsHex(t[0])
    ensures forall k: nat :: !CidHit(s + t, k)
  {
    forall k: nat
      ensures !CidHit(s + t, k)
    {
      if k + 64 <= |s| {
        assert !CidHit(s, k);
        var d :| k <= d < k + 64 && !IsHex(s[d]);
        assert (s + t)[d] == s[d];
      } else if k <= |s| {
        assert (s + t)[|s|] == t[0];
      }
    }
  }

  lemma CidHitKept(s: string, t: string, i: nat)
    requires FirstCidHit(s, 0) == Some(i)
    ensures CidText(s + t) == CidText(s)
  {
    forall k | 0 <= k < i
      ensures !CidHit(s + t, k)
    {
      assert !CidHit(s, k);
      var d :| k <= d < k + 64 && !IsHex(s[d]);
      assert (s + t)[d] == s[d];
    }
    assert (s + t)[i..i + 64] == s[i..i + 64];
    CidTextAt(s + t, i);
  }

  /** A container scope asks for its container id exactly when `<runtime>-` hides
      no pod pattern and the runtime no other id. */
  lemma ScopeAsksForTheCid(runtime: string, cid: string)
    requires IsCid(cid)
    ensures TargetOf(Scope(runtime, cid)) == ByCid(cid)
       <==> NoPodHit(runtime + "-") && CidText(runtime).GetOr(cid) == cid
  {
    ScopeHits(runtime, cid);
    ScopeCid(runtime, cid);
    assert PodCapture(Scope(runtime, cid)).None? <==> NoPodHit(Scope(runtime, cid));
  }

  /** A runtime prefix that ends in "pod" need not have a hit of its own, but it makes
      one with the dash: `libpod-<cid>.scope` is taken for the name of a pod. */
  lemma RuntimeEndingInPod(r: string, cid: string)
    requires NoPodHit(r) && IsCid(cid)
    ensures NoPodHit(r + "pod")
    ensures TargetOf(Scope(r + "pod", cid)) == ByUid("-" + cid)
  {
    assert forall i: nat | i + 4 <= |r| :: !PodHit(r, i);
    PodCaptureBehind(r, "-" + cid, ".scope");
    assert r + "pod" + ("-" + cid) + ".scope" == Scope(r + "pod", cid);
    assert Replaced("-" + cid, '_', '-') == "-" + cid;
    var s := r + "pod";
    forall i: nat
      ensures !PodHit(s, i)
    {
      if i + 4 <= |r| {
        assert !PodHit(r, i);
      }
    }
  }

  /** The scope of a container resolves to the pod with that container, in any of its
      three status lists. The unit prefix of the scope and the scheme of the status
      need not agree: `cri-containerd-<cid>.scope` goes with `containerd://<cid>`. */
  lemma ScopeResolves(unit: string, scheme: string, cid: string, pods: seq<Pod>, p: Pod)
    requires IsCid(cid) && NoPodHit(unit + "-") && CidText(unit).None? && CidText(scheme).None?
    requires p in pods
    requires scheme + "://" + cid in Statuses(p)
    requires forall q, s | q in pods && s in Statuses(q) && CidText(s) == Some(cid) :: Identity(q) == Identity(p)
    ensures Lookup(Scope(unit, cid), pods) == Some(Identity(p))
  {
    hide CidText, Runs;
    ScopeAsksForTheCid(unit, cid);
    ScopeCid(scheme, cid);
    assert scheme + "://" + cid in Statuses(p);
    RunsMeansCarries(p, cid);
    var i := Earliest(pods, ByCid(cid));
    assert i < |pods| && pods[i] in pods;
    RunsMeansCarries(pods[i], cid);
  }
}

/** AnnotatePod and its effect on the cluster: a JSON merge patch, applied by the
API server with the algorithm of section 2 of RFC 7396.
*/
module MergePatch {
  datatype Json =
    | Null
    | Bool(b: bool)
    | Number(digits: string)
    | Str(s: string)
    | Array(items: seq<Json>)
    | Object(members: map<string, Json>)

  /** The members of an object; a value that is no object counts as an empty one. */
  function Members(j: Json): map<string, Json> {
    if j.Object? then j.members else map[]
  }

  function At(j: Json, name: string): Json {
    if name in Members(j) then Members(j)[name] else Null
  }

  /** Section 2 of RFC 7396. */
  function Merge(target: Json, patch: Json): Json
    decreases patch
  {
    if !patch.Object? then patch
    else Object(map name | name in Members(target).Keys + patch.members.Keys
                           && !(name in patch.members && patch.members[name].Null?)
                :: if name in patch.members then Merge(At(target, name), patch.members[name])
                   else Members(target)[name])
  }

  /** Member by member: a null deletes, another value is merged in and creates the
      member when needed, and a member the patch does not name stays. A patch that is
      no object replaces the target. */
  lemma MergeMemberByMember(target: Json, patch: Json, name: string)
    ensures !patch.Object? ==> Merge(target, patch) == patch
    ensures patch.Object? ==>
      && Merge(target, patch).Object?
      && var after := Members(Merge(target, patch));
      if name !in patch.members then
        (name in after <==> name in Members(target)) && At(Merge(target, patch), name) == At(target, name)
      else if patch.members[name].Null? then name !in after
      else name in after && after[name] == Merge(At(target, name), patch.members[name])
  {
  }

  /** A merge patch says what the result holds, so applying it twice is applying
      it once. */
  lemma {:induction false} MergeIsIdempotent(target: Json, patch: Json)
    ensures Merge(Merge(target, patch), patch) == Merge(target, patch)
    decreases patch
  {
    if patch.Object? {
      var once := Merge(target, patch);
      var twice := Merge(once, patch);
      forall name | name in once.members
        ensures name in twice.members && twice.members[name] == once.members[name]
      {
        if name in patch.members {
          MergeIsIdempotent(At(target, name), patch.members[name]);
        }
      }
      assert twice.members == once.members;
    }
  }

  // ----- The patch of AnnotatePod -----

  function Strings(annotations: map<string, string>): map<string, Json> {
    map k | k in annotations :: Str(annotations[k])
  }

  function PatchDocument(annotations: map<string, string>): Json {
    Object(map["metadata" := Object(map["annotations" := Object(Strings(annotations))])])
  }

  function Annotated(doc: Json, annotations: map<string, string>): Json {
    Merge(doc, PatchDocument(annotations))
  }

  function Metadata(doc: Json): Json {
    At(doc, "metadata")
  }

  function AnnotationsOf(doc: Json): map<string, Json> {
    Members(At(Metadata(doc), "annotations"))
  }

  lemma MergeOneMember(target: Json, name: string, value: Json)
    requires !value.Null?
    ensures Merge(target, Object(map[name := value])) == Object(Members(target)[name := Merge(At(target, name), value)])
  {
    hide Merge;
    var patch := Object(map[name := value]);
    var after, wanted := Merge(target, patch), Members(target)[name := Merge(At(target, name), value)];
    MergeMemberByMember(target, patch, name);
    forall n: string
      ensures n in after.members <==> n in wanted
      ensures n in wanted ==> after.members[n] == wanted[n]
    {
      MergeMemberByMember(target, patch, n);
    }
    assert after.members == wanted;
  }

  lemma MergeStrings(target: Json, annotations: map<string, string>)
    ensures Merge(target, Object(Strings(annotations))) == Object(Members(target) + Strings(annotations))
  {
    var patch := Object(Strings(annotations));
    assert Merge(target, patch).members == Members(target) + Strings(annotations);
  }

  /** The patch sets exactly the given annotations, creating the objects on the
      way, and leaves every other member of the document where it was. */
  lemma AnnotatedFrame(doc: Json, annotations: map<string, string>)
    ensures
      var after := Annotated(doc, annotations);
      && after.Object? && Metadata(after).Object?
      && after.members == Members(doc)["metadata" := Metadata(after)]
      && Metadata(after).members
         == Members(Metadata(doc))["annotations" := Object(AnnotationsOf(doc) + Strings(annotations))]
  {
    var inner := Object(Strings(annotations));
    MergeStrings(At(Metadata(doc), "annotations"), annotations);
    MergeOneMember(Metadata(doc), "annotations", inner);
    MergeOneMember(doc, "metadata", Object(map["annotations" := inner]));
  }

  lemma AnnotatedTwice(doc: Json, annotations: map<string, string>)
    ensures Annotated(Annotated(doc, annotations), annotations) == Annotated(doc, annotations)
    ensures AnnotationsOf(Annotated(doc, annotations)) == AnnotationsOf(doc) + Strings(annotations)
  {
    MergeIsIdempotent(doc, PatchDocument(annotations));
    AnnotatedFrame(doc, annotations);
  }

  // ----- The cluster -----

  /** Namespace and name. */
  type PodKey = (string, string)

  /** What the API server makes of a patch request, and whether the client hears
      of it. */
  datatype Outcome = Applied | Rejected | ReplyLost

  function DocsAfter(docs: map<PodKey, Json>, pod: PodKey, annotations: map<string, string>, outcome: Outcome)
    : map<PodKey, Json>
  {
    if |annotations| == 0 || outcome.Rejected? || pod !in docs then docs
    else docs[pod := Annotated(docs[pod], annotations)]
  }

  predicate Accepted(docs: map<PodKey, Json>, pod: PodKey, annotations: map<string, string>, outcome: Outcome) {
    |annotations| == 0 || (outcome.Applied? && pod in docs)
  }

  /** The client hears of success exactly when the document is there and was patched
      with a reply; a rejected request changes nothing, a lost reply hides a change. */
  lemma AcceptedMeansPatched(docs: map<PodKey, Json>, pod: PodKey, annotations: map<string, string>, outcome: Outcome)
    requires |annotations| > 0
    ensures
      var after := DocsAfter(docs, pod, annotations, outcome);
      && after.Keys == docs.Keys
      && (forall p | p in docs && p != pod :: after[p] == docs[p])
      && (pod in docs ==> after[pod] == if outcome == Rejected then docs[pod] else Annotated(docs[pod], annotations))
      && (Accepted(docs, pod, annotations, outcome) <==> pod in docs && outcome == Applied)
  {
  }

  class Cluster {
    var docs: map<PodKey, Json>

    constructor (docs: map<PodKey, Json>)
      ensures this.docs == docs
    {
      this.docs := docs;
    }

    /** AnnotatePod; the returned flag is `err == nil`. */
    method AnnotatePod(namespace: string, name: string, annotations: map<string, string>, outcome: Outcome)
      returns (ok: bool)
      modifies this
      ensures docs == DocsAfter(old(docs), (namespace, name), annotations, outcome)
      ensures ok == Accepted(old(docs), (namespace, name), annotations, outcome)
    {
      if |annotations| == 0 {
        return true;
      }
      var patch := PatchDocument(annotations);
      var pod := (namespace, name);
      ok := false;
      if pod in docs && !outcome.Rejected? {
        docs := docs[pod := Merge(docs[pod], patch)];
        ok := outcome.Applied?;
      }
    }
  }

  /** One mark on a pod's document. */
  function Marked(doc: Json, key: string, val: string): Json {
    Annotated(doc, map[key := val])
  }

  /** Marking sets one annotation, touches no other, and is idempotent. */
  lemma MarkedFrame(doc: Json, key: string, val: string)
    ensures AnnotationsOf(Marked(doc, key, val)) == AnnotationsOf(doc)[key := Str(val)]
    ensures Marked(Marked(doc, key, val), key, val) == Marked(doc, key, val)
  {
    AnnotatedTwice(doc, map[key := val]);
    assert AnnotationsOf(doc) + Strings(map[key := val]) == AnnotationsOf(doc)[key := Str(val)];
  }
}

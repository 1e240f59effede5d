/** The two regular expressions of the agent, `pod([a-f0-9_-]+)` and
`[a-f0-9]{64}`: what a match is, which one the library reports (the leftmost,
repetition taken greedily), and scans that find it.
*/
module Matching {
  import opened Bytes

  predicate IsHex(c: char) {
    '0' <= c <= '9' || 'a' <= c <= 'f'
  }

  predicate IsUidChar(c: char) {
    IsHex(c) || c == '_' || c == '-'
  }

  /** The character classes, spelt out. */
  lemma ClassesSpeltOut(c: char)
    ensures IsHex(c) <==> c in "0123456789abcdef"
    ensures IsUidChar(c) <==> c in "0123456789abcdef_-"
  {
    var digits := "0123456789abcdef";
    if '0' <= c <= '9' {
      assert digits[c as int - '0' as int] == c;
    } else if 'a' <= c <= 'f' {
      assert digits[10 + c as int - 'a' as int] == c;
    }
    assert IsHex(c) <==> c in digits;
    assert "0123456789abcdef_-" == digits + "_-";
  }

  // ----- The languages of the patterns -----

  /** s[i..j] is a word of `pod([a-f0-9_-]+)`. */
  predicate IsPodMatch(s: string, i: nat, j: nat) {
    i + 4 <= j <= |s| && s[i..i + 3] == "pod" && forall k | i + 3 <= k < j :: IsUidChar(s[k])
  }

  /** s[i..j] is a word of `[a-f0-9]{64}`. */
  predicate IsCidMatch(s: string, i: nat, j: nat) {
    j == i + 64 <= |s| && forall k | i <= k < j :: IsHex(s[k])
  }

  /** The match the regular expression library reports. */
  ghost predicate IsLeftmostPodMatch(s: string, i: nat, j: nat) {
    && IsPodMatch(s, i, j)
    && (forall i': nat, j': nat | IsPodMatch(s, i', j') :: i <= i')
    && (forall j': nat | IsPodMatch(s, i, j') :: j' <= j)
  }

  ghost predicate IsLeftmostCidMatch(s: string, i: nat) {
    IsCidMatch(s, i, i + 64) && forall i': nat, j': nat | IsCidMatch(s, i', j') :: i <= i'
  }

  // ----- The pod pattern -----

  /** A match can start at `i`: one character of the repetition is enough. */
  predicate PodHit(s: string, i: nat) {
    i + 4 <= |s| && s[i] == 'p' && s[i + 1] == 'o' && s[i + 2] == 'd' && IsUidChar(s[i + 3])
  }

  ghost predicate NoPodHit(s: string) {
    forall i: nat :: !PodHit(s, i)
  }

  function FirstPodHit(s: string, from: nat): (r: Option<nat>)
    requires from <= |s|
    ensures r.Some? ==> from <= r.value && PodHit(s, r.value) && forall k | from <= k < r.value :: !PodHit(s, k)
    ensures r.None? ==> forall k | from <= k :: !PodHit(s, k)
    decreases |s| - from
  {
    if from == |s| then None
    else if PodHit(s, from) then Some(from)
    else FirstPodHit(s, from + 1)
  }

  function UidEnd(s: string, from: nat): (e: nat)
    requires from <= |s|
    ensures from <= e <= |s|
    ensures forall k | from <= k < e :: IsUidChar(s[k])
    ensures e < |s| ==> !IsUidChar(s[e])
    decreases |s| - from
  {
    if from < |s| && IsUidChar(s[from]) then UidEnd(s, from + 1) else from
  }

  lemma {:induction false} UidEndIs(s: string, from: nat, e: nat)
    requires from <= e <= |s|
    requires forall k | from <= k < e :: IsUidChar(s[k])
    requires e == |s| || !IsUidChar(s[e])
    ensures UidEnd(s, from) == e
    decreases e - from
  {
    if from < e {
      UidEndIs(s, from + 1, e);
    }
  }

  /** The first group of podPattern.FindStringSubmatch. */
  function PodCapture(s: string): Option<string> {
    match FirstPodHit(s, 0)
    case None => None
    case Some(i) => Some(s[i + 3..UidEnd(s, i + 3)])
  }

  lemma PodMatchIsHit(s: string, i: nat, j: nat)
    requires IsPodMatch(s, i, j)
    ensures PodHit(s, i)
  {
    assert s[i..i + 3][0] == 'p' && s[i..i + 3][1] == 'o' && s[i..i + 3][2] == 'd';
  }

  /** The capture is the group of the leftmost greedy match, and there is none
      exactly when nothing matches. */
  lemma PodCaptureIsLeftmost(s: string)
    ensures PodCapture(s).None? <==> forall i: nat, j: nat :: !IsPodMatch(s, i, j)
    ensures forall i: nat, j: nat | IsLeftmostPodMatch(s, i, j) :: PodCapture(s) == Some(s[i + 3..j])
    ensures PodCapture(s).Some? ==> exists i: nat, j: nat :: IsLeftmostPodMatch(s, i, j)
  {
    forall i: nat, j: nat | IsPodMatch(s, i, j)
      ensures PodHit(s, i)
    {
      PodMatchIsHit(s, i, j);
    }
    match FirstPodHit(s, 0)
    case None =>
    case Some(i) =>
      var e := UidEnd(s, i + 3);
      assert s[i..i + 3] == "pod";
      assert IsPodMatch(s, i, e);
      assert IsLeftmostPodMatch(s, i, e);
  }

  /** podPattern.FindStringSubmatch as a scan. */
  method FindPod(s: string) returns (capture: Option<string>)
    ensures capture == PodCapture(s)
  {
    var i := 0;
    while i < |s|
      invariant i <= |s|
      invariant FirstPodHit(s, i) == FirstPodHit(s, 0)
    {
      if PodHit(s, i) {
        var j := i + 3;
        while j < |s| && IsUidChar(s[j])
          invariant i + 3 <= j <= |s|
          invariant UidEnd(s, j) == UidEnd(s, i + 3)
        {
          j := j + 1;
        }
        return Some(s[i + 3..j]);
      }
      i := i + 1;
    }
    return None;
  }

  // ----- The container id pattern -----

  predicate CidHit(s: string, i: nat) {
    IsCidMatch(s, i, i + 64)
  }

  function FirstCidHit(s: string, from: nat): (r: Option<nat>)
    requires from <= |s|
    ensures r.Some? ==> from <= r.value && CidHit(s, r.value) && forall k | from <= k < r.value :: !CidHit(s, k)
    ensures r.None? ==> forall k | from <= k :: !CidHit(s, k)
    decreases |s| - from
  {
    if from == |s| then None
    else if CidHit(s, from) then Some(from)
    else FirstCidHit(s, from + 1)
  }

  /** cidPattern.FindString, with nothing for no match. */
  function CidText(s: string): (r: Option<string>)
    ensures r.Some? ==> |r.value| == 64
  {
    match FirstCidHit(s, 0)
    case None => None
    case Some(i) => Some(s[i..i + 64])
  }

  lemma CidTextAt(s: string, i: nat)
    requires CidHit(s, i) && forall k | 0 <= k < i :: !CidHit(s, k)
    ensures CidText(s) == Some(s[i..i + 64])
  {
    var first := FirstCidHit(s, 0);
    assert first == Some(i);
  }

  /** The text is the leftmost match, and it opens the first maximal run of hex
      digits that is long enough. */
  lemma CidTextIsLeftmost(s: string)
    ensures CidText(s).None? <==> forall i: nat, j: nat :: !IsCidMatch(s, i, j)
    ensures forall i: nat | IsLeftmostCidMatch(s, i) ::
      CidText(s) == Some(s[i..i + 64]) && (i == 0 || !IsHex(s[i - 1]))
    ensures CidText(s).Some? ==> exists i: nat :: IsLeftmostCidMatch(s, i)
  {
    forall i: nat, j: nat | IsCidMatch(s, i, j)
      ensures CidHit(s, i)
    {
    }
    match FirstCidHit(s, 0)
    case None =>
    case Some(i) =>
      assert IsLeftmostCidMatch(s, i);
      if i > 0 && IsHex(s[i - 1]) {
        assert CidHit(s, i - 1);
      }
  }

  /** cidPattern.FindString in one pass that counts the current run of digits. */
  method FindCid(s: string) returns (r: Option<string>)
    ensures r == CidText(s)
  {
    var run := 0;
    for i := 0 to |s|
      invariant 0 <= run < 64 && run <= i
      invariant forall k | i - run <= k < i :: IsHex(s[k])
      invariant run < i ==> !IsHex(s[i - run - 1])
      invariant forall k: nat | k + 64 <= i :: !CidHit(s, k)
    {
      if IsHex(s[i]) {
        run := run + 1;
        if run == 64 {
          CidTextAt(s, i - 63);
          return Some(s[i - 63..i + 1]);
        }
        forall k: nat | k + 64 == i + 1
          ensures !CidHit(s, k)
        {
          assert k <= i - run < k + 64;
        }
      } else {
        run := 0;
        assert forall k: nat | k + 64 == i + 1 :: !CidHit(s, k) by {
          assert !IsHex(s[i]);
        }
      }
    }
    return None;
  }

  // ----- Matches behind a prefix -----

  /** A prefix without a hit of its own gives none across the seam either, so the
      capture is the whole run behind the first "pod". */
  lemma PodCaptureBehind(prefix: string, uid: string, suffix: string)
    requires NoPodHit(prefix)
    requires uid != "" && forall k | 0 <= k < |uid| :: IsUidChar(uid[k])
    requires suffix == "" || !IsUidChar(suffix[0])
    ensures PodCapture(prefix + "pod" + uid + suffix) == Some(uid)
  {
    var s, n := prefix + "pod" + uid + suffix, |prefix|;
    assert s[n] == 'p' && s[n + 1] == 'o' && s[n + 2] == 'd' && s[n + 3] == uid[0];
    assert PodHit(s, n);
    forall k | 0 <= k < n
      ensures !PodHit(s, k)
    {
      assert !PodHit(prefix, k);
    }
    assert FirstPodHit(s, 0) == Some(n);
    var e := n + 3 + |uid|;
    assert s[n + 3..e] == uid;
    forall k | n + 3 <= k < e
      ensures IsUidChar(s[k])
    {
      assert s[k] == uid[k - n - 3];
    }
    assert e < |s| ==> s[e] == suffix[0];
    UidEndIs(s, n + 3, e);
  }

  lemma CidTextBehind(prefix: string, cid: string, suffix: string)
    requires forall k: nat :: !CidHit(prefix, k)
    requires prefix == "" || !IsHex(prefix[|prefix| - 1])
    requires |cid| == 64 && forall k | 0 <= k < 64 :: IsHex(cid[k])
    ensures CidText(prefix + cid + suffix) == Some(cid)
  {
    var s, n := prefix + cid + suffix, |prefix|;
    assert s[n..n + 64] == cid;
    forall k | n <= k < n + 64
      ensures IsHex(s[k])
    {
      assert s[k] == cid[k - n];
    }
    assert CidHit(s, n);
    forall k | 0 <= k < n
      ensures !CidHit(s, k)
    {
      if k + 64 <= n {
        assert !CidHit(prefix, k);
        var d :| k <= d < k + 64 && !IsHex(prefix[d]);
        assert s[d] == prefix[d];
      } else {
        assert s[n - 1] == prefix[n - 1];
      }
    }
    CidTextAt(s, n);
  }
}

/** parseAnnotation: the `--victim-annotation` flag. Its text is a sequence of
Unicode characters.
*/
module Annotation {
  /** unicode.IsSpace. */
  predicate IsSpace(c: char) {
    var u := c as int;
    || 0x09 <= u <= 0x0D || u == 0x20 || u == 0x85 || u == 0xA0 || u == 0x1680
    || 0x2000 <= u <= 0x200A || u == 0x2028 || u == 0x2029 || u == 0x202F || u == 0x205F || u == 0x3000
  }

  /** The characters with the White_Space property, spelt out. */
  lemma SpacesSpeltOut(c: char)
    ensures
      var spaces := {0x09, 0x0A, 0x0B, 0x0C, 0x0D, 0x20, 0x85, 0xA0, 0x1680,
                     0x2000, 0x2001, 0x2002, 0x2003, 0x2004, 0x2005, 0x2006, 0x2007, 0x2008, 0x2009, 0x200A,
                     0x2028, 0x2029, 0x202F, 0x205F, 0x3000};
      IsSpace(c) <==> c as int in spaces
  {
  }

  predicate IsBlank(s: string) {
    forall i | 0 <= i < |s| :: IsSpace(s[i])
  }

  /** The first index from `i` on that is not blank; |s| when there is none. */
  function FirstSolid(s: string, i: nat): (r: nat)
    requires i <= |s|
    ensures i <= r <= |s|
    ensures forall k | i <= k < r :: IsSpace(s[k])
    ensures r < |s| ==> !IsSpace(s[r])
    decreases |s| - i
  {
    if i < |s| && IsSpace(s[i]) then FirstSolid(s, i + 1) else i
  }

  /** One past the last index before `j` that is not blank. */
  function LastSolid(s: string, j: nat): (r: nat)
    requires j <= |s|
    ensures r <= j
    ensures forall k | r <= k < j :: IsSpace(s[k])
    ensures r > 0 ==> !IsSpace(s[r - 1])
  {
    if j > 0 && IsSpace(s[j - 1]) then LastSolid(s, j - 1) else j
  }

  /** strings.TrimSpace. */
  function Trim(s: string): string {
    var a := FirstSolid(s, 0);
    if a == |s| then "" else
      assert a < LastSolid(s, |s|);
      s[a..LastSolid(s, |s|)]
  }

  /** The index of the first '='; |s| when there is none. */
  function EqualsAt(s: string): (i: nat)
    ensures i <= |s|
    ensures forall k | 0 <= k < i :: s[k] != '='
    ensures i < |s| ==> s[i] == '='
  {
    if s == "" || s[0] == '=' then 0 else 1 + EqualsAt(s[1..])
  }

  datatype Parsed =
    | Annotation(key: string, val: string)
    | NotKeyValue
    | EmptyKey

  function ParseAnnotation(raw: string): Parsed {
    var value := Trim(raw);
    if value == "" then Annotation("", "")
    else
      var i := EqualsAt(value);
      if i == |value| then NotKeyValue
      else
        var key := Trim(value[..i]);
        var val := Trim(value[i + 1..]);
        if key == "" then EmptyKey else Annotation(key, val)
  }

  // ----- Trimming -----

  /** The part between the outer blanks, however it was found. */
  lemma TrimIs(s: string, a: nat, b: nat)
    requires a < b <= |s|
    requires !IsSpace(s[a]) && !IsSpace(s[b - 1])
    requires forall k | 0 <= k < a || b <= k < |s| :: IsSpace(s[k])
    ensures Trim(s) == s[a..b]
  {
    hide IsSpace;
    assert FirstSolid(s, 0) == a;
    assert LastSolid(s, |s|) == b;
  }

  lemma TrimOfBlank(s: string)
    ensures Trim(s) == "" <==> IsBlank(s)
  {
    hide IsSpace;
  }

  lemma BlankConcat(s: string, t: string)
    requires IsBlank(s) && IsBlank(t)
    ensures IsBlank(s + t)
  {
    hide IsSpace;
  }

  lemma TrimIsMiddle(before: string, mid: string, after: string)
    requires IsBlank(before) && IsBlank(after)
    requires mid != "" && !IsSpace(mid[0]) && !IsSpace(mid[|mid| - 1])
    ensures Trim(before + mid + after) == mid
  {
    hide IsSpace, Trim;
    var s, a, b := before + mid + after, |before|, |before + mid|;
    assert s[a..b] == mid;
    assert s[a] == mid[0] && s[b - 1] == mid[|mid| - 1];
    assert s[..a] == before && s[b..] == after;
    forall k | 0 <= k < a || b <= k < |s|
      ensures IsSpace(s[k])
    {
      assert s[k] == if k < a then before[k] else after[k - b];
    }
    TrimIs(s, a, b);
  }

  /** A text that is not blank, taken apart into blanks, middle, blanks. */
  lemma Middle(s: string) returns (before: string, mid: string, after: string)
    requires !IsBlank(s)
    ensures s == before + mid + after && IsBlank(before) && IsBlank(after)
    ensures mid != "" && !IsSpace(mid[0]) && !IsSpace(mid[|mid| - 1])
  {
    hide IsSpace;
    var a, b := FirstSolid(s, 0), LastSolid(s, |s|);
    before, mid, after := s[..a], s[a..b], s[b..];
  }

  /** Blanks around a text do not change what it trims to. */
  lemma TrimIgnoresPadding(before: string, s: string, after: string)
    requires IsBlank(before) && IsBlank(after)
    ensures Trim(before + s + after) == Trim(s)
  {
    hide IsBlank, Trim;
    if IsBlank(s) {
      BlankConcat(before, s);
      BlankConcat(before + s, after);
      TrimOfBlank(s);
      TrimOfBlank(before + s + after);
    } else {
      var p, mid, q := Middle(s);
      BlankConcat(before, p);
      BlankConcat(q, after);
      assert before + s + after == (before + p) + mid + (q + after);
      TrimIsMiddle(before + p, mid, q + after);
      TrimIsMiddle(p, mid, q);
    }
  }

  lemma TrimKeepsSolidEnds(s: string)
    ensures forall c | c in Trim(s) :: c in s
    ensures Trim(s) != "" ==> !IsSpace(Trim(s)[0]) && !IsSpace(Trim(s)[|Trim(s)| - 1])
  {
    hide IsSpace;
  }

  lemma TrimIsIdempotent(s: string)
    ensures Trim(Trim(s)) == Trim(s)
  {
    hide IsSpace, Trim;
    var t := Trim(s);
    TrimKeepsSolidEnds(s);
    if t == "" {
      TrimOfBlank(t);
    } else {
      TrimIs(t, 0, |t|);
    }
  }

  // ----- Parsing -----

  lemma EqualsIsSolid()
    ensures !IsSpace('=')
  {
  }

  /** Trimming the whole text only trims its two sides outwards. */
  lemma TrimAroundEquals(k: string, v: string) returns (k': string, v': string)
    ensures Trim(k + "=" + v) == k' + "=" + v'
    ensures Trim(k') == Trim(k) && Trim(v') == Trim(v)
    ensures forall c | c in k' :: c in k
  {
    hide IsSpace, IsBlank, Trim;
    EqualsIsSolid();
    var p, q;
    p, k' := SplitLeft(k);
    v', q := SplitRight(v);
    var mid := k' + "=" + v';
    assert k + "=" + v == p + mid + q;
    assert mid[0] == if k' == "" then '=' else k'[0];
    assert mid[|mid| - 1] == if v' == "" then '=' else v'[|v'| - 1];
    TrimIsMiddle(p, mid, q);
  }

  lemma SplitLeft(k: string) returns (p: string, k': string)
    ensures k == p + k' && IsBlank(p) && Trim(k') == Trim(k)
    ensures k' == "" || !IsSpace(k'[0])
    ensures forall c | c in k' :: c in k
  {
    hide IsSpace, Trim;
    var a := FirstSolid(k, 0);
    p, k' := k[..a], k[a..];
    TrimIgnoresPadding(p, k', "");
    assert k == p + k' + "";
  }

  lemma SplitRight(v: string) returns (v': string, q: string)
    ensures v == v' + q && IsBlank(q) && Trim(v') == Trim(v)
    ensures v' == "" || !IsSpace(v'[|v'| - 1])
  {
    hide IsSpace, Trim;
    var b := LastSolid(v, |v|);
    v', q := v[..b], v[b..];
    TrimIgnoresPadding("", v', q);
    assert v == "" + v' + q;
  }

  lemma FirstEquals(k: string, v: string)
    requires '=' !in k
    ensures EqualsAt(k + "=" + v) == |k|
  {
    var s := k + "=" + v;
    assert s[|k|] == '=';
    assert forall i | 0 <= i < |k| :: s[i] == k[i] && k[i] in k;
  }

  /** Text with '=': the first one splits it, each side is trimmed, and the key
      must not be blank. */
  lemma ParseKeyValue(k: string, v: string)
    requires '=' !in k
    ensures ParseAnnotation(k + "=" + v) == if IsBlank(k) then EmptyKey else Annotation(Trim(k), Trim(v))
  {
    hide IsSpace, Trim, EqualsAt;
    var k', v' := TrimAroundEquals(k, v);
    var value := k' + "=" + v';
    FirstEquals(k', v');
    assert value[..|k'|] == k' && value[|k'| + 1..] == v';
    TrimOfBlank(k);
  }

  /** Text without '=' is accepted only when blank, and then switches marking off. */
  lemma ParseWithoutEquals(raw: string)
    requires '=' !in raw
    ensures ParseAnnotation(raw) == if IsBlank(raw) then Annotation("", "") else NotKeyValue
  {
    hide IsSpace, Trim;
    var value := Trim(raw);
    TrimOfBlank(raw);
    TrimKeepsSolidEnds(raw);
    assert forall i | 0 <= i < |value| :: value[i] in value;
  }

  /** A nonempty key comes out exactly when the text before the first '=' is not
      blank; it then has no '=' and no blank at either end. */
  lemma KeyIffTextBeforeEquals(raw: string)
    ensures
      var i := EqualsAt(raw);
      var p := ParseAnnotation(raw);
      && ((p.Annotation? && p.key != "") <==> (i < |raw| && Trim(raw[..i]) != ""))
      && (p.Annotation? && p.key != "" ==>
            && p.key == Trim(raw[..i]) && '=' !in p.key
            && !IsSpace(p.key[0]) && !IsSpace(p.key[|p.key| - 1]))
  {
    hide IsSpace, Trim, ParseAnnotation;
    var i := EqualsAt(raw);
    if i < |raw| {
      var k := raw[..i];
      assert raw == k + "=" + raw[i + 1..];
      ParseKeyValue(k, raw[i + 1..]);
      TrimOfBlank(k);
      TrimKeepsSolidEnds(k);
    } else {
      ParseWithoutEquals(raw);
    }
  }

  /** Parsing the printed result gives it back, also when the value has a '='. */
  lemma ReparseIsFixedPoint(raw: string)
    ensures
      var p := ParseAnnotation(raw);
      p.Annotation? && p.key != "" ==> ParseAnnotation(p.key + "=" + p.val) == p
  {
    hide IsSpace, Trim, ParseAnnotation;
    var p, i := ParseAnnotation(raw), EqualsAt(raw);
    KeyIffTextBeforeEquals(raw);
    if p.Annotation? && p.key != "" {
      var k, v := raw[..i], raw[i + 1..];
      assert raw == k + "=" + v;
      ParseKeyValue(k, v);
      TrimOfBlank(k);
      TrimOfBlank(Trim(k));
      ParseKeyValue(Trim(k), Trim(v));
      TrimIsIdempotent(k);
      TrimIsIdempotent(v);
    }
  }

  /** The parser without its first trim. */
  function ParseUntrimmed(raw: string): Parsed {
    if raw == "" then Annotation("", "")
    else
      var i := EqualsAt(raw);
      if i == |raw| then NotKeyValue
      else
        var key := Trim(raw[..i]);
        var val := Trim(raw[i + 1..]);
        if key == "" then EmptyKey else Annotation(key, val)
  }

  /** What the first trim is for: it makes a flag of blanks mean no annotation. On
      every other text the parser would do the same without it. */
  lemma FirstTrimMattersForBlanks(raw: string)
    ensures ParseAnnotation(raw) == ParseUntrimmed(raw) <==> raw == "" || !IsBlank(raw)
  {
    hide IsSpace, Trim, ParseAnnotation;
    EqualsIsSolid();
    var i := EqualsAt(raw);
    if i < |raw| {
      assert raw == raw[..i] + "=" + raw[i + 1..];
      assert raw[i] == '=';
      ParseKeyValue(raw[..i], raw[i + 1..]);
      TrimOfBlank(raw[..i]);
    } else {
      ParseWithoutEquals(raw);
    }
  }

  /** Blanks around the whole text change nothing, with or without '='. */
  lemma OuterPaddingChangesNothing(before: string, raw: string, after: string)
    requires IsBlank(before) && IsBlank(after)
    ensures ParseAnnotation(before + raw + after) == ParseAnnotation(raw)
  {
    hide Trim;
    TrimIgnoresPadding(before, raw, after);
  }

  /** Blanks around the key and around the value change nothing. */
  lemma PaddingChangesNothing(a: string, k: string, b: string, c: string, v: string, d: string)
    requires '=' !in k
    requires IsBlank(a) && IsBlank(b) && IsBlank(c) && IsBlank(d)
    ensures ParseAnnotation(a + k + b + "=" + (c + v + d)) == ParseAnnotation(k + "=" + v)
  {
    hide Trim, ParseAnnotation;
    EqualsIsSolid();
    assert '=' !in a + k + b;
    ParseKeyValue(a + k + b, c + v + d);
    ParseKeyValue(k, v);
    TrimIgnoresPadding(a, k, b);
    TrimIgnoresPadding(c, v, d);
    TrimOfBlank(k);
    TrimOfBlank(a + k + b);
  }
}

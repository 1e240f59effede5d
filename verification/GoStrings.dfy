/** Char buffers to Go strings. A Go string is a sequence of bytes; here it is a
`string` whose characters are those bytes.
*/
module GoStrings {
  import opened Bytes
  import opened Event

  /** The bytes as a string. */
  function Text(bs: seq<Byte>): (s: string)
    ensures |s| == |bs|
  {
    seq(|bs|, i requires 0 <= i < |bs| => bs[i] as char)
  }

  /** The bytes of a string none of whose characters is above 255. */
  function BytesOf(s: string): (bs: seq<Byte>)
    requires forall i | 0 <= i < |s| :: s[i] as int < 0x100
    ensures |bs| == |s|
    ensures Text(bs) == s
  {
    seq(|s|, i requires 0 <= i < |s| => s[i] as int)
  }

  /** unix.ByteSliceToString: everything before the first NUL. */
  function UntilNul(bs: seq<Byte>): (r: seq<Byte>)
    ensures r <= bs
    ensures forall i | 0 <= i < |r| :: r[i] != 0
    ensures |r| < |bs| ==> bs[|r|] == 0
  {
    if bs == [] || bs[0] == 0 then [] else [bs[0]] + UntilNul(bs[1..])
  }

  /** The conversion byte(v). */
  function ByteOf(v: Int8): Byte {
    v % 0x100
  }

  function Unsigned(src: seq<Int8>): (bs: seq<Byte>)
    ensures |bs| == |src|
  {
    seq(|src|, i requires 0 <= i < |src| => ByteOf(src[i]))
  }

  function CharsToString(src: seq<Int8>): string {
    Text(UntilNul(Unsigned(src)))
  }

  method Int8SliceToString(src: seq<Int8>) returns (s: string)
    ensures s == CharsToString(src)
  {
    var b := new Byte[|src|];
    for i := 0 to |src|
      invariant forall k | 0 <= k < i :: b[k] == ByteOf(src[k])
    {
      b[i] := ByteOf(src[i]);
    }
    assert b[..] == Unsigned(src);
    s := Text(UntilNul(b[..]));
  }

  function CharsToStrings(src: seq<seq<Int8>>): (r: seq<string>)
    ensures |r| == |src|
  {
    seq(|src|, y requires 0 <= y < |src| => CharsToString(src[y]))
  }

  /** The slice it returns is made, so it is never nil. */
  method Int8SliceToStringSlice(src: seq<seq<Int8>>) returns (a: array?<string>)
    ensures a != null && fresh(a)
    ensures a[..] == CharsToStrings(src)
  {
    a := new string[|src|];
    for y := 0 to |src|
      invariant a != null && a.Length == |src| && fresh(a)
      invariant forall k | 0 <= k < y :: a[k] == CharsToString(src[k])
    {
      var s := Int8SliceToString(src[y]);
      a[y] := s;
    }
  }

  /** Every byte value survives the trip through signed char and back. */
  lemma UnsignedOfSigned(bs: seq<Byte>)
    ensures Unsigned(Signed(bs)) == bs
  {
  }

  lemma {:induction false} UntilNulOfTerminated(s: seq<Byte>, rest: seq<Byte>)
    requires forall i | 0 <= i < |s| :: s[i] != 0
    ensures UntilNul(s + [0] + rest) == s
  {
    if s != [] {
      UntilNulOfTerminated(s[1..], rest);
      assert (s + [0] + rest)[1..] == s[1..] + [0] + rest;
    }
  }

  /** What the agent decodes from the bytes of an event has that event's fields. */
  lemma WireKeepsEveryField(e: KernelEvent)
    ensures Decode(Encode(e)).Some?
    ensures
      var d := Decode(Encode(e)).value;
      && d.victimPid == e.victimPid && d.triggerPid == e.triggerPid
      && Unsigned(d.victimComm) == e.victimComm && Unsigned(d.triggerComm) == e.triggerComm
      && d.totalpages == e.totalpages && d.globalOom == e.globalOom
      && |d.names| == 4 && forall i | 0 <= i < 4 :: Unsigned(d.names[i]) == e.names[i]
  {
    hide Decode, Encode, Unsigned, Signed;
    WireRoundTrip(e);
    UnsignedOfSigned(e.victimComm);
    UnsignedOfSigned(e.triggerComm);
    forall i | 0 <= i < 4
      ensures Unsigned(Signed(e.names[i])) == e.names[i]
    {
      UnsignedOfSigned(e.names[i]);
    }
  }
}

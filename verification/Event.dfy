/** One OOM event on its way from the kernel to the agent: the C struct the probe
fills, its bytes in the ring buffer, and the Go struct those bytes decode to.
*/
module Event {
  import opened Bytes

  const NAME_LEN := 128
  const NAMES := 4

  type Uint32 = v: int | 0 <= v < 0x1_0000_0000
  type Uint64 = v: int | 0 <= v < 0x1_0000_0000_0000_0000
  type Comm = c: seq<Byte> | |c| == 16 witness ZeroBytes(16)
  type NameBuffer = b: seq<Byte> | |b| == 128 witness ZeroBytes(128)
  const EMPTY_NAME: NameBuffer := ZeroBytes(128)
  type NameTable = t: seq<NameBuffer> | |t| == 4 witness [EMPTY_NAME, EMPTY_NAME, EMPTY_NAME, EMPTY_NAME]

  /** `struct event`. */
  datatype KernelEvent = KernelEvent(
    victimPid: Uint32,
    triggerPid: Uint32,
    victimComm: Comm,
    triggerComm: Comm,
    totalpages: Uint64,
    globalOom: bool,
    names: NameTable)

  // ----- The struct in memory, by the C rules for alignment -----

  datatype Member = Member(align: nat, bytes: seq<Byte>)

  function Padding(at: nat, align: nat): nat
    requires align > 0
  {
    if at % align == 0 then 0 else align - at % align
  }

  /** Each member goes to the next multiple of its alignment. */
  function LayOut(members: seq<Member>, done: seq<Byte>): seq<Byte>
    requires forall i | 0 <= i < |members| :: members[i].align > 0
    decreases |members|
  {
    if members == [] then done
    else
      var m := members[0];
      LayOut(members[1..], done + ZeroBytes(Padding(|done|, m.align)) + m.bytes)
  }

  function Flat(t: NameTable): (r: seq<Byte>)
    ensures |r| == 512
  {
    var a: seq<Byte> := t[0];
    a + t[1] + t[2] + t[3]
  }

  function StructMembers(e: KernelEvent): seq<Member> {
    [ Member(4, ToLittleEndian(e.victimPid, 4)),
      Member(4, ToLittleEndian(e.triggerPid, 4)),
      Member(1, e.victimComm),
      Member(1, e.triggerComm),
      Member(8, ToLittleEndian(e.totalpages, 8)),
      Member(1, [if e.globalOom then 1 else 0]),
      Member(1, Flat(e.names)) ]
  }

  /** The struct's bytes, padded to a multiple of its strictest alignment. The
      padding is zero because the probe clears the whole record first. */
  function Encode(e: KernelEvent): seq<Byte> {
    var body := LayOut(StructMembers(e), []);
    body + ZeroBytes(Padding(|body|, 8))
  }

  // ----- The generated Go struct, and binary.Read into it -----

  type Int8 = v: int | -128 <= v < 128

  datatype BpfEvent = BpfEvent(
    victimPid: Uint32,
    triggerPid: Uint32,
    victimComm: seq<Int8>,
    triggerComm: seq<Int8>,
    totalpages: Uint64,
    globalOom: bool,
    names: seq<seq<Int8>>)

  const EVENT_SIZE := 568

  function AsInt8(b: Byte): Int8 {
    var v: int := b;
    if v < 128 then v else v - 0x100
  }

  function Signed(bs: seq<Byte>): (r: seq<Int8>)
    ensures |r| == |bs|
  {
    seq(|bs|, i requires 0 <= i < |bs| => AsInt8(bs[i]))
  }

  function NameAt(raw: seq<Byte>, i: nat): seq<Int8>
    requires |raw| >= EVENT_SIZE && i < NAMES
  {
    Signed(raw[49 + NAME_LEN * i..49 + NAME_LEN * (i + 1)])
  }

  /** Fields are consumed one after the other, with no alignment: an error only
      when the bytes run out. */
  function Decode(raw: seq<Byte>): (r: Option<BpfEvent>) {
    if |raw| < EVENT_SIZE then None
    else
      Widths();
      Some(BpfEvent(
        FromLittleEndian(raw[0..4]),
        FromLittleEndian(raw[4..8]),
        Signed(raw[8..24]),
        Signed(raw[24..40]),
        FromLittleEndian(raw[40..48]),
        raw[48] != 0,
        [NameAt(raw, 0), NameAt(raw, 1), NameAt(raw, 2), NameAt(raw, 3)]))
  }

  /** The same event, chars read as int8. */
  function AsBpfEvent(e: KernelEvent): BpfEvent {
    BpfEvent(e.victimPid, e.triggerPid, Signed(e.victimComm), Signed(e.triggerComm), e.totalpages, e.globalOom,
             [Signed(e.names[0]), Signed(e.names[1]), Signed(e.names[2]), Signed(e.names[3])])
  }

  /** The C rules put no padding between the members and seven bytes after them,
      which is what the Go struct's explicit tail field stands for. */
  lemma EncodeShape(e: KernelEvent)
    ensures Encode(e) ==
      ToLittleEndian(e.victimPid, 4) + ToLittleEndian(e.triggerPid, 4) + e.victimComm + e.triggerComm
      + ToLittleEndian(e.totalpages, 8) + [if e.globalOom then 1 else 0]
      + Flat(e.names) + ZeroBytes(7)
    ensures |Encode(e)| == EVENT_SIZE
  {
    hide LayOut, ToLittleEndian, Flat;
    var m := StructMembers(e);
    var d1 := m[0].bytes;
    var d2 := d1 + m[1].bytes;
    var d3 := d2 + m[2].bytes;
    var d4 := d3 + m[3].bytes;
    var d5 := d4 + m[4].bytes;
    var d6 := d5 + m[5].bytes;
    var d7 := d6 + m[6].bytes;
    calc {
      LayOut(m, []);
      { LayOutStep(m, []); assert [] + d1 == d1; }
      LayOut(m[1..], d1);
      { LayOutStep(m[1..], d1); assert m[1..][1..] == m[2..]; }
      LayOut(m[2..], d2);
      { LayOutStep(m[2..], d2); assert m[2..][1..] == m[3..]; }
      LayOut(m[3..], d3);
      { LayOutStep(m[3..], d3); assert m[3..][1..] == m[4..]; }
      LayOut(m[4..], d4);
      { LayOutStep(m[4..], d4); assert m[4..][1..] == m[5..]; }
      LayOut(m[5..], d5);
      { LayOutStep(m[5..], d5); assert m[5..][1..] == m[6..]; }
      LayOut(m[6..], d6);
      { LayOutStep(m[6..], d6); assert m[6..][1..] == []; }
      LayOut([], d7);
      { LayOutDone(d7); }
      d7;
    }
  }

  lemma LayOutDone(done: seq<Byte>)
    ensures LayOut([], done) == done
  {
  }

  lemma LayOutStep(members: seq<Member>, done: seq<Byte>)
    requires members != [] && forall i | 0 <= i < |members| :: members[i].align > 0
    requires |done| % members[0].align == 0
    ensures LayOut(members, done) == LayOut(members[1..], done + members[0].bytes)
  {
    assert done + ZeroBytes(0) == done;
  }

  /** Where each member lies. */
  lemma MemberOffsets(vp: seq<Byte>, tp: seq<Byte>, vc: seq<Byte>, tc: seq<Byte>, pages: seq<Byte>,
                      flag: seq<Byte>, names: seq<Byte>, pad: seq<Byte>)
    requires |vp| == 4 && |tp| == 4 && |vc| == 16 && |tc| == 16 && |pages| == 8 && |flag| == 1 && |names| == 512
    ensures
      var raw := vp + tp + vc + tc + pages + flag + names + pad;
      && raw[0..4] == vp && raw[4..8] == tp && raw[8..24] == vc && raw[24..40] == tc
      && raw[40..48] == pages && raw[48] == flag[0] && raw[49..561] == names
  {
  }

  lemma SliceOfSlice(s: seq<Byte>, a: nat, b: nat, lo: nat, hi: nat)
    requires a <= b <= |s| && lo <= hi <= b - a
    ensures s[a..b][lo..hi] == s[a + lo..a + hi]
  {
    forall k | 0 <= k < hi - lo
      ensures s[a..b][lo..hi][k] == s[a + lo..a + hi][k]
    {
      assert s[a..b][lo + k] == s[a + lo + k];
    }
  }

  lemma NameOffsets(t: NameTable, raw: seq<Byte>, i: nat)
    requires |raw| == EVENT_SIZE && raw[49..561] == Flat(t)
    requires i < NAMES
    ensures NameAt(raw, i) == Signed(t[i])
  {
    var lo, hi := 128 * i, 128 * (i + 1);
    SliceOfSlice(raw, 49, 561, lo, hi);
    assert Flat(t)[lo..hi] == t[i];
  }

  /** Decoding what the kernel wrote never fails and gives back every field. */
  lemma WireRoundTrip(e: KernelEvent)
    ensures Decode(Encode(e)) == Some(AsBpfEvent(e))
  {
    var raw := Encode(e);
    var vp, tp, pages := ToLittleEndian(e.victimPid, 4), ToLittleEndian(e.triggerPid, 4), ToLittleEndian(e.totalpages, 8);
    EncodeShape(e);
    MemberOffsets(vp, tp, e.victimComm, e.triggerComm, pages, [if e.globalOom then 1 else 0], Flat(e.names), ZeroBytes(7));
    Widths();
    LittleEndianRoundTrip(e.victimPid, 4);
    LittleEndianRoundTrip(e.triggerPid, 4);
    LittleEndianRoundTrip(e.totalpages, 8);
    forall i: nat | i < NAMES
      ensures NameAt(raw, i) == Signed(e.names[i])
    {
      NameOffsets(e.names, raw, i);
    }
  }

  /** Decoding needs 568 bytes and looks at no more; the flag is any nonzero byte. */
  lemma DecodeNeedsOneStruct(raw: seq<Byte>, more: seq<Byte>)
    ensures Decode(raw).Some? <==> |raw| >= EVENT_SIZE
    ensures Decode(raw).Some? ==> Decode(raw + more) == Decode(raw)
    ensures Decode(raw).Some? ==> (Decode(raw).value.globalOom <==> raw[48] != 0)
  {
    hide FromLittleEndian, Signed;
    if |raw| >= EVENT_SIZE {
      PrefixSlices(raw, more);
    }
  }

  lemma PrefixSlices(raw: seq<Byte>, more: seq<Byte>)
    ensures forall lo, hi | 0 <= lo <= hi <= |raw| :: (raw + more)[lo..hi] == raw[lo..hi]
  {
  }
}

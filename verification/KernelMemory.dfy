/** Kernel memory as a probe sees it: a partial map from 64-bit addresses to
bytes, read through helpers that never fault the program.

Assumption: a read that touches an unmapped byte leaves its whole destination
zero. (The helper's own documentation only promises a negative return code,
which the probe never looks at.)
*/
module KernelMemory {
  import opened Bytes

  const ADDRESS_SPACE := 0x1_0000_0000_0000_0000

  type Address = a: int | 0 <= a < ADDRESS_SPACE

  type Heap = map<Address, Byte>

  /** Pointer arithmetic, modulo 2^64. */
  function Plus(a: Address, k: nat): Address {
    (a + k) % ADDRESS_SPACE
  }

  /** No kernel object lies at an address below this one. */
  const NULL_GUARD := 0x1_0000

  ghost predicate LowMemoryUnmapped(h: Heap) {
    forall a | a in h :: a >= NULL_GUARD
  }

  predicate Mapped(h: Heap, a: Address, n: nat) {
    forall i | 0 <= i < n :: Plus(a, i) in h
  }

  /** bpf_probe_read_kernel of an `n`-byte unsigned integer. */
  function ReadUint(h: Heap, a: Address, n: nat): (v: nat)
    ensures v < Pow256(n)
    ensures !Mapped(h, a, n) ==> v == 0
  {
    if Mapped(h, a, n) then
      FromLittleEndian(seq(n, i requires 0 <= i < n => h[Plus(a, i)]))
    else 0
  }

  function ReadPointer(h: Heap, a: Address): Address {
    Widths();
    ReadUint(h, a, 8)
  }

  /** The bytes of the C string at `a`, cut after `n` of them; nothing when an
      unmapped byte comes first. */
  function ScanString(h: Heap, a: Address, n: nat): (r: Option<seq<Byte>>)
    ensures r.Some? ==> |r.value| <= n
    ensures r.Some? ==> forall i | 0 <= i < |r.value| :: r.value[i] != 0
    decreases n
  {
    if n == 0 then Some([])
    else if a !in h then None
    else if h[a] == 0 then Some([])
    else
      var rest := ScanString(h, Plus(a, 1), n - 1);
      if rest.None? then None else Some([h[a]] + rest.value)
  }

  /** bpf_probe_read_kernel_str into `dst`: the string cut to leave room for a
      NUL, the NUL, and no further padding. */
  function ReadString(h: Heap, a: Address, dst: seq<Byte>): (buf: seq<Byte>)
    requires |dst| > 0
    ensures |buf| == |dst|
  {
    match ScanString(h, a, |dst| - 1)
    case None => ZeroBytes(|dst|)
    case Some(s) => s + [0] + dst[|s| + 1..]
  }

  /** `s`, then a NUL, stands in memory at `a`. */
  ghost predicate IsCString(h: Heap, a: Address, s: seq<Byte>)
    decreases |s|
  {
    && a in h
    && if s == [] then h[a] == 0 else h[a] == s[0] && s[0] != 0 && IsCString(h, Plus(a, 1), s[1..])
  }

  lemma {:induction false} ScanOfCString(h: Heap, a: Address, s: seq<Byte>, n: nat)
    requires IsCString(h, a, s)
    ensures ScanString(h, a, n) == Some(if |s| <= n then s else s[..n])
    decreases n
  {
    if n > 0 && s != [] {
      ScanOfCString(h, Plus(a, 1), s[1..], n - 1);
      assert s == [s[0]] + s[1..];
      if |s| > n {
        assert s[..n] == [s[0]] + s[1..][..n - 1];
      }
    }
  }

  /** A read through a null pointer faults: every kernel offset is small. */
  lemma NullReadsZero(h: Heap, offset: nat, n: nat)
    requires LowMemoryUnmapped(h)
    requires offset < NULL_GUARD
    requires n > 0
    ensures ReadUint(h, Plus(0, offset), n) == 0
  {
    assert Plus(Plus(0, offset), 0) == offset;
  }
}

/** The bitfield readers and the bitfield writer of bpf_core_read.h.

The C code works on `unsigned long long`; here a 64-bit word is the sequence of
its bits, least significant first, and every C operator is written out over
those bits. The relocation results BYTE_OFFSET, BYTE_SIZE, LSHIFT_U64,
RSHIFT_U64 and SIGNED are parameters. Storage is an array of octets that the
readers and the writer address in either byte order.
*/
module Bitfield {

  type Word = w: seq<bool> | |w| == 64 witness seq(64, _ => false)
  type Octet = b: seq<bool> | |b| == 8 witness seq(8, _ => false)

  datatype ByteOrder = Little | Big

  // ----- The operators of C on 64-bit words -----

  function Fill(n: nat, bit: bool): seq<bool> {
    seq(n, _ => bit)
  }

  function Zeros(n: nat): seq<bool> {
    Fill(n, false)
  }

  function ZeroOctets(n: nat): seq<Octet> {
    seq(n, _ => Zeros(8))
  }

  const ALL_ONES: Word := Fill(64, true)

  function Not(x: Word): Word {
    seq(64, i requires 0 <= i < 64 => !x[i])
  }

  function And(x: Word, y: Word): Word {
    seq(64, i requires 0 <= i < 64 => x[i] && y[i])
  }

  function Or(x: Word, y: Word): Word {
    seq(64, i requires 0 <= i < 64 => x[i] || y[i])
  }

  function ShiftLeft(x: Word, k: nat): Word
    requires k <= 63
  {
    Zeros(k) + x[..64 - k]
  }

  function ShiftRight(x: Word, k: nat): Word
    requires k <= 63
  {
    x[k..] + Zeros(k)
  }

  /** Right shift of a `long long`: the sign bit fills the vacated positions. */
  function ShiftRightSigned(x: Word, k: nat): Word
    requires k <= 63
  {
    x[k..] + Fill(k, x[63])
  }

  // ----- The numbers that bit strings denote -----

  function Pow2(n: nat): (p: nat)
    ensures p > 0
  {
    if n == 0 then 1 else 2 * Pow2(n - 1)
  }

  function Value(b: seq<bool>): (v: nat)
    ensures v < Pow2(|b|)
  {
    if |b| == 0 then 0 else (if b[0] then 1 else 0) + 2 * Value(b[1..])
  }

  /** Two's complement. */
  function SignedValue(b: seq<bool>): int
    requires |b| > 0
  {
    Value(b) - if b[|b| - 1] then Pow2(|b|) else 0
  }

  /** A field's bits widened to a word: with zeros, or with copies of its top bit. */
  function Extend(b: seq<bool>, signed: bool): Word
    requires 0 < |b| <= 64
  {
    b + Fill(64 - |b|, signed && b[|b| - 1])
  }

  lemma {:induction false} ValueConcat(a: seq<bool>, b: seq<bool>)
    ensures Value(a + b) == Value(a) + Pow2(|a|) * Value(b)
  {
    if a == [] {
      assert a + b == b;
    } else {
      ValueConcat(a[1..], b);
      assert (a + b)[1..] == a[1..] + b;
      MulAssociates(2, Pow2(|a| - 1), Value(b));
    }
  }

  lemma MulAssociates(x: int, y: int, z: int)
    ensures (x * y) * z == x * (y * z)
  {
  }

  lemma {:induction false} ValueFill(n: nat, bit: bool)
    ensures Value(Fill(n, bit)) == if bit then Pow2(n) - 1 else 0
  {
    if n > 0 {
      ValueFill(n - 1, bit);
      assert Fill(n, bit)[1..] == Fill(n - 1, bit);
    }
  }

  lemma {:induction false} Pow2Add(m: nat, n: nat)
    ensures Pow2(m + n) == Pow2(m) * Pow2(n)
  {
    if m > 0 {
      Pow2Add(m - 1, n);
      MulAssociates(2, Pow2(m - 1), Pow2(n));
    }
  }

  /** The low bits of a word are its value modulo a power of two. */
  lemma LowBitsAreModulo(x: seq<bool>, n: nat)
    requires n <= |x|
    ensures Value(x[..n]) == Value(x) % Pow2(n)
  {
    assert x == x[..n] + x[n..];
    ValueConcat(x[..n], x[n..]);
    DivisionIsUnique(Value(x), Pow2(n), Value(x[n..]), Value(x[..n]));
  }

  lemma DivisionIsUnique(x: nat, d: nat, q: nat, r: nat)
    requires x == r + d * q && r < d
    ensures x % d == r
  {
    var k := q - x / d;
    assert d * k == x % d - r by {
      MulDistributes(d, q, x / d);
    }
    if k > 0 {
      MulGrows(d, k);
    } else if k < 0 {
      MulGrows(d, -k);
    }
  }

  lemma MulDistributes(x: int, y: int, z: int)
    ensures x * (y - z) == x * y - x * z
  {
  }

  lemma MulGrows(d: nat, k: int)
    requires k >= 1
    ensures d * k >= d
  {
  }

  lemma ZeroExtended(b: seq<bool>, n: nat)
    ensures Value(b + Fill(n, false)) == Value(b)
  {
    ValueConcat(b, Fill(n, false));
    ValueFill(n, false);
  }

  lemma SignExtended(b: seq<bool>, n: nat)
    requires b != [] && b[|b| - 1]
    ensures SignedValue(b + Fill(n, true)) == SignedValue(b)
  {
    hide Value, Pow2;
    var w := b + Fill(n, true);
    assert |w| == |b| + n && w[|w| - 1];
    var p, q := Pow2(|b|), Pow2(n);
    assert Value(w) == Value(b) + p * (q - 1) by {
      ValueConcat(b, Fill(n, true));
      ValueFill(n, true);
    }
    assert Pow2(|w|) == p * q by {
      Pow2Add(|b|, n);
    }
    MulDistributes(p, q, 1);
  }

  /** Widening keeps the number: the unsigned one, or the two's complement one. */
  lemma ExtendKeepsValue(b: seq<bool>, signed: bool)
    requires 0 < |b| <= 64
    ensures !signed ==> Value(Extend(b, signed)) == Value(b)
    ensures signed ==> SignedValue(Extend(b, signed)) == SignedValue(b)
  {
    hide Value, Pow2;
    var n := 64 - |b|;
    if signed && b[|b| - 1] {
      SignExtended(b, n);
    } else {
      ZeroExtended(b, n);
      assert !(b + Fill(n, false))[63] || !signed;
    }
  }

  // ----- Typed loads and stores -----

  predicate IsStorageSize(size: nat) {
    size == 1 || size == 2 || size == 4 || size == 8
  }

  /** The octet, among `size` of them, that holds bit `i` of the typed value. */
  function OctetOfBit(size: nat, order: ByteOrder, i: nat): (k: nat)
    requires i < 8 * size
    ensures k < size
  {
    if order == Little then i / 8 else size - 1 - i / 8
  }

  /** An unsigned typed load, converted to `unsigned long long`. */
  function Load(p: seq<Octet>, order: ByteOrder): Word
    requires |p| <= 8
  {
    seq(64, i requires 0 <= i < 64 =>
      if i < 8 * |p| then p[OctetOfBit(|p|, order, i)][i % 8] else false)
  }

  /** The inverse: the bit of the typed value that bit `b` of octet `k` holds. */
  function BitIndex(size: nat, order: ByteOrder, k: nat, b: nat): (i: nat)
    requires k < size && b < 8
    ensures i < 8 * size && OctetOfBit(size, order, i) == k && i % 8 == b
  {
    8 * (if order == Little then k else size - 1 - k) + b
  }

  lemma LoadedOctetBit(p: seq<Octet>, order: ByteOrder, k: nat, b: nat)
    requires |p| <= 8 && k < |p| && b < 8
    ensures Load(p, order)[BitIndex(|p|, order, k, b)] == p[k][b]
  {
  }

  function OctetAt(v: Word, k: nat): Octet
    requires k < 8
  {
    v[8 * k..8 * k + 8]
  }

  /** The octets a typed store of the low `size` octets of `v` writes. */
  function Store(v: Word, size: nat, order: ByteOrder): (p: seq<Octet>)
    requires size <= 8
    ensures |p| == size
  {
    seq(size, j requires 0 <= j < size => OctetAt(v, if order == Little then j else size - 1 - j))
  }

  lemma LoadOfStore(v: Word, size: nat, order: ByteOrder)
    requires size <= 8
    ensures Load(Store(v, size, order), order) == v[..8 * size] + Zeros(64 - 8 * size)
  {
    hide Load, Store;
    var w := Load(Store(v, size, order), order);
    forall i: nat | i < 64
      ensures w[i] == (v[..8 * size] + Zeros(64 - 8 * size))[i]
    {
      LoadedStoredBit(v, size, order, i);
    }
  }

  lemma LoadedStoredBit(v: Word, size: nat, order: ByteOrder, i: nat)
    requires size <= 8 && i < 64
    ensures Load(Store(v, size, order), order)[i] == (i < 8 * size && v[i])
  {
    if i < 8 * size {
      var k := OctetOfBit(size, order, i);
      assert Store(v, size, order)[k] == OctetAt(v, i / 8);
      assert OctetAt(v, i / 8)[i % 8] == v[8 * (i / 8) + i % 8];
    }
  }

  // ----- Reading -----

  /** The shifts both readers end with: they cut storage bits rshift-lshift to
      64-lshift out of the word and widen them. */
  method ExtractField(word: Word, lshift: nat, rshift: nat, signed: bool) returns (val: Word)
    requires lshift <= rshift <= 63
    ensures val == Extend(word[rshift - lshift..64 - lshift], signed)
  {
    val := ShiftLeft(word, lshift);
    assert val[rshift..] == word[rshift - lshift..64 - lshift];
    if signed {
      val := ShiftRightSigned(val, rshift);
    } else {
      val := ShiftRight(val, rshift);
    }
  }

  /** The value of a field of a storage unit, as the readers promise it. */
  function FieldOf(p: seq<Octet>, lshift: nat, rshift: nat, signed: bool, order: ByteOrder): Word
    requires |p| <= 8
    requires lshift <= rshift <= 63
  {
    Extend(Load(p, order)[rshift - lshift..64 - lshift], signed)
  }

  method ReadBitfield(mem: array<Octet>, off: nat, size: nat, lshift: nat, rshift: nat,
                      signed: bool, order: ByteOrder)
    returns (val: Word)
    requires off + size <= mem.Length
    requires lshift <= rshift <= 63
    ensures IsStorageSize(size) ==> val == FieldOf(mem[off..off + size], lshift, rshift, signed, order)
    ensures !IsStorageSize(size) ==> val == Zeros(64)
  {
    if IsStorageSize(size) {
      val := Load(mem[off..off + size], order);
    } else {
      val := Zeros(64);
    }
    val := ExtractField(val, lshift, rshift, signed);
  }

  /** A probe read of `size` octets into a zeroed u64, at the low-order end of it. */
  lemma ProbeBufferLoads(p: seq<Octet>, order: ByteOrder)
    requires |p| <= 8
    ensures Load(if order == Little then p + ZeroOctets(8 - |p|) else ZeroOctets(8 - |p|) + p, order) == Load(p, order)
  {
  }

  /** `__CORE_BITFIELD_PROBE_READ` into a zeroed u64. */
  method ProbeStorage(mem: array<Octet>, off: nat, size: nat, order: ByteOrder) returns (val: Word)
    requires off + size <= mem.Length && size <= 8
    ensures val == Load(mem[off..off + size], order)
  {
    hide Load;
    var buf := new Octet[8](_ => Zeros(8));
    var at := if order == Little then 0 else 8 - size;
    forall i | 0 <= i < size {
      buf[at + i] := mem[off + i];
    }
    ghost var p := mem[off..off + size];
    ghost var pad := ZeroOctets(8 - size);
    ProbeBufferLoads(p, order);
    assert buf[..] == if order == Little then p + pad else pad + p;
    val := Load(buf[..], order);
  }

  lemma NoFieldOfZeros(lshift: nat, rshift: nat, signed: bool)
    requires lshift <= rshift <= 63
    ensures Extend(Zeros(64)[rshift - lshift..64 - lshift], signed) == Zeros(64)
  {
  }

  /** `mem` is the readable memory: a probe read beyond it faults and leaves the
      zeroed u64 as it was. */
  method ReadBitfieldProbed(mem: array<Octet>, off: nat, size: nat, lshift: nat, rshift: nat,
                            signed: bool, order: ByteOrder)
    returns (val: Word)
    requires size <= 8
    requires lshift <= rshift <= 63
    ensures off + size <= mem.Length ==> val == FieldOf(mem[off..off + size], lshift, rshift, signed, order)
    ensures off + size > mem.Length ==> val == Zeros(64)
  {
    hide Load;
    val := Zeros(64);
    if off + size <= mem.Length {
      val := ProbeStorage(mem, off, size, order);
    } else {
      NoFieldOfZeros(lshift, rshift, signed);
    }
    val := ExtractField(val, lshift, rshift, signed);
  }

  // ----- Writing -----

  function Mask(lshift: nat, rshift: nat): Word
    requires lshift <= rshift <= 63
  {
    ShiftRight(ShiftLeft(ALL_ONES, rshift), lshift)
  }

  function Merge(val: Word, nval: Word, lshift: nat, rshift: nat): Word
    requires lshift <= rshift <= 63
  {
    var mask := Mask(lshift, rshift);
    Or(And(val, Not(mask)), And(ShiftLeft(nval, rshift - lshift), mask))
  }

  lemma MergeBits(val: Word, nval: Word, lshift: nat, rshift: nat)
    requires lshift <= rshift <= 63
    ensures Merge(val, nval, lshift, rshift)
         == val[..rshift - lshift] + nval[..64 - rshift] + val[64 - lshift..]
  {
    var mask := Mask(lshift, rshift);
    forall i | 0 <= i < 64
      ensures mask[i] <==> rshift - lshift <= i < 64 - lshift
    {
    }
  }

  /** What the storage unit holds after a write. */
  function Written(p: seq<Octet>, nval: Word, lshift: nat, rshift: nat, order: ByteOrder): (q: seq<Octet>)
    requires |p| <= 8
    requires lshift <= rshift <= 63
    ensures |q| == |p|
  {
    Store(Merge(Load(p, order), nval, lshift, rshift), |p|, order)
  }

  /** The word a write leaves: the field replaced by the low bits of the new
      value, every other storage bit kept. */
  lemma WrittenBits(p: seq<Octet>, nval: Word, lshift: nat, rshift: nat, order: ByteOrder)
    requires |p| <= 8
    requires lshift <= rshift <= 63 && 64 - lshift <= 8 * |p|
    ensures
      var w := Load(p, order);
      Load(Written(p, nval, lshift, rshift, order), order)
      == w[..rshift - lshift] + nval[..64 - rshift] + w[64 - lshift..]
  {
    var w := Load(p, order);
    MergeBits(w, nval, lshift, rshift);
    LoadOfStore(Merge(w, nval, lshift, rshift), |p|, order);
  }

  lemma UnownedBitKept(p: seq<Octet>, nval: Word, lshift: nat, rshift: nat, order: ByteOrder, i: nat)
    requires |p| <= 8 && i < 8 * |p|
    requires lshift <= rshift <= 63 && 64 - lshift <= 8 * |p|
    requires !(rshift <= i + lshift < 64)
    ensures Load(Written(p, nval, lshift, rshift, order), order)[i] == Load(p, order)[i]
  {
    hide Written, Load;
    WrittenBits(p, nval, lshift, rshift, order);
  }

  /** The inverse law: a read after a write returns the new value modulo two to
      the field's width, as an unsigned or as a two's complement number. */
  lemma ReadAfterWrite(p: seq<Octet>, nval: Word, lshift: nat, rshift: nat, signed: bool, order: ByteOrder)
    requires IsStorageSize(|p|)
    requires lshift <= rshift <= 63 && 64 - lshift <= 8 * |p|
    ensures
      var r := FieldOf(Written(p, nval, lshift, rshift, order), lshift, rshift, signed, order);
      var low := Value(nval) % Pow2(64 - rshift);
      && (!signed ==> Value(r) == low)
      && (signed ==> SignedValue(r) == low - if nval[63 - rshift] then Pow2(64 - rshift) else 0)
  {
    var low := nval[..64 - rshift];
    WrittenBits(p, nval, lshift, rshift, order);
    assert Load(Written(p, nval, lshift, rshift, order), order)[rshift - lshift..64 - lshift] == low;
    ExtendKeepsValue(low, signed);
    LowBitsAreModulo(nval, 64 - rshift);
  }

  // ----- Fields in any storage units of one memory -----

  /** A field of the memory: its storage unit and its shifts. */
  datatype Field = Field(off: nat, size: nat, lshift: nat, rshift: nat) {
    predicate In(n: nat) {
      off + size <= n && IsStorageSize(size) && lshift <= rshift <= 63 && 64 - lshift <= 8 * size
    }

    /** The memory bit (octet index, bit index) that holds storage bit `i`. */
    function Place(i: nat, order: ByteOrder): (nat, nat)
      requires i < 8 * size
    {
      (off + OctetOfBit(size, order, i), i % 8)
    }

    /** Storage bit `i` is one of the field's own. */
    predicate Owns(i: nat) {
      rshift <= i + lshift < 64
    }
  }

  /** No memory bit belongs to both fields. */
  ghost predicate Disjoint(f: Field, g: Field, order: ByteOrder) {
    forall i: nat, j: nat | i < 8 * f.size && j < 8 * g.size && f.Owns(i) && g.Owns(j) ::
      f.Place(i, order) != g.Place(j, order)
  }

  /** The whole memory after a write to a field. */
  function MemoryAfter(m: seq<Octet>, f: Field, nval: Word, order: ByteOrder): (m': seq<Octet>)
    requires f.In(|m|)
    ensures |m'| == |m|
  {
    m[..f.off] + Written(m[f.off..f.off + f.size], nval, f.lshift, f.rshift, order) + m[f.off + f.size..]
  }

  method WriteBitfield(mem: array<Octet>, f: Field, nval: Word, order: ByteOrder)
    requires f.In(mem.Length)
    modifies mem
    ensures mem[..] == MemoryAfter(old(mem[..]), f, nval, order)
  {
    hide Load, Store, And, Or, Not, ShiftLeft, ShiftRight;
    var lshift, rshift := f.lshift, f.rshift;
    var rpad := rshift - lshift;
    var val := Load(mem[f.off..f.off + f.size], order);
    var mask := ShiftRight(ShiftLeft(ALL_ONES, rshift), lshift);
    val := Or(And(val, Not(mask)), And(ShiftLeft(nval, rpad), mask));
    var octets := Store(val, f.size, order);
    forall j | 0 <= j < f.size {
      mem[f.off + j] := octets[j];
    }
  }

  lemma MemoryAfterOctet(m: seq<Octet>, f: Field, nval: Word, order: ByteOrder, k: nat)
    requires f.In(|m|) && k < |m|
    ensures MemoryAfter(m, f, nval, order)[k] ==
      if f.off <= k < f.off + f.size
      then Written(m[f.off..f.off + f.size], nval, f.lshift, f.rshift, order)[k - f.off]
      else m[k]
  {
    hide Written;
  }

  /** A write changes no memory bit outside the field, in whatever octet it lies. */
  lemma WriteKeepsOtherBits(m: seq<Octet>, f: Field, nval: Word, order: ByteOrder, k: nat, b: nat)
    requires f.In(|m|)
    requires k < |m| && b < 8
    requires forall i: nat | i < 8 * f.size && f.Owns(i) :: f.Place(i, order) != (k, b)
    ensures MemoryAfter(m, f, nval, order)[k][b] == m[k][b]
  {
    hide Written, Load, MemoryAfter;
    MemoryAfterOctet(m, f, nval, order, k);
    if f.off <= k < f.off + f.size {
      var p := m[f.off..f.off + f.size];
      var q := Written(p, nval, f.lshift, f.rshift, order);
      var i := BitIndex(f.size, order, k - f.off, b);
      assert f.Place(i, order) == (k, b);
      UnownedBitKept(p, nval, f.lshift, f.rshift, order, i);
      LoadedOctetBit(p, order, k - f.off, b);
      LoadedOctetBit(q, order, k - f.off, b);
    }
  }

  lemma LoadedBit(m: seq<Octet>, g: Field, order: ByteOrder, j: nat)
    requires g.In(|m|) && j < 8 * g.size
    ensures
      var (k, b) := g.Place(j, order);
      k < |m| && b < 8 && Load(m[g.off..g.off + g.size], order)[j] == m[k][b]
  {
    var p, k := m[g.off..g.off + g.size], OctetOfBit(g.size, order, j);
    assert Load(p, order)[j] == p[k][j % 8];
    assert p[k] == m[g.off + k];
  }

  /** The frame law: a field that shares no bit with the written one reads the
      same before and after, even when their storage units overlap. */
  lemma DisjointFieldUnchanged(m: seq<Octet>, f: Field, g: Field, nval: Word, signed: bool, order: ByteOrder)
    requires f.In(|m|) && g.In(|m|)
    requires Disjoint(f, g, order)
    ensures
      var m' := MemoryAfter(m, f, nval, order);
      FieldOf(m'[g.off..g.off + g.size], g.lshift, g.rshift, signed, order)
      == FieldOf(m[g.off..g.off + g.size], g.lshift, g.rshift, signed, order)
  {
    hide MemoryAfter, Load;
    var m' := MemoryAfter(m, f, nval, order);
    var before, after := Load(m[g.off..g.off + g.size], order), Load(m'[g.off..g.off + g.size], order);
    var lo, hi := g.rshift - g.lshift, 64 - g.lshift;
    forall j | lo <= j < hi
      ensures after[j] == before[j]
    {
      assert g.Owns(j);
      var (k, b) := g.Place(j, order);
      LoadedBit(m, g, order, j);
      LoadedBit(m', g, order, j);
      WriteKeepsOtherBits(m, f, nval, order, k, b);
    }
    assert after[lo..hi] == before[lo..hi];
  }
}

/** The BPF_CORE_READ family of bpf_core_read.h: a recursive macro expansion that
turns an accessor list into a sequence of probe reads through one temporary.

An accessor is the byte offset it relocates to (`css.cgroup` is one accessor).
*/
module BpfCoreRead {
  import opened Bytes
  import opened KernelMemory

  // ----- What the macros expand to -----

  datatype Destination = ToTemp | ToResult
  datatype Base = Source | Temp

  /** One `___read(fn, dst, type, src, accessor)`. */
  datatype Read = Read(dst: Destination, base: Base, accessor: nat)

  function Last(args: seq<nat>): nat
    requires args != []
  {
    args[|args| - 1]
  }

  function NoLast(args: seq<nat>): seq<nat>
    requires args != []
  {
    args[..|args| - 1]
  }

  /** `___rd_pN`: every accessor into the temporary, the last one outermost. */
  function ReadPointers(accessors: seq<nat>): seq<Read>
    requires accessors != []
    decreases |accessors|
  {
    if |accessors| == 1 then
      [Read(ToTemp, Source, accessors[0])]
    else
      ReadPointers(NoLast(accessors)) + [Read(ToTemp, Temp, Last(accessors))]
  }

  /** `___core_read`: `___core_read0` for one accessor, `___core_readN` for more. */
  function Expansion(accessors: seq<nat>): seq<Read>
    requires accessors != []
  {
    if |accessors| == 1 then
      [Read(ToResult, Source, accessors[0])]
    else
      ReadPointers(NoLast(accessors)) + [Read(ToResult, Temp, Last(accessors))]
  }

  // ----- What the expansion does -----

  /** The locals `__t` and `__r`. */
  datatype Locals = Locals(temp: Address, result: nat)

  function Perform(h: Heap, src: Address, size: nat, r: Read, s: Locals): Locals {
    var from := Plus(if r.base == Source then src else s.temp, r.accessor);
    if r.dst == ToTemp then s.(temp := ReadPointer(h, from))
    else s.(result := ReadUint(h, from, size))
  }

  function Execute(h: Heap, src: Address, size: nat, code: seq<Read>, s: Locals): Locals
    decreases |code|
  {
    if code == [] then s
    else Execute(h, src, size, code[1..], Perform(h, src, size, code[0], s))
  }

  /** BPF_CORE_READ(src, accessors...) of a field of `size` bytes. */
  function CoreRead(h: Heap, src: Address, accessors: seq<nat>, size: nat): (v: nat)
    requires accessors != []
    ensures v < Pow256(size)
  {
    ExpansionValue(h, src, accessors, size, Locals(0, 0));
    Execute(h, src, size, Expansion(accessors), Locals(0, 0)).result
  }

  // ----- What it is meant to be: src->a->b->...->z -----

  /** The chained dereference, left to right; nothing when it would fault or
      would dereference a null pointer on the way. */
  function Dereference(h: Heap, p: Address, accessors: seq<nat>, size: nat): (v: Option<nat>)
    requires accessors != []
    ensures v.Some? ==> v.value < Pow256(size)
    decreases |accessors|
  {
    var from := Plus(p, accessors[0]);
    if |accessors| == 1 then
      if Mapped(h, from, size) then Some(ReadUint(h, from, size)) else None
    else
      var q := ReadPointer(h, from);
      if !Mapped(h, from, 8) || q == 0 then None else Dereference(h, q, accessors[1..], size)
  }

  predicate SmallOffsets(accessors: seq<nat>) {
    forall i | 0 <= i < |accessors| :: accessors[i] < NULL_GUARD
  }

  // ----- The proof -----

  /** Pointers followed left to right, nulls and all. */
  function Follow(h: Heap, p: Address, accessors: seq<nat>): Address
    decreases |accessors|
  {
    if accessors == [] then p
    else Follow(h, ReadPointer(h, Plus(p, accessors[0])), accessors[1..])
  }

  lemma {:induction false} FollowOneMore(h: Heap, p: Address, accessors: seq<nat>, a: nat)
    ensures Follow(h, p, accessors + [a]) == ReadPointer(h, Plus(Follow(h, p, accessors), a))
    decreases |accessors|
  {
    if accessors != [] {
      FollowOneMore(h, ReadPointer(h, Plus(p, accessors[0])), accessors[1..], a);
      assert (accessors + [a])[1..] == accessors[1..] + [a];
    }
  }

  lemma {:induction false} ExecuteConcat(h: Heap, src: Address, size: nat, x: seq<Read>, y: seq<Read>, s: Locals)
    ensures Execute(h, src, size, x + y, s) == Execute(h, src, size, y, Execute(h, src, size, x, s))
    decreases |x|
  {
    if x == [] {
      assert x + y == y;
    } else {
      ExecuteConcat(h, src, size, x[1..], y, Perform(h, src, size, x[0], s));
      assert (x + y)[1..] == x[1..] + y;
    }
  }

  lemma {:induction false} PointersFollow(h: Heap, src: Address, size: nat, accessors: seq<nat>, s: Locals)
    requires accessors != []
    ensures Execute(h, src, size, ReadPointers(accessors), s).temp == Follow(h, src, accessors)
    decreases |accessors|
  {
    if |accessors| == 1 {
      assert accessors[1..] == [];
    } else {
      var init, a := NoLast(accessors), Last(accessors);
      PointersFollow(h, src, size, init, s);
      ExecuteConcat(h, src, size, ReadPointers(init), [Read(ToTemp, Temp, a)], s);
      FollowOneMore(h, src, init, a);
      assert accessors == init + [a];
    }
  }

  /** The expansion's value, whatever its uninitialised locals held. */
  lemma ExpansionValue(h: Heap, src: Address, accessors: seq<nat>, size: nat, garbage: Locals)
    requires accessors != []
    ensures Execute(h, src, size, Expansion(accessors), garbage).result
         == ReadUint(h, Plus(Follow(h, src, NoLast(accessors)), Last(accessors)), size)
  {
    if |accessors| > 1 {
      var init, a := NoLast(accessors), Last(accessors);
      PointersFollow(h, src, size, init, garbage);
      ExecuteConcat(h, src, size, ReadPointers(init), [Read(ToResult, Temp, a)], garbage);
    }
  }

  lemma {:induction false} FollowFromNull(h: Heap, accessors: seq<nat>)
    requires LowMemoryUnmapped(h) && SmallOffsets(accessors)
    ensures Follow(h, 0, accessors) == 0
    decreases |accessors|
  {
    if accessors != [] {
      NullReadsZero(h, accessors[0], 8);
      FollowFromNull(h, accessors[1..]);
    }
  }

  lemma {:induction false} FollowIsDereference(h: Heap, p: Address, accessors: seq<nat>, size: nat)
    requires accessors != [] && size > 0
    requires LowMemoryUnmapped(h) && SmallOffsets(accessors)
    ensures ReadUint(h, Plus(Follow(h, p, NoLast(accessors)), Last(accessors)), size)
         == Dereference(h, p, accessors, size).GetOr(0)
    decreases |accessors|
  {
    if |accessors| > 1 {
      var q := ReadPointer(h, Plus(p, accessors[0]));
      assert NoLast(accessors)[1..] == NoLast(accessors[1..]);
      if q == 0 {
        FollowFromNull(h, NoLast(accessors[1..]));
        NullReadsZero(h, Last(accessors), size);
      } else {
        FollowIsDereference(h, q, accessors[1..], size);
      }
    }
  }

  /** The macro means the chained dereference, and zero when that is undefined:
      a fault or a null pointer anywhere on the way. */
  lemma CoreReadMeansDereference(h: Heap, src: Address, accessors: seq<nat>, size: nat, garbage: Locals)
    requires accessors != [] && size > 0
    requires LowMemoryUnmapped(h) && SmallOffsets(accessors)
    ensures Execute(h, src, size, Expansion(accessors), garbage).result
         == Dereference(h, src, accessors, size).GetOr(0)
    ensures CoreRead(h, src, accessors, size) == Dereference(h, src, accessors, size).GetOr(0)
  {
    ExpansionValue(h, src, accessors, size, garbage);
    ExpansionValue(h, src, accessors, size, Locals(0, 0));
    FollowIsDereference(h, src, accessors, size);
  }

  /** A chain may be cut anywhere: read the pointer so far, test it, go on. */
  lemma {:induction false} DereferenceConcat(h: Heap, p: Address, xs: seq<nat>, ys: seq<nat>, size: nat)
    requires xs != [] && ys != []
    ensures
      var q := PointerOrNull(h, p, xs);
      Dereference(h, p, xs + ys, size).GetOr(0) == if q == 0 then 0 else Dereference(h, q, ys, size).GetOr(0)
    decreases |xs|
  {
    assert (xs + ys)[1..] == xs[1..] + ys;
    var q := ReadPointer(h, Plus(p, xs[0]));
    if |xs| == 1 {
      assert xs[1..] + ys == ys;
    } else if q != 0 {
      DereferenceConcat(h, q, xs[1..], ys, size);
    }
  }

  /** A chained pointer dereference, null when undefined. */
  function PointerOrNull(h: Heap, p: Address, accessors: seq<nat>): Address
    requires accessors != []
  {
    Widths();
    Dereference(h, p, accessors, 8).GetOr(0)
  }
}

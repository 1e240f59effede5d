/** Small kernel memories: one object that stands for every kernel struct the probe
looks at, and one name. They show that premises elsewhere can be met and that the
odd cases of the probe are real.
*/
module SmallKernel {
  import opened Bytes
  import opened KernelMemory
  import opened BpfCoreRead
  import opened OomKillProbe

  const OBJECT: Address := 0x10_0000
  const NAME: Address := 0x20_0000

  predicate Occupied(a: Address, words: nat, n: nat) {
    OBJECT <= a < OBJECT + 8 * words || NAME <= a <= NAME + n
  }

  /** The words at OBJECT and the name, with its NUL, at NAME. */
  function SmallHeap(words: seq<Address>, name: seq<Byte>): Heap
    requires |words| <= 8
  {
    map a: Address | Occupied(a, |words|, |name|) ::
      if a < NAME then ToLittleEndian(words[(a - OBJECT) / 8], 8)[(a - OBJECT) % 8]
      else if a - NAME < |name| then name[a - NAME]
      else 0
  }

  lemma WordByte(words: seq<Address>, name: seq<Byte>, j: nat, i: nat)
    requires j < |words| <= 8 && i < 8
    ensures
      var a := Plus(Plus(OBJECT, 8 * j), i);
      a in SmallHeap(words, name) && SmallHeap(words, name)[a] == ToLittleEndian(words[j], 8)[i]
  {
    hide ToLittleEndian;
    assert Plus(Plus(OBJECT, 8 * j), i) == OBJECT + 8 * j + i;
    assert (8 * j + i) / 8 == j && (8 * j + i) % 8 == i;
  }

  lemma WordAt(words: seq<Address>, name: seq<Byte>, j: nat)
    requires j < |words| <= 8
    ensures PointerOrNull(SmallHeap(words, name), OBJECT, [8 * j]) == words[j]
  {
    hide SmallHeap, ToLittleEndian;
    var h, from := SmallHeap(words, name), Plus(OBJECT, 8 * j);
    forall i: nat | i < 8
      ensures Plus(from, i) in h && h[Plus(from, i)] == ToLittleEndian(words[j], 8)[i]
    {
      WordByte(words, name, j, i);
    }
    assert seq(8, i requires 0 <= i < 8 => h[Plus(from, i)]) == ToLittleEndian(words[j], 8);
    Widths();
    LittleEndianRoundTrip(words[j], 8);
  }

  lemma {:induction false} NameAtIndex(words: seq<Address>, name: seq<Byte>, i: nat)
    requires |words| <= 8 && |name| <= 127
    requires i <= |name| && forall j | 0 <= j < |name| :: name[j] != 0
    ensures NAME + i < ADDRESS_SPACE && IsCString(SmallHeap(words, name), NAME + i, name[i..])
    decreases |name| - i
  {
    hide ToLittleEndian;
    if i < |name| {
      NameAtIndex(words, name, i + 1);
      assert Plus(NAME + i, 1) == NAME + i + 1;
      assert name[i..][1..] == name[i + 1..];
    }
  }

  /** Word 0 of the object points to itself, so any number of hops over it stays. */
  lemma SelfHop(h: Heap, xs: seq<nat>)
    requires xs != [] && PointerOrNull(h, OBJECT, [0]) == OBJECT
    requires PointerOrNull(h, OBJECT, xs) == OBJECT
    ensures PointerOrNull(h, OBJECT, xs + [0]) == OBJECT
  {
    hide Dereference;
    DereferenceConcat(h, OBJECT, xs, [0], 8);
  }

  lemma SelfHops(h: Heap)
    requires PointerOrNull(h, OBJECT, [0]) == OBJECT
    ensures PointerOrNull(h, OBJECT, [0, 0, 0]) == OBJECT
    ensures PointerOrNull(h, OBJECT, [0, 0, 0, 0]) == OBJECT
  {
    hide PointerOrNull;
    SelfHop(h, [0]);
    assert [0] + [0] == [0, 0];
    SelfHop(h, [0, 0]);
    assert [0, 0] + [0] == [0, 0, 0];
    SelfHop(h, [0, 0, 0]);
    assert [0, 0, 0] + [0] == [0, 0, 0, 0];
  }

  ghost predicate IsSolidName(name: seq<Byte>) {
    |name| <= 127 && forall i | 0 <= i < |name| :: name[i] != 0
  }

  // ----- A global kill with a named victim -----

  /** chosen, cgroups, dfl_cgrp and kn are word 0, the name is word 1, the null pointer
      word 2 is memcg and parent. */
  function NamedKill(name: seq<Byte>): Kill {
    Kill(SmallHeap([OBJECT, NAME, 0], name), Layout(16, 0, 16, 16, 16, 0, 0, 0, 16, 8, 16), OBJECT, 0, ZeroBytes(16))
  }

  lemma NamedKillIsNamed(name: seq<Byte>)
    requires IsSolidName(name)
    ensures
      var k := NamedKill(name);
      var f := k.fields;
      && k.Valid()
      && PointerOrNull(k.heap, k.oc, [f.ocChosen, f.taskCgroups, f.cssSetDflCgrp, f.cgroupKn]) == OBJECT
      && PointerOrNull(k.heap, k.oc, [f.ocMemcg]) == 0
      && PointerOrNull(k.heap, OBJECT, [f.knName]) == NAME && IsCString(k.heap, NAME, name)
  {
    hide PointerOrNull, IsCString, ToLittleEndian;
    var words := [OBJECT, NAME, 0];
    WordAt(words, name, 0);
    WordAt(words, name, 1);
    WordAt(words, name, 2);
    NameAtIndex(words, name, 0);
    assert name[0..] == name;
    SelfHops(NamedKill(name).heap);
  }

  // ----- An aborted kill whose memory cgroup has a name -----

  /** As above, but chosen is word 3, which is -1, and memcg and css.cgroup are word 0. */
  function AbortedKill(name: seq<Byte>): Kill {
    Kill(SmallHeap([OBJECT, NAME, 0, MINUS_ONE], name), Layout(16, 24, 0, 16, 16, 0, 0, 0, 0, 8, 16), OBJECT, 0,
         ZeroBytes(16))
  }

  /** The memory cgroup's node has the given name, yet no candidate shows it. */
  lemma AbortedKillLosesItsName(name: seq<Byte>)
    requires IsSolidName(name)
    ensures
      var k := AbortedKill(name);
      var f := k.fields;
      && k.Valid() && Victim(k) == MINUS_ONE
      && PointerOrNull(k.heap, k.oc, [f.ocMemcg, f.memcgCssCgroup, f.cgroupKn]) == OBJECT
      && PointerOrNull(k.heap, OBJECT, [f.knName]) == NAME && IsCString(k.heap, NAME, name)
      && Candidates(k) == ["", "", "", ""]
  {
    hide PointerOrNull, IsCString, ToLittleEndian, Candidates, Pointer;
    var k := AbortedKill(name);
    var words := [OBJECT, NAME, 0, MINUS_ONE];
    WordAt(words, name, 0);
    WordAt(words, name, 1);
    WordAt(words, name, 3);
    NameAtIndex(words, name, 0);
    assert name[0..] == name;
    SelfHops(k.heap);
    PointerMeans(k.heap, k.oc, [k.fields.ocChosen]);
    forall i: nat | i < 4
      ensures Candidates(k)[i] == ""
    {
      AbortedKillHasNoNames(k, i);
    }
  }

  // ----- A kill whose memcg field cannot be read -----

  /** As the first one, but the memcg field lies behind the object. */
  function UnreadableKill(name: seq<Byte>): Kill {
    NamedKill(name).(fields := NamedKill(name).fields.(ocMemcg := 24))
  }

  /** It counts as global although no null pointer was read. */
  lemma UnreadableMemcgCountsAsGlobal(name: seq<Byte>)
    requires IsSolidName(name)
    ensures
      var k := UnreadableKill(name);
      && k.Valid() && Record(k).globalOom
      && Dereference(k.heap, k.oc, [k.fields.ocMemcg], 8) == None
  {
    hide Record, ToLittleEndian;
    var k := UnreadableKill(name);
    NamedKillIsNamed(name);
    assert Plus(Plus(OBJECT, 24), 0) == OBJECT + 24;
    assert Plus(Plus(OBJECT, 24), 0) !in k.heap;
    GlobalFlagMeans(k);
  }
}

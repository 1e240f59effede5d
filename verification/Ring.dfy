/** The BPF ring buffer between the probe and the agent: a bounded FIFO of records
that are reserved first, filled, and submitted later, possibly out of order when
several CPUs are in the probe at once. A record still being filled holds up the
ones behind it. Kills are numbered by tickets in the order the probe fires.
*/
module Ring {
  import opened Bytes

  /** A reserved record; its data once submitted. */
  datatype Slot = Slot(ticket: nat, data: Option<seq<Byte>>)

  datatype RingState = RingState(
    capacity: nat,
    fired: nat,
    dropped: seq<nat>,
    slots: seq<Slot>,
    consumed: seq<nat>)

  function Empty(capacity: nat): RingState {
    RingState(capacity, 0, [], [], [])
  }

  function Reserve(r: RingState): RingState {
    if |r.slots| < r.capacity then
      r.(fired := r.fired + 1, slots := r.slots + [Slot(r.fired, None)])
    else
      r.(fired := r.fired + 1, dropped := r.dropped + [r.fired])
  }

  function FillSlot(s: Slot, ticket: nat, data: seq<Byte>): Slot {
    if s.ticket == ticket && s.data.None? then s.(data := Some(data)) else s
  }

  function Submit(r: RingState, ticket: nat, data: seq<Byte>): RingState {
    r.(slots := seq(|r.slots|, i requires 0 <= i < |r.slots| => FillSlot(r.slots[i], ticket, data)))
  }

  predicate Readable(r: RingState) {
    r.slots != [] && r.slots[0].data.Some?
  }

  function Consume(r: RingState): RingState
    requires Readable(r)
  {
    r.(slots := r.slots[1..], consumed := r.consumed + [r.slots[0].ticket])
  }

  // ----- Conservation -----

  predicate Increasing(s: seq<nat>) {
    forall i, j | 0 <= i < j < |s| :: s[i] < s[j]
  }

  /** The tickets of all records that were not dropped, oldest first. */
  function Kept(r: RingState): seq<nat> {
    r.consumed + seq(|r.slots|, i requires 0 <= i < |r.slots| => r.slots[i].ticket)
  }

  /** Every kill is in exactly one place, and records leave in the order of the
      kills, each at most once. */
  ghost predicate Accounted(r: RingState) {
    && r.fired == |r.dropped| + |r.slots| + |r.consumed|
    && |r.slots| <= r.capacity
    && Increasing(r.dropped)
    && Increasing(Kept(r))
    && (forall t | t in r.dropped :: t < r.fired && t !in Kept(r))
    && (forall t | t in Kept(r) :: t < r.fired)
    && (forall t: nat | t < r.fired :: t in r.dropped || t in Kept(r))
  }

  /** A submission fills the unfilled record with its ticket, wherever it stands, and
      touches no other one. */
  lemma SubmitFillsItsRecord(r: RingState, ticket: nat, data: seq<Byte>, i: nat)
    requires i < |r.slots|
    ensures
      var after := Submit(r, ticket, data);
      && |after.slots| == |r.slots| && after.consumed == r.consumed && after.dropped == r.dropped
      && after.slots[i] == if r.slots[i] == Slot(ticket, None) then Slot(ticket, Some(data)) else r.slots[i]
  {
  }

  lemma EmptyIsAccounted(capacity: nat)
    ensures Accounted(Empty(capacity))
  {
    assert Kept(Empty(capacity)) == [];
  }

  lemma AppendKeepsIncreasing(s: seq<nat>, t: nat)
    requires Increasing(s) && forall x | x in s :: x < t
    ensures Increasing(s + [t])
    ensures forall x: nat :: x in s + [t] <==> x in s || x == t
  {
    assert forall i | 0 <= i < |s| :: s[i] in s;
  }

  lemma ReserveAccounts(r: RingState)
    requires Accounted(r)
    ensures Accounted(Reserve(r))
  {
    if |r.slots| < r.capacity {
      assert Kept(Reserve(r)) == Kept(r) + [r.fired];
      AppendKeepsIncreasing(Kept(r), r.fired);
    } else {
      assert Kept(Reserve(r)) == Kept(r);
      AppendKeepsIncreasing(r.dropped, r.fired);
    }
  }

  lemma SubmitAccounts(r: RingState, ticket: nat, data: seq<Byte>)
    requires Accounted(r)
    ensures Accounted(Submit(r, ticket, data))
  {
    assert Kept(Submit(r, ticket, data)) == Kept(r);
  }

  lemma ConsumeAccounts(r: RingState)
    requires Accounted(r) && Readable(r)
    ensures Accounted(Consume(r))
  {
    assert Kept(Consume(r)) == Kept(r);
  }

  /** The ring itself. */
  class RingBuffer {
    const capacity: nat
    var fired: nat
    var dropped: seq<nat>
    var slots: seq<Slot>
    var consumed: seq<nat>

    ghost function State(): RingState
      reads this
    {
      RingState(capacity, fired, dropped, slots, consumed)
    }

    constructor (capacity: nat)
      ensures State() == Empty(capacity)
    {
      this.capacity := capacity;
      fired, dropped, slots, consumed := 0, [], [], [];
    }

    /** bpf_ringbuf_reserve: nothing when the ring is full. */
    method TryReserve() returns (ticket: Option<nat>)
      modifies this
      ensures State() == Reserve(old(State()))
      ensures ticket == if old(|slots| < capacity) then Some(old(fired)) else None
    {
      if |slots| < capacity {
        ticket := Some(fired);
        slots := slots + [Slot(fired, None)];
      } else {
        ticket := None;
        dropped := dropped + [fired];
      }
      fired := fired + 1;
    }

    /** bpf_ringbuf_submit. */
    method Commit(ticket: nat, data: seq<Byte>)
      modifies this
      ensures State() == Submit(old(State()), ticket, data)
    {
      slots := seq(|slots|, i requires 0 <= i < |slots| reads this => FillSlot(slots[i], ticket, data));
    }

    /** The reader's side: the oldest record, once it is submitted. */
    method TryConsume() returns (record: Option<seq<Byte>>)
      modifies this
      ensures record.Some? <==> Readable(old(State()))
      ensures record.Some? ==> record == old(slots)[0].data && State() == Consume(old(State()))
      ensures record.None? ==> State() == old(State())
    {
      if slots == [] {
        return None;
      }
      record := slots[0].data;
      if record.Some? {
        consumed := consumed + [slots[0].ticket];
        slots := slots[1..];
      }
    }
  }
}

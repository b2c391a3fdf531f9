/** The pinned slot arena: a first-fit allocator whose slots never move. */
module Arenas {
  import opened Basics

  /** One allocation: bytes arenaOffset .. arenaOffset + size belong to group groupId. */
  datatype Slot = Slot(groupId: nat, slotOffset: nat, arenaOffset: nat, size: nat, userSize: nat)

  /** used is the sum of the sizes of the live slots; limit is the end of the space they
      share with raw allocations, which grow down from the top; hint is where the next
      lookup starts. */
  datatype Arena = Arena(slots: seq<Slot>, used: nat, limit: nat, maxSlots: nat, hint: nat)

  function AlignUp(size: nat): (r: nat)
    ensures r % 8 == 0 && size <= r < size + 8
  {
    (size + 7) / 8 * 8
  }

  function AlignLine(size: nat): (r: nat)
    ensures r % 64 == 0 && size <= r < size + 64
  {
    (size + 63) / 64 * 64
  }

  function End(s: Slot): nat {
    s.arenaOffset + s.size
  }

  // ------------------------------------------------------------------ allocation

  /** Where a slot goes: its offset, and its index among the slots. */
  datatype Place = Place(offset: nat, index: nat)

  /** First fit: the lowest place at or after slot i that has room for size bytes. */
  function Scan(slots: seq<Slot>, i: nat, offset: nat, size: nat): (p: Place)
    requires i <= |slots|
    ensures i <= p.index <= |slots|
    decreases |slots| - i
  {
    if i == |slots| || offset + size <= slots[i].arenaOffset then Place(offset, i)
    else Scan(slots, i + 1, End(slots[i]), size)
  }

  /** The append fast path: the last slot ends where packed slots would end. */
  predicate Packed(a: Arena) {
    |a.slots| > 0 && End(a.slots[|a.slots| - 1]) == a.used
  }

  function Choose(a: Arena, size: nat): (p: Place)
    ensures p.index <= |a.slots|
  {
    if Packed(a) then Place(a.used, |a.slots|) else Scan(a.slots, 0, 0, size)
  }

  /** The slot that a request gets; None when the slot table or the arena is full. */
  function Grant(a: Arena, id: nat, slotOffset: nat, userSize: nat): Option<(Slot, nat)> {
    var size := AlignUp(userSize);
    var p := Choose(a, size);
    if |a.slots| >= a.maxSlots || p.offset + size > a.limit then None
    else Some((Slot(id, slotOffset, p.offset, size, userSize), p.index))
  }

  /** The arena after a granted request, and the offset of the new slot. */
  function Allocate(a: Arena, id: nat, slotOffset: nat, userSize: nat): Option<(Arena, nat)> {
    match Grant(a, id, slotOffset, userSize)
    case None => None
    case Some((s, i)) =>
      assert i <= |a.slots|;
      Some((a.(slots := InsertedAt(a.slots, i, s), used := a.used + s.size), s.arenaOffset))
  }

  // ------------------------------------------------------------------ release

  function Owned(slots: seq<Slot>, id: nat): seq<Slot> {
    if slots == [] then []
    else if slots[0].groupId == id then [slots[0]] + Owned(slots[1..], id)
    else Owned(slots[1..], id)
  }

  function Others(slots: seq<Slot>, id: nat): seq<Slot> {
    if slots == [] then []
    else if slots[0].groupId == id then Others(slots[1..], id)
    else [slots[0]] + Others(slots[1..], id)
  }

  function Total(slots: seq<Slot>): nat {
    if slots == [] then 0 else slots[0].size + Total(slots[1..])
  }

  /** Returns every slot of a group to the arena. */
  function Release(a: Arena, id: nat): Arena {
    var freed := Total(Owned(a.slots, id));
    a.(slots := Others(a.slots, id), used := if freed <= a.used then a.used - freed else 0)
  }

  // ------------------------------------------------------------------ lookup

  predicate Holds(s: Slot, id: nat, slotOffset: nat) {
    s.groupId == id && s.slotOffset == slotOffset
  }

  /** The i-th slot of a circular walk over n slots from start. */
  function Around(start: nat, i: nat, n: nat): (r: nat)
    requires start < n && i < n
    ensures r < n
  {
    if start + i >= n then start + i - n else start + i
  }

  /** Circular search, from step i on, for the slot that group id requested at slotOffset. */
  function Seek(slots: seq<Slot>, start: nat, id: nat, slotOffset: nat, i: nat): (r: Option<nat>)
    requires i <= |slots| && (slots != [] ==> start < |slots|)
    ensures r.Some? ==> r.value < |slots| && Holds(slots[r.value], id, slotOffset)
    decreases |slots| - i
  {
    if i == |slots| then None
    else if Holds(slots[Around(start, i, |slots|)], id, slotOffset) then Some(Around(start, i, |slots|))
    else Seek(slots, start, id, slotOffset, i + 1)
  }

  function Start(a: Arena): (r: nat)
    ensures a.slots != [] ==> r < |a.slots|
  {
    if a.hint >= |a.slots| then 0 else a.hint
  }

  function Lookup(a: Arena, id: nat, slotOffset: nat): (r: Option<nat>)
    ensures r.Some? ==> r.value < |a.slots| && Holds(a.slots[r.value], id, slotOffset)
  {
    Seek(a.slots, Start(a), id, slotOffset, 0)
  }

  /** A raw allocation takes cache lines from the top of the arena. */
  function Carve(a: Arena, size: nat): Option<(Arena, nat)> {
    var aligned := AlignLine(size);
    if size == 0 || a.used + aligned > a.limit then None
    else Some((a.(limit := a.limit - aligned), a.limit - aligned))
  }
}

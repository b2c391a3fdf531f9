/** What first fit guarantees. */
module ArenaFacts {
  import opened Basics
  import opened Arenas

  /** slots lie one after the other from offset lo on, 8-aligned and without overlap. */
  predicate Placed(slots: seq<Slot>, lo: nat) {
    slots != [] ==>
      && lo <= slots[0].arenaOffset && slots[0].arenaOffset % 8 == 0
      && 0 < slots[0].size && slots[0].size % 8 == 0
      && Placed(slots[1..], End(slots[0]))
  }

  /** Where the last slot ends. */
  function Top(slots: seq<Slot>, lo: nat): nat {
    if slots == [] then lo else Top(slots[1..], End(slots[0]))
  }

  predicate WellPlaced(a: Arena) {
    Placed(a.slots, 0) && Top(a.slots, 0) <= a.limit && a.used == Total(a.slots)
  }

  /** Bytes o .. o + size meet no slot. */
  predicate Free(slots: seq<Slot>, o: nat, size: nat) {
    forall i :: 0 <= i < |slots| ==> o + size <= slots[i].arenaOffset || End(slots[i]) <= o
  }

  lemma {:induction false} PlacedAbove(slots: seq<Slot>, lo: nat, i: nat)
    requires Placed(slots, lo) && i < |slots|
    ensures lo <= slots[i].arenaOffset < End(slots[i]) <= Top(slots, lo)
    decreases |slots|
  {
    if i == 0 {
      TopAbove(slots[1..], End(slots[0]));
    } else {
      PlacedAbove(slots[1..], End(slots[0]), i - 1);
    }
  }

  lemma {:induction false} TopAbove(slots: seq<Slot>, lo: nat)
    requires Placed(slots, lo)
    ensures lo + Total(slots) <= Top(slots, lo)
    decreases |slots|
  {
    if slots != [] {
      TopAbove(slots[1..], End(slots[0]));
    }
  }

  /** Two slots of a well-placed arena never overlap. */
  lemma {:induction false} PlacedDisjoint(slots: seq<Slot>, lo: nat, i: nat, j: nat)
    requires Placed(slots, lo) && i < j < |slots|
    ensures End(slots[i]) <= slots[j].arenaOffset
    decreases |slots|
  {
    if i == 0 {
      PlacedAbove(slots[1..], End(slots[0]), j - 1);
    } else {
      PlacedDisjoint(slots[1..], End(slots[0]), i - 1, j - 1);
    }
  }

  // ------------------------------------------------------------------ first fit

  /** The scan, written on the tail of the list. */
  lemma {:induction false} ScanTail(slots: seq<Slot>, i: nat, offset: nat, size: nat)
    requires i < |slots|
    ensures var p, q := Scan(slots, i + 1, offset, size), Scan(slots[1..], i, offset, size);
            p.offset == q.offset && p.index == q.index + 1
    decreases |slots| - i
  {
    if i + 1 < |slots| {
      assert slots[1..][i] == slots[i + 1];
      if offset + size > slots[i + 1].arenaOffset {
        ScanTail(slots, i + 1, End(slots[i + 1]), size);
      }
    }
  }

  /** Inserting a slot at the place the scan found keeps the slots placed. */
  lemma {:induction false} ScanPlaces(slots: seq<Slot>, lo: nat, size: nat, s: Slot)
    requires Placed(slots, lo) && lo % 8 == 0 && size % 8 == 0 && 0 < size
    requires s.arenaOffset == Scan(slots, 0, lo, size).offset && s.size == size
    ensures var p := Scan(slots, 0, lo, size);
            && lo <= p.offset && p.offset % 8 == 0
            && Placed(InsertedAt(slots, p.index, s), lo)
            && Top(InsertedAt(slots, p.index, s), lo) == if p.index == |slots| then p.offset + size else Top(slots, lo)
    decreases |slots|
  {
    var p := Scan(slots, 0, lo, size);
    if p.index == 0 {
      assert InsertedAt(slots, 0, s) == [s] + slots;
    } else {
      var e := End(slots[0]);
      ScanTail(slots, 0, e, size);
      ScanPlaces(slots[1..], e, size, s);
      var r := InsertedAt(slots, p.index, s);
      assert r[0] == slots[0] && r[1..] == InsertedAt(slots[1..], p.index - 1, s);
    }
  }

  /** The scan finds a free place. */
  lemma {:induction false} ScanFree(slots: seq<Slot>, lo: nat, size: nat)
    requires Placed(slots, lo)
    ensures var p := Scan(slots, 0, lo, size);
            && lo <= p.offset && Free(slots, p.offset, size)
            && (p.index == |slots| ==> p.offset == Top(slots, lo))
            && (p.index < |slots| ==> p.offset + size <= Top(slots, lo))
    decreases |slots|
  {
    var p := Scan(slots, 0, lo, size);
    if p.index == |slots| == 0 {
    } else if p.index == 0 {
      forall i | 0 <= i < |slots|
          ensures lo + size <= slots[i].arenaOffset { PlacedAbove(slots, slots[0].arenaOffset, i); }
      PlacedAbove(slots, lo, 0);
    } else {
      var e := End(slots[0]);
      ScanTail(slots, 0, e, size);
      ScanFree(slots[1..], e, size);
      forall i | 0 <= i < |slots| ensures p.offset + size <= slots[i].arenaOffset || End(slots[i]) <= p.offset {
        if i > 0 { assert slots[i] == slots[1..][i - 1]; }
      }
    }
  }

  /** No offset below the one the scan found is free. */
  lemma {:induction false} ScanLowest(slots: seq<Slot>, lo: nat, size: nat, o: nat)
    requires Placed(slots, lo) && 0 < size && lo <= o < Scan(slots, 0, lo, size).offset
    ensures !Free(slots, o, size)
    decreases |slots|
  {
    var e := End(slots[0]);
    ScanTail(slots, 0, e, size);
    if Free(slots, o, size) {
      assert o + size <= slots[0].arenaOffset || e <= o;
      FreeTail(slots, o, size);
      ScanLowest(slots[1..], e, size, o);
    }
  }

  lemma {:induction false} FreeTail(slots: seq<Slot>, o: nat, size: nat)
    requires slots != [] && Free(slots, o, size)
    ensures Free(slots[1..], o, size)
  {
    forall i | 0 <= i < |slots[1..]| ensures o + size <= slots[1..][i].arenaOffset || End(slots[1..][i]) <= o {
      assert slots[1..][i] == slots[i + 1];
    }
  }

  /** Slots with no holes between them are passed one by one. */
  lemma {:induction false} DenseScan(slots: seq<Slot>, lo: nat, size: nat)
    requires Placed(slots, lo) && 0 < size && Top(slots, lo) == lo + Total(slots)
    ensures Scan(slots, 0, lo, size) == Place(Top(slots, lo), |slots|)
    decreases |slots|
  {
    if slots != [] {
      TopAbove(slots[1..], End(slots[0]));
      DenseScan(slots[1..], End(slots[0]), size);
      ScanTail(slots, 0, End(slots[0]), size);
    }
  }

  lemma {:induction false} TopIsLast(slots: seq<Slot>, lo: nat)
    requires slots != []
    ensures Top(slots, lo) == End(slots[|slots| - 1])
    decreases |slots|
  {
    if |slots| > 1 {
      TopIsLast(slots[1..], End(slots[0]));
      assert slots[1..][|slots| - 2] == slots[|slots| - 1];
    }
  }

  /** The append fast path picks the place that the full scan would pick. */
  lemma {:induction false} FastPathIsScan(a: Arena, size: nat)
    requires WellPlaced(a) && 0 < size
    ensures Choose(a, size) == Scan(a.slots, 0, 0, size)
  {
    if Packed(a) {
      TopIsLast(a.slots, 0);
      DenseScan(a.slots, 0, size);
    }
  }

  lemma {:induction false} InsertTotal(slots: seq<Slot>, i: nat, s: Slot)
    requires i <= |slots|
    ensures Total(InsertedAt(slots, i, s)) == Total(slots) + s.size
    decreases i
  {
    var r := InsertedAt(slots, i, s);
    if i == 0 {
      assert r == [s] + slots;
    } else {
      assert r[0] == slots[0] && r[1..] == InsertedAt(slots[1..], i - 1, s);
      InsertTotal(slots[1..], i - 1, s);
    }
  }

  /** A granted request gets the lowest offset that fits, below the limit, and the arena
      stays well placed with exactly the new slot added. */
  lemma {:induction false} AllocateFirstFit(a: Arena, id: nat, slotOffset: nat, userSize: nat)
    requires WellPlaced(a) && 0 < userSize && Allocate(a, id, slotOffset, userSize).Some?
    ensures var (a', at) := Allocate(a, id, slotOffset, userSize).value;
            var size := AlignUp(userSize);
            && WellPlaced(a') && a'.limit == a.limit
            && at % 8 == 0 && at + size <= a.limit && Free(a.slots, at, size)
            && (forall o: nat :: o < at ==> !Free(a.slots, o, size))
            && multiset(a'.slots) == multiset(a.slots) + multiset{Slot(id, slotOffset, at, size, userSize)}
  {
    var size := AlignUp(userSize);
    FastPathIsScan(a, size);
    var p := Scan(a.slots, 0, 0, size);
    var s := Slot(id, slotOffset, p.offset, size, userSize);
    ScanPlaces(a.slots, 0, size, s);
    ScanFree(a.slots, 0, size);
    InsertTotal(a.slots, p.index, s);
    forall o: nat | o < p.offset ensures !Free(a.slots, o, size) { ScanLowest(a.slots, 0, size, o); }
    InsertBag(a.slots, p.index, s);
  }

  lemma {:induction false} InsertBag(slots: seq<Slot>, i: nat, s: Slot)
    requires i <= |slots|
    ensures multiset(InsertedAt(slots, i, s)) == multiset(slots) + multiset{s}
  {
    assert slots == slots[..i] + slots[i..];
  }

  /** With a free slot record, a request fails exactly when no offset fits below the limit. */
  lemma {:induction false} AllocateFails(a: Arena, id: nat, slotOffset: nat, userSize: nat)
    requires WellPlaced(a) && 0 < userSize && |a.slots| < a.maxSlots
    ensures Allocate(a, id, slotOffset, userSize).None? <==>
            forall o: nat :: o + AlignUp(userSize) <= a.limit ==> !Free(a.slots, o, AlignUp(userSize))
  {
    var size := AlignUp(userSize);
    FastPathIsScan(a, size);
    var p := Scan(a.slots, 0, 0, size);
    ScanFree(a.slots, 0, size);
    if p.offset + size > a.limit {
      forall o: nat | o + size <= a.limit ensures !Free(a.slots, o, size) { ScanLowest(a.slots, 0, size, o); }
    }
  }

  /** A place for size bytes. */
  predicate FitsAt(a: Arena, o: nat, size: nat) {
    o % 8 == 0 && o + size <= a.limit && Free(a.slots, o, size)
  }

  /** No slot record is free, or no place fits. */
  ghost predicate Exhausted(a: Arena, size: nat) {
    |a.slots| >= a.maxSlots || forall o: nat :: !FitsAt(a, o, size)
  }

  /** The place fits, and none below it does. */
  ghost predicate Lowest(a: Arena, at: nat, size: nat) {
    FitsAt(a, at, size) && forall o: nat :: o < at ==> !FitsAt(a, o, size)
  }

  /** A request is refused exactly when the arena is exhausted, and gets the lowest place otherwise. */
  lemma {:induction false} RequestIff(a: Arena, id: nat, slotOffset: nat, userSize: nat)
    requires WellPlaced(a) && 0 < userSize
    ensures var r := Allocate(a, id, slotOffset, userSize);
            && (r.None? <==> Exhausted(a, AlignUp(userSize)))
            && (r.Some? ==> Lowest(a, r.value.1, AlignUp(userSize)))
  {
    hide Scan, Free, WellPlaced, Choose;
    if Allocate(a, id, slotOffset, userSize).Some? {
      AllocateFirstFit(a, id, slotOffset, userSize);
      assert FitsAt(a, Allocate(a, id, slotOffset, userSize).value.1, AlignUp(userSize));
    } else if |a.slots| < a.maxSlots {
      AllocateFails(a, id, slotOffset, userSize);
    }
  }

  /** Room behind the last slot is always enough, and no more than that is used up. */
  lemma {:induction false} TopFits(a: Arena, id: nat, slotOffset: nat, userSize: nat)
    requires WellPlaced(a) && 0 < userSize && |a.slots| < a.maxSlots
    requires Top(a.slots, 0) + AlignUp(userSize) <= a.limit
    ensures var r := Allocate(a, id, slotOffset, userSize);
            && r.Some? && WellPlaced(r.value.0) && r.value.0.limit == a.limit && r.value.0.maxSlots == a.maxSlots
            && |r.value.0.slots| == |a.slots| + 1 && Top(r.value.0.slots, 0) <= Top(a.slots, 0) + AlignUp(userSize)
  {
    var size, top := AlignUp(userSize), Top(a.slots, 0);
    forall i | 0 <= i < |a.slots| ensures End(a.slots[i]) <= top { PlacedAbove(a.slots, 0, i); }
    assert Free(a.slots, top, size);
    AllocateFails(a, id, slotOffset, userSize);
    AllocateFirstFit(a, id, slotOffset, userSize);
    var (a', at) := Allocate(a, id, slotOffset, userSize).value;
    assert at <= top;
    var n, s := |a'.slots|, Slot(id, slotOffset, at, size, userSize);
    TopIsLast(a'.slots, 0);
    var last := a'.slots[n - 1];
    assert last in multiset(a'.slots);
    if last != s {
      assert last in multiset(a.slots);
      var i :| 0 <= i < |a.slots| && a.slots[i] == last;
    }
  }

  // ------------------------------------------------------------------ release

  lemma {:induction false} PlacedLower(slots: seq<Slot>, lo: nat, lo': nat)
    requires Placed(slots, lo) && lo' <= lo
    ensures Placed(slots, lo')
    ensures Top(slots, lo') <= Top(slots, lo)
  {}

  lemma {:induction false} OthersPlaced(slots: seq<Slot>, lo: nat, id: nat)
    requires Placed(slots, lo)
    ensures Placed(Others(slots, id), lo) && Top(Others(slots, id), lo) <= Top(slots, lo)
    ensures Total(Others(slots, id)) + Total(Owned(slots, id)) == Total(slots)
    decreases |slots|
  {
    if slots != [] {
      var e := End(slots[0]);
      OthersPlaced(slots[1..], e, id);
      PlacedLower(Others(slots[1..], id), e, lo);
    }
  }

  /** Releasing a group keeps the arena well placed; the surviving slots keep their order
      and content. */
  lemma {:induction false} ReleaseKeeps(a: Arena, id: nat)
    requires WellPlaced(a)
    ensures WellPlaced(Release(a, id)) && Release(a, id).limit == a.limit
    ensures Owned(Release(a, id).slots, id) == []
    ensures forall other :: other != id ==> Owned(Release(a, id).slots, other) == Owned(a.slots, other)
  {
    OthersPlaced(a.slots, 0, id);
    OwnedOthers(a.slots, id, id);
    forall other | other != id ensures Owned(Release(a, id).slots, other) == Owned(a.slots, other) {
      OwnedOthers(a.slots, id, other);
    }
  }

  lemma {:induction false} OwnedOthers(slots: seq<Slot>, id: nat, other: nat)
    ensures Owned(Others(slots, id), other) == if other == id then [] else Owned(slots, other)
    decreases |slots|
  {
    if slots != [] {
      OwnedOthers(slots[1..], id, other);
    }
  }

  // ------------------------------------------------------------------ pinned addresses

  lemma {:induction false} OwnedInserted(slots: seq<Slot>, i: nat, s: Slot, id: nat)
    requires i <= |slots| && s.groupId != id
    ensures Owned(InsertedAt(slots, i, s), id) == Owned(slots, id)
    decreases i
  {
    var r := InsertedAt(slots, i, s);
    if i == 0 {
      assert r[1..] == slots;
    } else {
      assert r[0] == slots[0] && r[1..] == InsertedAt(slots[1..], i - 1, s);
      OwnedInserted(slots[1..], i - 1, s, id);
    }
  }

  /** What can happen to the arena: a request by a group, or a group going away. */
  datatype Event = Request(id: nat, slotOffset: nat, userSize: nat) | Gone(id: nat)

  function React(a: Arena, e: Event): Arena {
    match e
    case Gone(id) => Release(a, id)
    case Request(id, slotOffset, userSize) =>
      match Allocate(a, id, slotOffset, userSize)
      case None => a
      case Some((a', _)) => a'
  }

  function ReactAll(a: Arena, es: seq<Event>): Arena
    decreases |es|
  {
    if es == [] then a else ReactAll(React(a, es[0]), es[1..])
  }

  /** However other groups allocate and go away, the slots of a group stay where they are. */
  lemma {:induction false} Pinned(a: Arena, es: seq<Event>, id: nat)
    requires forall i :: 0 <= i < |es| ==> es[i].id != id
    ensures Owned(ReactAll(a, es).slots, id) == Owned(a.slots, id)
    decreases |es|
  {
    if es != [] {
      var e := es[0];
      match e {
        case Gone(other) => OwnedOthers(a.slots, other, id);
        case Request(other, slotOffset, userSize) =>
          var g := Grant(a, other, slotOffset, userSize);
          if g.Some? { OwnedInserted(a.slots, g.value.1, g.value.0, id); }
      }
      Pinned(React(a, e), es[1..], id);
    }
  }

  /** Any run of requests and releases keeps the arena well placed. */
  lemma {:induction false} StaysWellPlaced(a: Arena, es: seq<Event>)
    requires WellPlaced(a) && forall i :: 0 <= i < |es| ==> es[i].Request? ==> 0 < es[i].userSize
    ensures WellPlaced(ReactAll(a, es))
    decreases |es|
  {
    if es != [] {
      match es[0] {
        case Gone(id) => ReleaseKeeps(a, id);
        case Request(id, slotOffset, userSize) =>
          if Allocate(a, id, slotOffset, userSize).Some? { AllocateFirstFit(a, id, slotOffset, userSize); }
      }
      StaysWellPlaced(React(a, es[0]), es[1..]);
    }
  }

  // ------------------------------------------------------------------ lookups and the hint

  /** No group requested two live slots at one offset. */
  predicate Unique(slots: seq<Slot>) {
    forall i, j :: 0 <= i < j < |slots| ==>
        !(slots[i].groupId == slots[j].groupId && slots[i].slotOffset == slots[j].slotOffset)
  }

  /** A circular search misses no slot. */
  lemma {:induction false} SeekFinds(slots: seq<Slot>, start: nat, id: nat, slotOffset: nat, i: nat, k: nat)
    requires i <= k < |slots| && start < |slots|
    requires Holds(slots[Around(start, k, |slots|)], id, slotOffset)
    ensures Seek(slots, start, id, slotOffset, i).Some?
    decreases |slots| - i
  {
    if !Holds(slots[Around(start, i, |slots|)], id, slotOffset) {
      SeekFinds(slots, start, id, slotOffset, i + 1, k);
    }
  }

  /** The slot a lookup resolves to does not depend on where the search starts. */
  lemma {:induction false} HintIsIrrelevant(a: Arena, id: nat, slotOffset: nat, j: nat)
    requires Unique(a.slots) && j < |a.slots| && Holds(a.slots[j], id, slotOffset)
    ensures Lookup(a, id, slotOffset) == Some(j)
  {
    var n, start := |a.slots|, Start(a);
    var k := if j >= start then j - start else j + n - start;
    SeekFinds(a.slots, start, id, slotOffset, 0, k);
  }

  // ------------------------------------------------------------------ raw allocations

  /** The bytes of a raw allocation meet no slot if and only if there is room for them above
      the highest slot; the check the allocator makes is weaker when there are holes. */
  lemma {:induction false} CarveSafe(a: Arena, size: nat)
    requires WellPlaced(a) && Carve(a, size).Some?
    ensures var (a', at) := Carve(a, size).value;
            && (Free(a.slots, at, AlignLine(size)) <==> Top(a.slots, 0) + AlignLine(size) <= a.limit)
            && (Free(a.slots, at, AlignLine(size)) <==> WellPlaced(a'))
  {
    var at := Carve(a, size).value.1;
    if a.slots != [] {
      TopIsLast(a.slots, 0);
      PlacedAbove(a.slots, 0, |a.slots| - 1);
    }
    if Top(a.slots, 0) <= at {
      forall i | 0 <= i < |a.slots| ensures End(a.slots[i]) <= at { PlacedAbove(a.slots, 0, i); }
    }
  }

  /** Without holes the allocator's check is enough. */
  lemma {:induction false} CarvePacked(a: Arena, size: nat)
    requires WellPlaced(a) && Top(a.slots, 0) == a.used && Carve(a, size).Some?
    ensures var (a', at) := Carve(a, size).value; Free(a.slots, at, AlignLine(size)) && WellPlaced(a')
  {
    CarveSafe(a, size);
  }

  /** With a hole below the last slot a raw allocation can overlap that slot. */
  lemma {:induction false} CarveOverlaps()
    ensures var a := Arena([Slot(1, 0, 64, 64, 64)], 64, 128, 4, 0);
            && WellPlaced(a) && Carve(a, 64).Some?
            && Carve(a, 64).value.1 < End(a.slots[0]) && !Free(a.slots, Carve(a, 64).value.1, 64)
  {
    var a := Arena([Slot(1, 0, 64, 64, 64)], 64, 128, 4, 0);
    assert Top(a.slots, 0) == 128 && Total(a.slots) == 64;
    assert AlignLine(64) == 64;
    var at := Carve(a, 64).value.1;
    assert at + 64 > a.slots[0].arenaOffset && End(a.slots[0]) > at;
  }
}

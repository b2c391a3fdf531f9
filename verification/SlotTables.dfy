/** The slot records of a session, kept sorted in a fixed array. */
module SlotTables {
  import opened Basics
  import opened Arenas
  import ArenaFacts

  class SlotArena {
    const slots: array<Slot>
    var slotCount: nat
    var used: nat        // sum of the sizes of the live slots
    var limit: nat       // end of the space shared with raw allocations
    var hint: nat        // where the next lookup starts

    /** The arena as a value. */
    ghost var model: Arena

    ghost predicate Valid()
      reads this, slots
    {
      && slotCount <= slots.Length
      && model.used == used && model.limit == limit && model.hint == hint && model.maxSlots == slots.Length
      && |model.slots| == slotCount
      && forall i {:trigger slots[i]} :: 0 <= i < slotCount ==> slots[i] == model.slots[i]
    }

    constructor (maxSlots: nat, arenaSize: nat)
      ensures Valid() && fresh(slots)
      ensures model == Arena([], 0, arenaSize, maxSlots, 0)
    {
      slots := new Slot[maxSlots](_ => Slot(0, 0, 0, 0, 0));
      slotCount, used, limit, hint := 0, 0, arenaSize, 0;
      model := Arena([], 0, arenaSize, maxSlots, 0);
    }

    /** Finds where a slot of the given size goes. */
    method Place(size: nat) returns (offset: nat, insertion: nat)
      requires Valid()
      ensures Arenas.Place(offset, insertion) == Choose(model, size)
    {
      if slotCount > 0 && slots[slotCount - 1].arenaOffset + slots[slotCount - 1].size == used {
        return used, slotCount;
      }
      offset, insertion := 0, 0;
      while insertion < slotCount && offset + size > slots[insertion].arenaOffset
        invariant insertion <= slotCount
        invariant Scan(model.slots, 0, 0, size) == Scan(model.slots, insertion, offset, size)
      {
        offset := slots[insertion].arenaOffset + slots[insertion].size;
        insertion := insertion + 1;
      }
    }

    /** Serves a request of a group that is mounting.  It is refused exactly when no slot record is free
        or no place fits, and gets the lowest place otherwise. */
    method Allocate(id: nat, slotOffset: nat, userSize: nat) returns (at: Option<nat>)
      requires Valid()
      modifies this, slots
      ensures Valid()
      ensures 0 < userSize && ArenaFacts.WellPlaced(old(model)) ==>
                && (at == None <==> ArenaFacts.Exhausted(old(model), AlignUp(userSize)))
                && (at.Some? ==> ArenaFacts.Lowest(old(model), at.value, AlignUp(userSize)))
      ensures match Arenas.Allocate(old(model), id, slotOffset, userSize)
              case None => at == None && model == old(model)
              case Some((a, offset)) => at == Some(offset) && model == a
    {
      hide Scan, ArenaFacts.WellPlaced, ArenaFacts.Exhausted, ArenaFacts.Lowest;
      if 0 < userSize && ArenaFacts.WellPlaced(model) {
        ArenaFacts.RequestIff(model, id, slotOffset, userSize);
      }
      var size := AlignUp(userSize);
      if slotCount >= slots.Length {
        return None;
      }
      var offset, insertion := Place(size);
      if offset + size > limit {
        return None;
      }
      Insert(Slot(id, slotOffset, offset, size, userSize), insertion);
      return Some(offset);
    }

    /** Puts a slot at its place, behind those that lie lower. */
    method Insert(s: Slot, insertion: nat)
      requires Valid() && insertion <= slotCount < slots.Length
      modifies this, slots
      ensures Valid()
      ensures model == old(model).(slots := InsertedAt(old(model).slots, insertion, s), used :=
              old(model).used + s.size)
    {
      forall k | insertion <= k < slotCount {
        slots[k + 1] := slots[k];
      }
      slots[insertion] := s;
      slotCount, used := slotCount + 1, used + s.size;
      model := model.(slots := InsertedAt(model.slots, insertion, s), used := model.used + s.size);
    }

    /** Circular search from the hint. */
    method Find(id: nat, slotOffset: nat) returns (r: Option<nat>)
      requires Valid()
      modifies this`hint, this`model
      ensures Valid()
      ensures r == Lookup(old(model), id, slotOffset)
      ensures model == if r.Some? then old(model).(hint := r.value + 1) else old(model)
    {
      var start := if hint >= slotCount then 0 else hint;
      var i := 0;
      while i < slotCount
        invariant i <= slotCount
        invariant Lookup(model, id, slotOffset) == Seek(model.slots, start, id, slotOffset, i)
      {
        var index := start + i;
        if index >= slotCount {
          index := index - slotCount;
        }
        if slots[index].groupId == id && slots[index].slotOffset == slotOffset {
          hint := index + 1;
          model := model.(hint := index + 1);
          return Some(index);
        }
        i := i + 1;
      }
      return None;
    }

    /** Returns every slot of group id to the arena, closing up the table as it goes. */
    method Release(id: nat)
      requires Valid()
      modifies this, slots
      ensures Valid() && model == Arenas.Release(old(model), id)
    {
      hide Others, Owned;
      ghost var all := model.slots;
      ghost var freed := 0;
      var i := 0;
      while i < slotCount
        invariant i <= slotCount && Valid() && limit == old(limit) && hint == old(hint)
        invariant forall k :: 0 <= k < i ==> model.slots[k].groupId != id
        invariant Others(model.slots, id) == Others(all, id)
        invariant freed + Total(Owned(model.slots, id)) == Total(Owned(all, id))
        invariant used == if freed <= old(used) then old(used) - freed else 0
        decreases slotCount - i
      {
        if slots[i].groupId != id {
          i := i + 1;
          continue;
        }
        ghost var s := model.slots[i];
        RemoveOwned(model.slots, i, id);
        freed := freed + s.size;
        used := if slots[i].size <= used then used - slots[i].size else 0;
        slotCount := slotCount - 1;
        forall k | i <= k < slotCount {
          slots[k] := slots[k + 1];
        }
        model := model.(slots := model.slots[..i] + model.slots[i + 1..], used := used);
      }
      AllOthers(model.slots, id);
    }

    /** Takes a raw block from the top of the arena. */
    method AllocData(size: nat) returns (at: Option<nat>)
      requires Valid()
      modifies this`limit, this`model
      ensures Valid()
      ensures match Carve(old(model), size)
              case None => at == None && model == old(model)
              case Some((a, offset)) => at == Some(offset) && model == a
      ensures at.Some? <==> 0 < size && old(used) + AlignLine(size) <= old(limit)
      ensures limit == old(limit) - (if at.Some? then AlignLine(size) else 0) && (at.Some? ==> at.value == limit)
    {
      if size == 0 {
        return None;
      }
      var aligned := AlignLine(size);
      if used + aligned > limit {
        return None;
      }
      limit := limit - aligned;
      model := model.(limit := limit);
      return Some(limit);
    }
  }

  lemma {:induction false} RemoveOwned(slots: seq<Slot>, i: nat, id: nat)
    requires i < |slots| && slots[i].groupId == id
    ensures var r := slots[..i] + slots[i + 1..];
            && Others(r, id) == Others(slots, id)
            && Total(Owned(r, id)) + slots[i].size == Total(Owned(slots, id))
    decreases i
  {
    var r := slots[..i] + slots[i + 1..];
    if i == 0 {
      assert r == slots[1..];
    } else {
      assert r[0] == slots[0] && r[1..] == slots[1..][..i - 1] + slots[1..][i..];
      RemoveOwned(slots[1..], i - 1, id);
    }
  }

  lemma {:induction false} AllOthers(slots: seq<Slot>, id: nat)
    requires forall k :: 0 <= k < |slots| ==> slots[k].groupId != id
    ensures Others(slots, id) == slots && Owned(slots, id) == []
    decreases |slots|
  {
    if slots != [] {
      AllOthers(slots[1..], id);
    }
  }
}

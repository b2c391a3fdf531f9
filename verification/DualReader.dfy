/** Reading the stand-alone slot table back. */
module DualReader {
  import opened Basics
  import opened DualTables
  import opened DualWriter

  /** A forest as its reader sees it. */
  datatype Seen = Leaf | Seen(key: nat, data: Word, words: seq<Word>, size: nat, nodes: nat, kids: Seen, next: Seen)

  /** What a reader must find of d: every key, user word and slot word, the size of every
      subtree, and the nodes summed over every subtree, modulo the width of the counter. */
  function Expected(d: Doc): Seen {
    match d
    case Nil => Leaf
    case Node(key, data, words, _, kids, _, next) =>
      Seen(key, data, words, Size(kids), Own(d) % WRAP, Expected(kids), Expected(next))
  }

  /** Every subtree is small enough for its size to be stored. */
  predicate Small(d: Doc) {
    d.Node? ==> Size(d.kids) < WRAP && Small(d.kids) && Small(d.next)
  }

  /** The end bound that goes with a parent. */
  predicate Oriented(es: seq<Entry>, parent: Option<nat>, end: nat) {
    match parent
    case None => end == |es|
    case Some(p) => p < |es| && end == p + 1 + es[p].size
  }

  class SlotReader {
    const table: SlotTable
    var group: nat            // the next group
    var slot: nat             // the next word of the entered group
    var parent: Option<nat>   // the entered group
    var end: nat              // where its children end

    constructor (table: SlotTable)
      requires table.Valid()
      ensures this.table == table && group == 0 && slot == 0 && parent == None && end == |table.entries|
    {
      this.table := table;
      group, slot, parent, end := 0, 0, None, table.Count();
    }

    /** Enters the next group. */
    method GroupStart() returns (g: Option<Rec>)
      requires table.Valid()
      modifies this
      ensures g.Some? <==> old(group) < old(end) && old(group) < |table.entries|
      ensures g.None? ==> group == old(group) && slot == old(slot) && parent == old(parent) && end == old(end)
      ensures g.Some? ==>
                var e := table.entries[old(group)];
                && g.value == Record(e, g.value.slotIndex)
                && parent == Some(old(group)) && slot == 0 && group == old(group) + 1 && end == group + e.size
    {
      if group >= end {
        return None;
      }
      g := table.Get(group);
      if g.None? {
        return;
      }
      parent, slot, group := Some(group), 0, group + 1;
      end := group + g.value.size;
    }

    /** Leaves the entered group. */
    method GroupEnd() returns (ok: bool)
      requires table.Valid()
      modifies this
      ensures group == old(group) && slot == old(slot)
      ensures old(parent).None? ==> !ok && parent == None && end == old(end)
      ensures ok ==>
                && old(parent).Some? && old(parent).value < |table.entries|
                && parent == table.entries[old(parent).value].parent
                && Oriented(table.entries, parent, end)
      ensures old(parent).Some? && old(parent).value < |table.entries| ==>
                var p := table.entries[old(parent).value].parent;
                ok == (p.None? || p.value < |table.entries|)
    {
      if parent.None? {
        return false;
      }
      var r := table.Get(parent.value);
      if r.None? {
        return false;
      }
      parent := r.value.parent;
      if parent.None? {
        end := table.Count();
      } else {
        var grand := table.Get(parent.value);
        if grand.None? {
          return false;
        }
        end := parent.value + 1 + grand.value.size;
      }
      return true;
    }

    /** Steps over the next group and its whole subtree at once. */
    method GroupSkip() returns (ok: bool)
      requires table.Valid()
      modifies this`group
      ensures ok == (old(group) < |table.entries|)
      ensures group == if ok then old(group) + 1 + table.entries[old(group)].size else old(group)
    {
      var g := table.Get(group);
      if g.None? {
        return false;
      }
      group := group + 1 + g.value.size;
      return true;
    }

    /** The next word of the entered group. */
    method SlotRead() returns (v: Option<Word>)
      requires table.Valid()
      modifies this`slot
      ensures v.Some? <==>
              parent.Some? && parent.value < |table.entries| && old(slot) < |table.entries[parent.value].words|
      ensures v.Some? ==> v.value == table.entries[parent.value].words[old(slot)] && slot == old(slot) + 1
      ensures v.None? ==> slot == old(slot)
    {
      if parent.None? {
        return None;
      }
      var r := table.Get(parent.value);
      if r.None? || slot >= r.value.slotCount {
        return None;
      }
      table.WordStored(parent.value, slot);
      v := Some(table.slots[r.value.slotIndex + slot]);
      slot := slot + 1;
    }
  }

  // ------------------------------------------------------------------ skipping is walking

  /** Enters a group, walks its subtree and leaves it.  The reader then stands where skipping
      the group would have taken it: same next group, same parent, same end bound. */
  method WalkGroup(r: SlotReader, ghost d: Doc)
    requires r.table.Valid() && d.Node? && Small(d) && Stands(r.table.entries, r.group, d, r.parent)
    requires Oriented(r.table.entries, r.parent, r.end) && r.group < r.end
    modifies r
    ensures r.group == old(r.group) + 1 + r.table.entries[old(r.group)].size
    ensures r.parent == old(r.parent) && r.end == old(r.end)
    ensures r.group == old(r.group) + 1 + Size(d.kids)
    decreases Size(d)
  {
    ghost var es, rest := r.table.entries, d.kids;
    StandsHead(es, r.group, d, r.parent);
    var g := r.GroupStart();
    ghost var here, end := r.parent, r.end;
    while r.group < r.end
      invariant r.parent == here && r.end == end == r.group + Size(rest) && Size(rest) <= Size(d.kids)
      invariant Stands(es, r.group, rest, r.parent) && Small(rest)
      decreases Size(rest)
    {
      WalkGroup(r, rest);
      rest := rest.next;
    }
    var left := r.GroupEnd();
  }

  /** What the record of a group says of it. */
  lemma {:induction false} StandsHead(es: seq<Entry>, lo: nat, d: Doc, parent: Option<nat>)
    requires Stands(es, lo, d, parent) && d.Node?
    ensures lo < |es| && es[lo].parent == parent && es[lo].size == Size(d.kids) % WRAP && es[lo].nodes == Own(d) % WRAP
    ensures es[lo].key == d.key && es[lo].data == d.data && es[lo].words == d.words
  {
    assert Plain(es[lo]).size == es[lo].size && Plain(es[lo]).nodes == es[lo].nodes
        && Plain(es[lo]).words == es[lo].words;
  }

  // ------------------------------------------------------------------ reading a forest

  method ReadWords(r: SlotReader) returns (words: seq<Word>)
    requires r.table.Valid() && r.parent.Some? && r.parent.value < |r.table.entries| && r.slot == 0
    modifies r`slot
    ensures words == r.table.entries[r.parent.value].words
  {
    ghost var all := r.table.entries[r.parent.value].words;
    words := [];
    var v := r.SlotRead();
    while v.Some?
      invariant r.slot <= |all|
      invariant if v.Some? then 0 < r.slot && words == all[..r.slot - 1] && v.value == all[r.slot - 1] else words == all
      decreases |all| - r.slot, v.Some?
    {
      words := words + [v.value];
      assert words == all[..r.slot];
      v := r.SlotRead();
    }
  }

  /** The reader stands at the first group of d, and its end bound is the end of d. */
  ghost predicate Located(es: seq<Entry>, group: nat, parent: Option<nat>, end: nat, d: Doc) {
    Stands(es, group, d, parent) && Oriented(es, parent, end) && end == group + Size(d)
  }

  /** Reads the groups up to the end bound, with their subtrees.  When the reader is at d it finds
      what was written if and only if every subtree of d is small enough for its size to be stored. */
  method ReadForest(r: SlotReader, ghost d: Doc, ghost located: bool) returns (seen: Seen)
    requires r.table.Valid() && r.group <= |r.table.entries|
    requires located ==> Located(r.table.entries, r.group, r.parent, r.end, d)
    modifies r
    ensures old(r.group) <= r.group <= |r.table.entries|
    ensures located ==> (seen == Expected(d) <==> Small(d))
    ensures located && Small(d) ==>
            r.group == old(r.group) + Size(d) && r.parent == old(r.parent) && r.end == old(r.end)
    decreases |r.table.entries| - r.group
  {
    hide Start, Words, Laid, Gapped, Stands, Group;
    ghost var es, at, parent, end := r.table.entries, r.group, r.parent, r.end;
    var g := r.GroupStart();
    if g.None? {
      if located { LocatedEnds(es, at, parent, end, d); }
      return Leaf;
    }
    if located { LocatedHere(es, at, parent, end, d); }
    ghost var inside := located && Size(d.kids) < WRAP;
    var words := ReadWords(r);
    var kids := ReadForest(r, if located then d.kids else Nil, inside);
    var left := r.GroupEnd();
    ghost var beside := inside && Small(d.kids);
    var next := ReadForest(r, if located then d.next else Nil, beside);
    return Seen.Seen(g.value.key, g.value.data, words, g.value.size, g.value.nodes, kids, next);
  }

  /** At the end bound there is nothing left of d. */
  lemma {:induction false} LocatedEnds(es: seq<Entry>, group: nat, parent: Option<nat>, end: nat, d: Doc)
    requires Located(es, group, parent, end, d) && !(group < end && group < |es|)
    ensures d == Nil
  {
    if d.Node? { StandsHead(es, group, d, parent); }
  }

  /** Before the end bound there is a group, with its children and its siblings after it. */
  lemma {:induction false} LocatedHere(es: seq<Entry>, group: nat, parent: Option<nat>, end: nat, d: Doc)
    requires Located(es, group, parent, end, d) && group < end
    ensures d.Node? && group < |es|
    ensures es[group].parent == parent && es[group].size == Size(d.kids) % WRAP && es[group].nodes == Own(d) % WRAP
    ensures es[group].key == d.key && es[group].data == d.data && es[group].words == d.words
    ensures Size(d.kids) < WRAP ==> Located(es, group + 1, Some(group), group + 1 + es[group].size, d.kids)
    ensures Stands(es, group + 1 + Size(d.kids), d.next, parent) && end == group + 1 + Size(d.kids) + Size(d.next)
  {
    assert d.Node?;
    StandsHead(es, group, d, parent);
  }

  /** n groups side by side. */
  function Row(n: nat): Doc {
    if n == 0 then Nil else Node(1, ZERO, [], 0, Nil, 0, Row(n - 1))
  }

  lemma {:induction false} RowIs(n: nat)
    ensures Size(Row(n)) == n && Small(Row(n)) && Narrow(Row(n))
    decreases n
  {
    if n > 0 {
      var rest := Row(n - 1);
      assert Row(n) == Node(1, ZERO, [], 0, Nil, 0, rest);
      RowIs(n - 1);
      hide Row;
      OneMore(Node(1, ZERO, [], 0, Nil, 0, rest));
    }
  }

  lemma {:induction false} OneMore(d: Doc)
    requires d.Node? && d.words == [] && d.kids == Nil
    ensures Size(d) == 1 + Size(d.next) && (Small(d) <==> Small(d.next)) && (Narrow(d) <==> Narrow(d.next))
  {}

  /** A group with 65,536 children is written but not found again; with one child less it is. */
  lemma {:induction false} WideIsLost(n: nat)
    ensures var d := Node(1, ZERO, [], 0, Row(n), 0, Nil); Narrow(d) && (Small(d) <==> n < WRAP)
  {
    RowIs(n);
  }

  /** Whatever forest is written into an empty table is what a reader finds there, if and only if every
      subtree is small enough for its size to be stored. */
  method RoundTrip(d: Doc, maxGroups: nat, maxSlots: nat) returns (seen: Seen)
    requires Size(d) <= maxGroups && WordCount(d) <= maxSlots && Height(d) <= MAX_DEPTH && Narrow(d)
    ensures seen == Expected(d) <==> Small(d)
  {
    var table := new SlotTable(maxGroups, maxSlots);
    var writer := new SlotWriter(table);
    WriteDoc(writer, d);
    EncStands(table.entries, 0, d, None);
    var reader := new SlotReader(table);
    seen := ReadForest(reader, d, true);
  }

  /** The gaps can be moved in front of group to: the gap of groups is long enough, and only blank words
      reach the words that the move clears. */
  ghost predicate CanMove(es: seq<Entry>, maxGroups: nat, maxSlots: nat, to: nat)
    requires to <= |es| <= maxGroups
  {
    |es| - to <= maxGroups - |es| && Blanks(Words(es, |es|), Start(es, to), 2 * Start(es, |es|) - maxSlots, ZERO)
  }

  lemma {:induction false} MoveFits(table: SlotTable, maxGroups: nat, maxSlots: nat, to: nat)
    requires table.Valid() && table.groupGap == |table.entries| && to <= |table.entries| <= maxGroups
    requires table.groups.Length == maxGroups && table.slots.Length == maxSlots
             && CanMove(table.entries, maxGroups, maxSlots, to)
    ensures table.Fits(to)
  {
    hide Start, Words, Blanks;
  }

  /** The same holds after the gaps have been moved, when they have the room to move. */
  method RoundTripMoved(d: Doc, maxGroups: nat, maxSlots: nat, to: nat) returns (seen: Seen)
    requires Size(d) <= maxGroups && WordCount(d) <= maxSlots && Height(d) <= MAX_DEPTH && Narrow(d)
    requires to <= Size(d) && CanMove(Table(d, 0, None), maxGroups, maxSlots, to)
    ensures seen == Expected(d) <==> Small(d)
  {
    hide Enc, Stands, Table, Start, Words, Laid, Gapped, CanMove, Expected, Small;
    var table := new SlotTable(maxGroups, maxSlots);
    var writer := new SlotWriter(table);
    WriteDoc(writer, d);
    EncStands(table.entries, 0, d, None);
    assert |table.entries| == Size(d) && table.groupGap == Size(d);
    EncTable(table.entries, 0, |table.entries|, d, None);
    assert table.entries[0..|table.entries|] == table.entries;
    MoveFits(table, maxGroups, maxSlots, to);
    var ok := table.MoveGapTo(to);
    var reader := new SlotReader(table);
    seen := ReadForest(reader, d, true);
  }
}

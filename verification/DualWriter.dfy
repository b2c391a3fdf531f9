/** Writing forests into the stand-alone slot table. */
module DualWriter {
  import opened Basics
  import opened DualTables

  const MAX_DEPTH: nat := 64

  /** A forest as its writer describes it: keys, user words, slot words, the nodes that a group emits
      before its children, and those that its parent emits after it. */
  datatype Doc = Nil | Node(key: nat, data: Word, words: seq<Word>, emits: nat, kids: Doc, after: nat, next: Doc)

  function Size(d: Doc): nat {
    match d
    case Nil => 0
    case Node(_, _, _, _, kids, _, next) => 1 + Size(kids) + Size(next)
  }

  function Height(d: Doc): nat {
    match d
    case Nil => 0
    case Node(_, _, _, _, kids, _, next) => if 1 + Height(kids) >= Height(next) then 1 + Height(kids) else Height(next)
  }

  function WordCount(d: Doc): nat {
    match d
    case Nil => 0
    case Node(_, _, words, _, kids, _, next) => |words| + WordCount(kids) + WordCount(next)
  }

  /** The nodes emitted anywhere in d, or by its parent after a group of d. */
  function Nodes(d: Doc): nat
    decreases d, 1
  {
    match d
    case Nil => 0
    case Node(_, _, _, _, kids, after, next) => Own(d) + after + Nodes(next)
  }

  /** The nodes emitted in the first node of d or below it. */
  function Own(d: Doc): nat
    requires d.Node?
    decreases d, 0
  {
    d.emits + Nodes(d.kids)
  }

  /** What a writer of d does, call by call. */
  datatype Call = Begin(key: nat) | Emit(count: nat) | Close

  function Calls(d: Doc): seq<Call> {
    match d
    case Nil => []
    case Node(key, _, _, emits, kids, after, next) =>
      [Begin(key), Emit(emits)] + Calls(kids) + [Close, Emit(after)] + Calls(next)
  }

  function EmittedBy(cs: seq<Call>): nat {
    if cs == [] then 0 else (if cs[0].Emit? then cs[0].count else 0) + EmittedBy(cs[1..])
  }

  lemma {:induction false} EmittedJoin(a: seq<Call>, b: seq<Call>)
    ensures EmittedBy(a + b) == EmittedBy(a) + EmittedBy(b)
    decreases |a|
  {
    if a == [] {
      assert a + b == b;
    } else {
      EmittedJoin(a[1..], b);
      assert (a + b)[1..] == a[1..] + b;
    }
  }

  lemma {:induction false} EmittedPair(a: Call, b: Call)
    ensures EmittedBy([a, b]) == (if a.Emit? then a.count else 0) + (if b.Emit? then b.count else 0)
  {
    assert [a, b][1..] == [b] && [b][1..] == [] && EmittedBy([]) == 0;
  }

  /** A group is credited with every node that is emitted from its start to its end. */
  lemma {:induction false} NodesAreEmitted(d: Doc)
    ensures Nodes(d) == EmittedBy(Calls(d))
    ensures d.Node? ==> Own(d) == EmittedBy([Begin(d.key), Emit(d.emits)] + Calls(d.kids) + [Close])
  {
    if d.Node? {
      hide EmittedBy;
      NodesAreEmitted(d.kids);
      NodesAreEmitted(d.next);
      var a, b, c, e := [Begin(d.key), Emit(d.emits)], Calls(d.kids), [Close, Emit(d.after)], Calls(d.next);
      EmittedPair(Begin(d.key), Emit(d.emits));
      EmittedPair(Close, Emit(d.after));
      EmittedJoin(a, b);
      EmittedJoin(a + b, c);
      EmittedJoin(a + b + c, e);
      EmittedJoin(a + b, [Close]);
      EmittedNone();
    } else {
      assert Calls(d) == [];
    }
  }

  lemma {:induction false} EmittedNone()
    ensures EmittedBy([Close]) == 0
  {
    assert [Close][1..] == [] && EmittedBy([]) == 0;
  }

  /** The group that the first node of d becomes. */
  function Group(d: Doc, parent: Option<nat>): Entry
    requires d.Node?
  {
    Entry(d.key, d.data, parent, d.words, Size(d.kids) % WRAP, Own(d) % WRAP, false, false)
  }

  /** es holds d in preorder from index lo on, below the given parent. */
  ghost predicate Enc(es: seq<Entry>, lo: nat, d: Doc, parent: Option<nat>)
    decreases d
  {
    d.Node? ==>
      && lo < |es| && es[lo] == Group(d, parent)
      && Enc(es, lo + 1, d.kids, Some(lo))
      && Enc(es, lo + 1 + Size(d.kids), d.next, parent)
  }

  /** The record without its flags. */
  function Plain(e: Entry): Entry {
    e.(inv := false, cinv := false)
  }

  /** es holds d in preorder from index lo on, below the given parent, whatever groups are flagged. */
  ghost predicate Stands(es: seq<Entry>, lo: nat, d: Doc, parent: Option<nat>)
    decreases d
  {
    d.Node? ==>
      && lo < |es| && Plain(es[lo]) == Group(d, parent)
      && Stands(es, lo + 1, d.kids, Some(lo))
      && Stands(es, lo + 1 + Size(d.kids), d.next, parent)
  }

  lemma {:induction false} EncStands(es: seq<Entry>, lo: nat, d: Doc, parent: Option<nat>)
    requires Enc(es, lo, d, parent)
    ensures Stands(es, lo, d, parent)
    decreases d
  {
    if d.Node? {
      EncStands(es, lo + 1, d.kids, Some(lo));
      EncStands(es, lo + 1 + Size(d.kids), d.next, parent);
    }
  }

  /** Flags do not matter. */
  lemma {:induction false} StandsFlagged(es: seq<Entry>, lo: nat, d: Doc, parent: Option<nat>, fs: seq<Entry>)
    requires Stands(es, lo, d, parent) && |fs| == |es|
    requires forall i {:trigger fs[i]} :: 0 <= i < |es| ==> Plain(fs[i]) == Plain(es[i])
    ensures Stands(fs, lo, d, parent)
    decreases d
  {
    if d.Node? {
      assert Plain(fs[lo]) == Plain(es[lo]);
      StandsFlagged(es, lo + 1, d.kids, Some(lo), fs);
      StandsFlagged(es, lo + 1 + Size(d.kids), d.next, parent, fs);
    }
  }

  /** The table that d is written into. */
  function Table(d: Doc, lo: nat, parent: Option<nat>): (r: seq<Entry>)
    ensures |r| == Size(d)
    decreases d
  {
    match d
    case Nil => []
    case Node(_, _, _, _, kids, _, next) =>
      [Group(d, parent)] + Table(kids, lo + 1, Some(lo)) + Table(next, lo + 1 + Size(kids), parent)
  }

  lemma {:induction false} Slices(es: seq<Entry>, lo: nat, mid: nat, hi: nat)
    requires lo < mid <= hi <= |es|
    ensures es[lo..hi] == [es[lo]] + es[lo + 1..mid] + es[mid..hi]
  {}

  lemma {:induction false} TableParts(es: seq<Entry>, lo: nat, mid: nat, hi: nat, d: Doc, parent: Option<nat>)
    requires Enc(es, lo, d, parent) && d.Node? && mid == lo + 1 + Size(d.kids) && hi == lo + Size(d) <= |es|
    ensures lo < mid <= hi && mid == (lo + 1) + Size(d.kids) && hi == mid + Size(d.next)
    ensures Table(d, lo, parent) == [es[lo]] + Table(d.kids, lo + 1, Some(lo)) + Table(d.next, mid, parent)
    ensures Enc(es, lo + 1, d.kids, Some(lo)) && Enc(es, mid, d.next, parent)
  {}

  /** A written table is that of the forest. */
  lemma {:induction false} EncTable(es: seq<Entry>, lo: nat, hi: nat, d: Doc, parent: Option<nat>)
    requires Enc(es, lo, d, parent) && hi == lo + Size(d) <= |es|
    ensures es[lo..hi] == Table(d, lo, parent)
    decreases d
  {
    if d.Node? {
      hide Group, Enc, Table, Size;
      var mid := lo + 1 + Size(d.kids);
      TableParts(es, lo, mid, hi, d, parent);
      EncTable(es, lo + 1, mid, d.kids, Some(lo));
      EncTable(es, mid, hi, d.next, parent);
      Slices(es, lo, mid, hi);
    }
  }

  lemma {:induction false} EncSame(es: seq<Entry>, lo: nat, d: Doc, parent: Option<nat>, fs: seq<Entry>)
    requires Enc(es, lo, d, parent) && lo + Size(d) <= |fs| && lo + Size(d) <= |es|
    requires forall i {:trigger fs[i]} :: lo <= i < lo + Size(d) ==> fs[i] == es[i]
    ensures Enc(fs, lo, d, parent)
    decreases d
  {
    if d.Node? {
      EncSame(es, lo + 1, d.kids, Some(lo), fs);
      EncSame(es, lo + 1 + Size(d.kids), d.next, parent, fs);
    }
  }

  // ------------------------------------------------------------------ the writer

  function Emitted(e: Entry, count: nat): Entry {
    e.(nodes := (e.nodes + count) % WRAP)
  }

  /** What closing group i of the given parent does: it gets its size, and its parent its
      nodes. */
  function Closed(es: seq<Entry>, i: nat, size: nat, parent: Option<nat>): (r: seq<Entry>)
    requires i < |es| && (parent.Some? ==> parent.value < i)
    ensures |r| == |es|
  {
    var fs := es[i := es[i].(size := size)];
    if parent.Some? then fs[parent.value := Emitted(fs[parent.value], fs[i].nodes)] else fs
  }

  function Top(stack: seq<nat>): Option<nat> {
    if stack == [] then None else Some(stack[|stack| - 1])
  }

  class SlotWriter {
    const table: SlotTable
    var stack: seq<nat>     // the open groups, outermost first

    ghost predicate Valid()
      reads this, table, table.groups, table.slots
    {
      && table.Valid() && |stack| <= MAX_DEPTH
      && (forall i {:trigger stack[i]} :: 0 <= i < |stack| ==> stack[i] < table.groupGap)
      && (forall i, j :: 0 <= i < j < |stack| ==> stack[i] < stack[j])
    }

    constructor (table: SlotTable)
      requires table.Valid()
      ensures Valid() && this.table == table && stack == []
    {
      this.table := table;
      stack := [];
    }

    /** Opens a group at the gap; None when the nesting or the table is exhausted. */
    method GroupStart(key: nat, data: Word) returns (at: Option<nat>)
      requires Valid()
      modifies this`stack, table`groupGap, table`groupGapLen, table`entries, table.groups
      ensures Valid()
      ensures at.None? <==> |old(stack)| >= MAX_DEPTH || old(table.groupGapLen) == 0
      ensures at.None? ==>
              stack == old(stack) && table.entries == old(table.entries) && table.groupGap == old(table.groupGap)
      ensures at.Some? ==>
                && at.value == old(table.groupGap) && stack == old(stack) + [at.value]
                && table.groupGap == at.value + 1 && table.groupGapLen == old(table.groupGapLen) - 1
                && table.entries == InsertedAt(old(table.entries), at.value,
                      Entry(key, data, Top(old(stack)), [], 0, 0, false, false))
    {
      if |stack| >= MAX_DEPTH || table.groupGapLen == 0 {
        return None;
      }
      var here := table.groupGap;
      table.OpenGroup(key, data, Top(stack));
      stack := stack + [here];
      return Some(here);
    }

    /** Adds a word to the open group.  It is where a reader looks for the next word of the group if and
        only if no child written so far has words; the layout stays that of groups with their words when
        the group has no children yet and its count does not wrap around. */
    method SlotWrite(v: Word) returns (ok: bool)
      requires Valid()
      modifies table`slotGap, table`slotGapLen, table`entries, table.groups, table.slots
      ensures ok == (stack != [] && old(table.slotGapLen) > 0)
      ensures !ok ==> Valid() && table.entries == old(table.entries) && table.slotGapLen == old(table.slotGapLen)
      ensures ok ==> table.slotGap == old(table.slotGap) + 1 && table.slotGapLen == old(table.slotGapLen) - 1
      ensures ok ==>
                var i := stack[|stack| - 1];
                && i < table.groups.Length && table.groups[..] ==
                      old(table.groups[..])[i := Counted(old(table.groups[i]))]
                && old(table.slotGap) < table.slots.Length
                      && table.slots[..] == old(table.slots[..])[old(table.slotGap) := v]
                && var at := old(table.groups[i].slotIndex + table.groups[i].slotCount);
                   at == old(table.slotGap) <==> Wordless(old(table.entries), i + 1, table.groupGap)
      ensures ok && stack[|stack| - 1] == table.groupGap - 1
              && |old(table.entries)[table.groupGap - 1].words| + 1 < WRAP ==>
                Valid() && table.entries == Extended(old(table.entries), table.groupGap - 1, v)
    {
      if stack == [] || table.slotGapLen == 0 {
        return false;
      }
      table.NextWord(stack[|stack| - 1]);
      table.AppendWord(stack[|stack| - 1], v);
      return true;
    }

    /** Adds to the node count of a group, which wraps around. */
    method AddNodes(i: nat, count: nat)
      requires table.Valid() && i < |table.entries|
      modifies table`entries, table.groups
      ensures table.Valid() && table.entries == old(table.entries)[i := Emitted(old(table.entries)[i], count)]
    {
      var r := table.Get(i);
      table.SetEntry(i, r.value.(nodes := (r.value.nodes + count) % WRAP));
    }

    /** Counts nodes for the open group. */
    method NodeEmit(count: nat) returns (ok: bool)
      requires Valid()
      modifies table`entries, table.groups
      ensures Valid() && ok == (stack != [])
      ensures !ok ==> table.entries == old(table.entries)
      ensures ok ==> var i := stack[|stack| - 1];
              table.entries == old(table.entries)[i := Emitted(old(table.entries)[i], count)]
    {
      if stack == [] {
        return false;
      }
      AddNodes(stack[|stack| - 1], count);
      return true;
    }

    /** Closes the open group: fills in its size and hands its nodes to its parent. */
    method GroupEnd() returns (ok: bool)
      requires Valid()
      modifies this`stack, table`entries, table.groups
      ensures Valid() && ok == (old(stack) != [])
      ensures !ok ==> stack == [] && table.entries == old(table.entries)
      ensures ok ==>
                var n := |old(stack)| - 1;
                var i := old(stack)[n];
                && stack == old(stack)[..n]
                && table.entries == Closed(old(table.entries), i, (table.groupGap - i - 1) % WRAP, Top(stack))
    {
      hide Start, Words, Gapped;
      if stack == [] {
        return false;
      }
      var n := |stack| - 1;
      var i := stack[n];
      stack := stack[..n];
      var r := table.Get(i);
      table.SetEntry(i, r.value.(size := (table.groupGap - i - 1) % WRAP));
      if n > 0 {
        AddNodes(stack[n - 1], r.value.nodes);
      }
      return true;
    }
  }

  // ------------------------------------------------------------------ writing a forest

  /** fs is es with n groups put in at index at and nodes credited to the open group. */
  ghost predicate Grown(es: seq<Entry>, at: nat, n: nat, top: Option<nat>, nodes: nat, fs: seq<Entry>) {
    && at <= |es| && |fs| == |es| + n
    && (forall i {:trigger fs[i]} :: 0 <= i < at ==>
          fs[i] == if top == Some(i) && n > 0 then Emitted(es[i], nodes) else es[i])
    && (forall i {:trigger fs[i]} :: at + n <= i < |fs| ==> fs[i] == es[i - n])
  }

  lemma {:induction false} WrapSum(a: nat, b: nat)
    ensures (a % WRAP + b) % WRAP == (a + b) % WRAP
  {}

  lemma {:induction false} EmittedTwice(e: Entry, a: nat, b: nat)
    ensures Emitted(Emitted(e, a), b) == Emitted(e, a + b)
    ensures Emitted(e, (a + b) % WRAP) == Emitted(e, a + b)
  {
    WrapSum(e.nodes + a, b);
    WrapSum(a + b, e.nodes);
  }

  /** Once its children are written and it is closed, a group has its final record. */
  lemma {:induction false} NodeRecord(es: seq<Entry>, g: nat, d: Doc, parent: Option<nat>, begun: seq<Entry>,
                                      filled: seq<Entry>,
                                      fs: seq<Entry>, n: nat)
    requires g <= |es| && d.Node? && (parent.Some? ==> parent.value < g) && n == Size(d.kids)
    requires begun == InsertedAt(es, g, Begun(d, parent))
    requires Grown(begun, g + 1, n, Some(g), Nodes(d.kids), filled) && Enc(filled, g + 1, d.kids, Some(g))
    requires fs == Closed(filled, g, n % WRAP, parent)
    ensures fs[g] == Group(d, parent) && filled[g].nodes == Own(d) % WRAP
    ensures Enc(fs, g + 1, d.kids, Some(g))
  {
    assert filled[g] == if n > 0 then Emitted(begun[g], Nodes(d.kids)) else begun[g];
    if n == 0 { assert Nodes(d.kids) == 0; }
    WrapSum(d.emits, Nodes(d.kids));
    assert fs[g] == filled[g].(size := n % WRAP);
    EncSame(filled, g + 1, d.kids, Some(g), fs);
  }

  /** Writing a node changes nothing else than the count of its parent. */
  lemma {:induction false} NodeGrown(es: seq<Entry>, g: nat, e: Entry, parent: Option<nat>, begun: seq<Entry>,
                                     filled: seq<Entry>,
                                     fs: seq<Entry>, n: nat, size: nat, below: nat, m: nat, total: nat)
    requires g <= |es| && (parent.Some? ==> parent.value < g) && m == n + 1
    requires begun == InsertedAt(es, g, e) && Grown(begun, g + 1, n, Some(g), below, filled)
    requires fs == Closed(filled, g, size, parent) && filled[g].nodes == total % WRAP
    ensures Grown(es, g, m, parent, total, fs)
  {
    forall i {:trigger fs[i]} | 0 <= i < g ensures fs[i] == if parent == Some(i) then Emitted(es[i], total) else es[i] {
      assert filled[i] == begun[i] == es[i];
      EmittedTwice(es[i], total, 0);
    }
    forall i {:trigger fs[i]} | g + m <= i < |fs| ensures fs[i] == es[i - m] {
      assert fs[i] == filled[i] == begun[i - n];
    }
  }

  lemma {:induction false} GrownTwice(es: seq<Entry>, g: nat, n1: nat, n2: nat, top: Option<nat>, c1: nat, c2: nat,
                                      mid: seq<Entry>,
                                      fs: seq<Entry>, h: nat, n: nat, c: nat)
    requires (top.Some? ==> top.value < g) && h == g + n1 && n == n1 + n2 && c == c1 + c2 && n1 > 0
             && (n2 == 0 ==> c2 == 0)
    requires Grown(es, g, n1, top, c1, mid) && Grown(mid, h, n2, top, c2, fs)
    ensures Grown(es, g, n, top, c, fs)
  {
    forall i {:trigger fs[i]} | 0 <= i < g ensures fs[i] == if top == Some(i) then Emitted(es[i], c) else es[i] {
      assert mid[i] == if top == Some(i) then Emitted(es[i], c1) else es[i];
      EmittedTwice(es[i], c1, c2);
    }
    forall i {:trigger fs[i]} | g + n <= i < |fs| ensures fs[i] == es[i - n] {
      assert fs[i] == mid[i - n2];
    }
  }

  /** Writes the slot words of the group begun last. */
  method WriteWords(w: SlotWriter, words: seq<Word>, ghost e: Entry)
    requires w.Valid() && w.stack != [] && w.stack[|w.stack| - 1] == w.table.groupGap - 1
             && |words| <= w.table.slotGapLen && |words| < WRAP
    requires w.table.entries[w.table.groupGap - 1] == e && e.words == []
    modifies w.table`slotGap, w.table`slotGapLen, w.table`entries, w.table.groups, w.table.slots
    ensures w.Valid() && w.table.slotGapLen == old(w.table.slotGapLen) - |words|
    ensures w.table.entries == old(w.table.entries)[w.table.groupGap - 1 := e.(words := words)]
  {
    hide Start, Words, Gapped, Wordless, Counted;
    var i := 0;
    assert w.table.entries == w.table.entries[w.table.groupGap - 1 := e.(words := words[..0])];
    while i < |words|
      invariant 0 <= i <= |words| && w.Valid() && w.table.slotGapLen == old(w.table.slotGapLen) - i
      invariant w.table.entries == old(w.table.entries)[w.table.groupGap - 1 := e.(words := words[..i])]
    {
      var ok := w.SlotWrite(words[i]);
      assert words[..i] + [words[i]] == words[..i + 1];
      i := i + 1;
    }
    assert words[..i] == words;
  }

  /** No group has more words than its counter can hold. */
  predicate Narrow(d: Doc) {
    d.Node? ==> |d.words| < WRAP && Narrow(d.kids) && Narrow(d.next)
  }

  /** There is room for d in the table and in the nesting. */
  ghost predicate RoomFor(w: SlotWriter, d: Doc)
    requires w.Valid()
    reads w, w.table, w.table.groups, w.table.slots
  {
    Narrow(d) && Size(d) <= w.table.groupGapLen && WordCount(d) <= w.table.slotGapLen
        && |w.stack| + Height(d) <= MAX_DEPTH
  }

  /** The record of a group that has its words and its own nodes, but no children yet. */
  function Begun(d: Doc, parent: Option<nat>): Entry
    requires d.Node?
  {
    Entry(d.key, d.data, parent, d.words, 0, d.emits % WRAP, false, false)
  }

  /** Opens the first node of d and writes its words and nodes. */
  method BeginNode(w: SlotWriter, d: Doc)
    requires w.Valid() && d.Node? && |w.stack| < MAX_DEPTH && 0 < w.table.groupGapLen && |d.words| <= w.table.slotGapLen
             && |d.words| < WRAP
    modifies w`stack, w.table`groupGap, w.table`groupGapLen, w.table`slotGap, w.table`slotGapLen, w.table`entries,
             w.table.groups, w.table.slots
    ensures w.Valid() && w.stack == old(w.stack) + [old(w.table.groupGap)]
    ensures w.table.groupGap == old(w.table.groupGap) + 1 && w.table.groupGapLen == old(w.table.groupGapLen) - 1
    ensures w.table.slotGapLen == old(w.table.slotGapLen) - |d.words|
    ensures old(w.table.groupGap) <= |old(w.table.entries)|
    ensures w.table.entries == InsertedAt(old(w.table.entries), old(w.table.groupGap), Begun(d, Top(old(w.stack))))
  {
    ghost var es, g, parent := w.table.entries, w.table.groupGap, Top(w.stack);
    ghost var blank := Entry(d.key, d.data, parent, [], 0, 0, false, false);
    var at := w.GroupStart(d.key, d.data);
    WriteWords(w, d.words, blank);
    var counted := w.NodeEmit(d.emits);
    InsertedThenSet(es, g, blank, blank.(words := d.words), Begun(d, parent));
  }

  lemma {:induction false} InsertedThenSet(es: seq<Entry>, g: nat, a: Entry, b: Entry, c: Entry)
    requires g <= |es|
    ensures InsertedAt(es, g, a)[g := b][g := c] == InsertedAt(es, g, c)
  {}

  /** Writes the first tree of d at the gap. */
  method WriteNode(w: SlotWriter, d: Doc)
    requires w.Valid() && d.Node? && |w.stack| + 1 + Height(d.kids) <= MAX_DEPTH
    requires 1 + Size(d.kids) <= w.table.groupGapLen && |d.words| + WordCount(d.kids) <= w.table.slotGapLen
             && |d.words| < WRAP && Narrow(d.kids)
    modifies w`stack, w.table`groupGap, w.table`groupGapLen, w.table`slotGap, w.table`slotGapLen, w.table`entries,
             w.table.groups, w.table.slots
    ensures w.Valid() && w.stack == old(w.stack)
    ensures w.table.groupGap == old(w.table.groupGap) + 1 + Size(d.kids)
    ensures w.table.groupGapLen == old(w.table.groupGapLen) - 1 - Size(d.kids)
    ensures w.table.slotGapLen == old(w.table.slotGapLen) - |d.words| - WordCount(d.kids)
    ensures Written(old(w.table.entries), old(w.table.groupGap), d, Top(w.stack), w.table.entries)
    decreases d, 0
  {
    hide Start, Words, Gapped;
    ghost var es, g, parent := w.table.entries, w.table.groupGap, Top(w.stack);
    BeginNode(w, d);
    ghost var begun := w.table.entries;
    ghost var h := w.table.groupGap;
    assert Top(w.stack) == Some(g) && w.stack[..|w.stack| - 1] == old(w.stack);
    WriteDoc(w, d.kids);
    EndNode(w, d, es, g, h, parent, begun);
  }

  /** Closes the node that was begun at g, once its children are written. */
  method EndNode(w: SlotWriter, ghost d: Doc, ghost es: seq<Entry>, ghost g: nat, ghost h: nat,
                 ghost parent: Option<nat>, ghost begun: seq<Entry>)
    requires w.Valid() && w.stack != [] && w.stack[|w.stack| - 1] == g && Top(w.stack[..|w.stack| - 1]) == parent
    requires g <= |es| && d.Node? && (parent.Some? ==> parent.value < g) && h == g + 1
             && w.table.groupGap == h + Size(d.kids)
    requires begun == InsertedAt(es, g, Begun(d, parent))
    requires Grown(begun, h, Size(d.kids), Some(g), Nodes(d.kids), w.table.entries)
    requires Enc(w.table.entries, h, d.kids, Some(g))
    modifies w`stack, w.table`entries, w.table.groups
    ensures w.Valid() && w.stack == old(w.stack)[..|old(w.stack)| - 1]
    ensures Written(es, g, d, parent, w.table.entries)
  {
    ghost var filled := w.table.entries;
    assert w.table.groupGap - g - 1 == Size(d.kids);
    var closed := w.GroupEnd();
    NodeWritten(es, g, h, d, parent, begun, filled, w.table.entries);
  }

  /** fs is es with the first tree of d written at index g below the given parent. */
  ghost predicate Written(es: seq<Entry>, g: nat, d: Doc, parent: Option<nat>, fs: seq<Entry>)
    requires d.Node?
  {
    && Grown(es, g, 1 + Size(d.kids), parent, Own(d), fs)
    && g < |fs| && fs[g] == Group(d, parent) && Enc(fs, g + 1, d.kids, Some(g))
  }

  lemma {:induction false} NodeWritten(es: seq<Entry>, g: nat, h: nat, d: Doc, parent: Option<nat>, begun: seq<Entry>,
                                       filled: seq<Entry>,
                                       fs: seq<Entry>)
    requires g <= |es| && d.Node? && (parent.Some? ==> parent.value < g) && h == g + 1
    requires begun == InsertedAt(es, g, Begun(d, parent))
    requires Grown(begun, h, Size(d.kids), Some(g), Nodes(d.kids), filled) && Enc(filled, h, d.kids, Some(g))
    requires fs == Closed(filled, g, Size(d.kids) % WRAP, parent)
    ensures Written(es, g, d, parent, fs)
  {
    var n := Size(d.kids);
    NodeRecord(es, g, d, parent, begun, filled, fs, n);
    NodeGrown(es, g, Begun(d, parent), parent, begun, filled, fs, n, n % WRAP, Nodes(d.kids), 1 + n, Own(d));
  }

  /** Writes d at the gap, below the open group. */
  method WriteDoc(w: SlotWriter, d: Doc)
    requires w.Valid() && RoomFor(w, d)
    modifies w`stack, w.table`groupGap, w.table`groupGapLen, w.table`slotGap, w.table`slotGapLen, w.table`entries,
             w.table.groups, w.table.slots
    ensures w.Valid() && w.stack == old(w.stack)
    ensures w.table.groupGap == old(w.table.groupGap) + Size(d)
    ensures w.table.groupGapLen == old(w.table.groupGapLen) - Size(d)
    ensures w.table.slotGapLen == old(w.table.slotGapLen) - WordCount(d)
    ensures Grown(old(w.table.entries), old(w.table.groupGap), Size(d), Top(w.stack), Nodes(d), w.table.entries)
    ensures Enc(w.table.entries, old(w.table.groupGap), d, Top(w.stack))
    decreases d, 1
  {
    ghost var es, g, parent := w.table.entries, w.table.groupGap, Top(w.stack);
    if d.Nil? {
      GrownNone(es, g, parent);
      return;
    }
    WriteNode(w, d);
    ghost var done := w.table.entries;
    var counted := w.NodeEmit(d.after);
    ghost var mid, h := w.table.entries, w.table.groupGap;
    AfterCounted(es, g, d, parent, done, mid);
    WriteDoc(w, d.next);
    DocWritten(es, g, d, parent, mid, h, w.table.entries);
  }

  /** The parent emits nodes after the first tree of d. */
  lemma {:induction false} AfterCounted(es: seq<Entry>, g: nat, d: Doc, parent: Option<nat>, done: seq<Entry>,
                                        mid: seq<Entry>)
    requires d.Node? && g <= |es| && (parent.Some? ==> parent.value < g) && Written(es, g, d, parent, done)
    requires mid == if parent.Some? then done[parent.value := Emitted(done[parent.value], d.after)] else done
    ensures Grown(es, g, 1 + Size(d.kids), parent, Own(d) + d.after, mid)
    ensures g < |mid| && mid[g] == Group(d, parent) && Enc(mid, g + 1, d.kids, Some(g))
  {
    forall i {:trigger mid[i]} | 0 <= i < g
      ensures mid[i] == if parent == Some(i) then Emitted(es[i], Own(d) + d.after) else es[i]
    {
      assert done[i] == if parent == Some(i) then Emitted(es[i], Own(d)) else es[i];
      EmittedTwice(es[i], Own(d), d.after);
    }
    forall i {:trigger mid[i]} | g + 1 + Size(d.kids) <= i < |mid| ensures mid[i] == es[i - (1 + Size(d.kids))] {
      assert mid[i] == done[i];
    }
    EncSame(done, g + 1, d.kids, Some(g), mid);
  }

  lemma {:induction false} DocWritten(es: seq<Entry>, g: nat, d: Doc, parent: Option<nat>, mid: seq<Entry>, h: nat,
                                      fs: seq<Entry>)
    requires d.Node? && (parent.Some? ==> parent.value < g) && h == g + 1 + Size(d.kids)
    requires Grown(es, g, 1 + Size(d.kids), parent, Own(d) + d.after, mid)
    requires g < |mid| && mid[g] == Group(d, parent) && Enc(mid, g + 1, d.kids, Some(g))
    requires Grown(mid, h, Size(d.next), parent, Nodes(d.next), fs) && Enc(fs, h, d.next, parent)
    ensures Grown(es, g, Size(d), parent, Nodes(d), fs) && Enc(fs, g, d, parent)
  {
    GrownTwice(es, g, 1 + Size(d.kids), Size(d.next), parent, Own(d) + d.after, Nodes(d.next), mid, fs, h, Size(d),
        Nodes(d));
    assert fs[g] == mid[g];
    EncSame(mid, g + 1, d.kids, Some(g), fs);
  }

  lemma {:induction false} GrownNone(es: seq<Entry>, at: nat, top: Option<nat>)
    requires at <= |es|
    ensures Grown(es, at, 0, top, 0, es)
  {}
}

/** What the double buffering guarantees over any run of registry operations. */
module Snapshots {
  import opened Basics
  import opened State

  datatype Op =
    | Subscribing(id: CellId, key: Key)
    | Unsubscribing(key: Key)
    | Mutating(id: CellId, value: Payload)
    | Creating(id: CellId, value: Payload)
    | Retiring(id: CellId)
    | Publishing

  function Do(cells: seq<Cell>, op: Op): seq<Cell> {
    match op
    case Subscribing(id, key) => Subscribe(cells, id, key)
    case Unsubscribing(key) => Unsubscribe(cells, key)
    case Mutating(id, value) => Stage(cells, id, value)
    case Creating(id, value) => Create(cells, id, value)
    case Retiring(id) => Retire(cells, id)
    case Publishing => Publish(cells)
  }

  function DoAll(cells: seq<Cell>, ops: seq<Op>): seq<Cell>
    decreases |ops|
  {
    if ops == [] then cells else DoAll(Do(cells, ops[0]), ops[1..])
  }

  // ------------------------------------------------------------------ invariant

  predicate NoRepeats(keys: seq<Key>) {
    forall i, j :: 0 <= i < j < |keys| ==> keys[i] != keys[j]
  }

  /** A clean cell shows what it last staged; nobody watches twice. */
  predicate Coherent(cell: Cell) {
    && (cell.inUse ==> cell.id != 0)
    && (cell.inUse && !cell.dirty ==> cell.front == cell.back)
    && NoRepeats(cell.watchers) && |cell.watchers| <= MAX_WATCHERS && 0 !in cell.watchers
  }

  /** Every cell is coherent and no two cells in use share an id. */
  predicate Sound(cells: seq<Cell>) {
    && (forall i :: 0 <= i < |cells| ==> Coherent(cells[i]))
    && (forall i, j :: 0 <= i < j < |cells| && cells[i].inUse && cells[j].inUse ==> cells[i].id != cells[j].id)
  }

  lemma {:induction false} WithoutRepeats(keys: seq<Key>, key: Key)
    requires NoRepeats(keys)
    ensures NoRepeats(Without(keys, key))
    decreases |keys|
  {
    if keys != [] {
      WithoutRepeats(keys[1..], key);
      var rest := Without(keys[1..], key);
      assert keys[0] !in keys[1..] by {
        forall j | 0 <= j < |keys[1..]| ensures keys[1..][j] != keys[0] { assert keys[1..][j] == keys[j + 1]; }
      }
    }
  }

  /** Replacing a cell by a coherent one of the same name, or one out of use. */
  lemma {:induction false} ReplaceKeeps(cells: seq<Cell>, i: nat, cell: Cell)
    requires Sound(cells) && i < |cells| && Coherent(cell)
    requires cell.inUse ==> cells[i].inUse && cell.id == cells[i].id
    ensures Sound(cells[i := cell])
  {}

  lemma {:induction false} UnsubscribeKeeps(cells: seq<Cell>, key: Key)
    requires Sound(cells)
    ensures Sound(Unsubscribe(cells, key))
  {
    var r := Unsubscribe(cells, key);
    forall i | 0 <= i < |r| ensures Coherent(r[i]) {
      WithoutRepeats(cells[i].watchers, key);
      assert Coherent(cells[i]);
    }
  }

  /** Every operation keeps the registry sound. */
  lemma {:induction false} DoKeeps(cells: seq<Cell>, op: Op)
    requires Sound(cells) && (op.Creating? ==> op.id != 0)
    ensures Sound(Do(cells, op))
  {
    match op {
      case Unsubscribing(key) => UnsubscribeKeeps(cells, key);
      case Publishing =>
      case Creating(id, value) => CreateKeeps(cells, id, value);
      case Subscribing(id, key) =>
        var i := Find(cells, id);
        if Do(cells, op) != cells { ReplaceKeeps(cells, i, Do(cells, op)[i]); }
      case Mutating(id, value) =>
        var i := Find(cells, id);
        if i < |cells| { ReplaceKeeps(cells, i, Do(cells, op)[i]); }
      case Retiring(id) =>
        var i := Find(cells, id);
        if i < |cells| { ReplaceKeeps(cells, i, Do(cells, op)[i]); }
    }
  }

  lemma {:induction false} CreateKeeps(cells: seq<Cell>, id: CellId, value: Payload)
    requires Sound(cells) && id != 0
    ensures Sound(Create(cells, id, value))
  {
    var r := Create(cells, id, value);
    if r != cells {
      forall i | 0 <= i < |cells| && cells[i].inUse ensures cells[i].id != id {
        assert !Names(cells[i], id);
      }
    }
  }

  /** Over any run from an empty registry, clean cells show what they last staged, ids in use
      are unique and watcher lists hold no key twice. */
  lemma {:induction false} RunStaysSound(cells: seq<Cell>, ops: seq<Op>)
    requires Sound(cells) && forall i :: 0 <= i < |ops| && ops[i].Creating? ==> ops[i].id != 0
    ensures Sound(DoAll(cells, ops))
    decreases |ops|
  {
    if ops != [] {
      DoKeeps(cells, ops[0]);
      RunStaysSound(Do(cells, ops[0]), ops[1..]);
    }
  }

  // ------------------------------------------------------------------ isolation

  lemma {:induction false} FindStays(a: seq<Cell>, b: seq<Cell>, id: CellId, i: nat)
    requires |a| <= |b| && i <= |a| && FindFrom(a, id, i) < |a|
    requires forall j :: 0 <= j < |a| ==> b[j].id == a[j].id && b[j].inUse == a[j].inUse
    ensures FindFrom(b, id, i) == FindFrom(a, id, i)
    decreases |a| - i
  {
    if !Names(a[i], id) {
      FindStays(a, b, id, i + 1);
    }
  }

  /** What op leaves alone about the cell that id names: its name, and its buffers except as said. */
  ghost predicate Undisturbed(a: seq<Cell>, b: seq<Cell>, id: CellId) {
    var i := Find(a, id);
    && i < |a| && Find(b, id) == i && i < |b|
    && b[i].front == a[i].front && b[i].back == a[i].back && b[i].dirty == a[i].dirty
  }

  /** Front buffers change only in publication and when cells come and go; in particular no
      mutation is visible before it is published. */
  lemma {:induction false} FrontIsStable(cells: seq<Cell>, op: Op, id: CellId)
    requires Find(cells, id) < |cells| && !op.Publishing? && op != Retiring(id)
    requires Sound(cells)
    ensures var r, i := Do(cells, op), Find(cells, id);
            && Find(r, id) == i && i < |r| && r[i].front == cells[i].front
            && ((op.Mutating? && op.id == id) || Undisturbed(cells, r, id))
  {
    var r, i := Do(cells, op), Find(cells, id);
    if op.Retiring? {
      RetireElsewhere(cells, op.id, id);
    } else {
      FindStays(cells, r, id, 0);
    }
    if op.Mutating? && op.id != id {
      var j := Find(cells, op.id);
      assert j < |cells| ==> cells[j].id == op.id;
    }
  }

  lemma {:induction false} RetireElsewhere(cells: seq<Cell>, other: CellId, id: CellId)
    requires Find(cells, id) < |cells| && other != id
    ensures Undisturbed(cells, Retire(cells, other), id)
  {
    var i, j, r := Find(cells, id), Find(cells, other), Retire(cells, other);
    assert j < |cells| ==> cells[j].id == other;
    SkipTo(r, id, 0, i);
  }

  lemma {:induction false} SkipTo(cells: seq<Cell>, id: CellId, from: nat, i: nat)
    requires from <= i < |cells| && Names(cells[i], id) && forall j :: from <= j < i ==> !Names(cells[j], id)
    ensures FindFrom(cells, id, from) == i
    decreases i - from
  {
    if from < i {
      SkipTo(cells, id, from + 1, i);
    }
  }

  /** Between two publications every reader of a cell sees the same value, whatever happens. */
  lemma {:induction false} ReadsAgree(cells: seq<Cell>, ops: seq<Op>, id: CellId)
    requires Sound(cells) && Find(cells, id) < |cells|
    requires forall i :: 0 <= i < |ops| ==> !ops[i].Publishing? && ops[i] != Retiring(id) && (ops[i].Creating? ==>
             ops[i].id != 0)
    ensures var r := DoAll(cells, ops); id in Snap(r) && id in Snap(cells) && Snap(r)[id] == Snap(cells)[id]
    decreases |ops|
  {
    hide Snap, Find, Do;
    SnapAt(cells, id);
    if ops != [] {
      var next := Do(cells, ops[0]);
      FrontIsStable(cells, ops[0], id);
      DoKeeps(cells, ops[0]);
      SnapAt(next, id);
      ReadsAgree(next, ops[1..], id);
    }
  }

  /** Publication shows, for every cell, exactly what was staged last. */
  lemma {:induction false} PublishShowsBack(cells: seq<Cell>, id: CellId)
    requires Sound(cells) && Find(cells, id) < |cells|
    ensures var r := Publish(cells); id in Snap(r) && Snap(r)[id] == cells[Find(cells, id)].back
  {
    var r := Publish(cells);
    FindStays(cells, r, id, 0);
    SnapAt(r, id);
    assert Coherent(cells[Find(cells, id)]);
  }

  /** The last mutation of a cell wins: it is what the next publication shows, however many
      other operations come in between. */
  lemma {:induction false} LastMutationWins(cells: seq<Cell>, id: CellId, value: Payload, ops: seq<Op>)
    requires Sound(cells) && Find(cells, id) < |cells|
    requires forall i :: 0 <= i < |ops| ==>
               && !ops[i].Publishing? && ops[i] != Retiring(id) && (ops[i].Creating? ==> ops[i].id != 0)
               && !(ops[i].Mutating? && ops[i].id == id)
    ensures var r := Publish(DoAll(Stage(cells, id, value), ops)); id in Snap(r) && Snap(r)[id] == value
  {
    var staged := Stage(cells, id, value);
    DoKeeps(cells, Mutating(id, value));
    FindStays(cells, staged, id, 0);
    BackIsStable(staged, ops, id);
    RunStaysSound(staged, ops);
    PublishShowsBack(DoAll(staged, ops), id);
  }

  lemma {:induction false} BackIsStable(cells: seq<Cell>, ops: seq<Op>, id: CellId)
    requires Sound(cells) && Find(cells, id) < |cells|
    requires forall i :: 0 <= i < |ops| ==>
               && !ops[i].Publishing? && ops[i] != Retiring(id) && (ops[i].Creating? ==> ops[i].id != 0)
               && !(ops[i].Mutating? && ops[i].id == id)
    ensures Undisturbed(cells, DoAll(cells, ops), id)
    decreases |ops|
  {
    if ops != [] {
      FrontIsStable(cells, ops[0], id);
      DoKeeps(cells, ops[0]);
      BackIsStable(Do(cells, ops[0]), ops[1..], id);
    }
  }

  // ------------------------------------------------------------------ cells come and go

  /** A cell created under a new name shows the value it was given, clean and without watchers, and
      every other cell shows what it did. */
  lemma {:induction false} CreateShows(cells: seq<Cell>, id: CellId, v: Payload)
    requires id != 0 && Find(cells, id) == |cells| < MAX_STATES
    ensures var r := Create(cells, id, v);
            && r == cells + [Cell(id, v, v, false, true, [])] && Find(r, id) == |cells|
            && Snap(r) == Snap(cells)[id := v]
  {
    var r := Create(cells, id, v);
    SkipTo(r, id, 0, |cells|);
    var shown, wanted := Snap(r), Snap(cells)[id := v];
    forall c ensures SameCell(shown, wanted, c) {
      SnapAt(r, c);
      SnapAt(cells, c);
      if c != id { FindAmong(cells, r[|cells|], c); }
    }
    SnapshotsEqual(shown, wanted);
  }

  /** A cell of another name changes no lookup. */
  lemma {:induction false} FindAmong(cells: seq<Cell>, cell: Cell, c: CellId)
    requires cell.id != c
    ensures var i := Find(cells, c); Find(cells + [cell], c) == if i < |cells| then i else |cells| + 1
    ensures Find(cells, c) < |cells| ==> (cells + [cell])[Find(cells, c)] == cells[Find(cells, c)]
  {
    var r, i := cells + [cell], Find(cells, c);
    if c != 0 && i < |cells| {
      SkipTo(r, c, 0, i);
    } else if c != 0 {
      forall j | 0 <= j < |r| ensures !Names(r[j], c) {}
    }
  }

  /** A retired cell is found no more and watched by nobody; all others stay as they are. */
  lemma {:induction false} RetireForgets(cells: seq<Cell>, id: CellId, other: CellId)
    requires Sound(cells) && Find(cells, id) < |cells|
    ensures var r := Retire(cells, id);
            && Find(r, id) == |r| && id !in Snap(r) && (forall k :: !Watching(r, id, k))
            && (other != id && Find(cells, other) < |cells| ==> Undisturbed(cells, r, other))
  {
    var i, r := Find(cells, id), Retire(cells, id);
    forall j | 0 <= j < |r| ensures !Names(r[j], id) {
      if j != i { assert r[j] == cells[j] && cells[i].id == id; }
    }
    SnapAt(r, id);
    if other != id && Find(cells, other) < |cells| { RetireElsewhere(cells, id, other); }
  }

  // ------------------------------------------------------------------ room for watchers

  /** A subscription is recorded if and only if the cell exists and the group already watches
      it or its list has room. */
  lemma {:induction false} SubscribeRecords(cells: seq<Cell>, id: CellId, key: Key)
    requires key != 0
    ensures Watching(Subscribe(cells, id, key), id, key) <==>
            var i := Find(cells, id); i < |cells| && (key in cells[i].watchers || |cells[i].watchers| < MAX_WATCHERS)
  {
    WatchersOnly(cells, Subscribe(cells, id, key), id);
  }

  /** The keys that are not queued yet. */
  function New(queue: seq<Key>, keys: seq<Key>): set<Key> {
    set k | k in keys && k !in queue
  }

  lemma {:induction false} NewMore(queue: seq<Key>, front: seq<Key>, last: Key)
    ensures |New(queue, front + [last])| == |New(queue, front)| + if last in queue || last in front then 0 else 1
  {
    var before, after := New(queue, front), New(queue, front + [last]);
    forall k ensures k in after <==> k in before || (k == last && last !in queue) {}
    if last in queue || last in front {
      assert after == before;
    } else {
      assert after == before + {last};
    }
  }

  lemma {:induction false} EnqueueBounds(queue: seq<Key>, keys: seq<Key>)
    requires |queue| <= MAX_QUEUE
    ensures var r := Enqueue(queue, keys);
            |r| <= MAX_QUEUE && (forall k :: k in r ==> k in queue || k in keys) && (forall k :: k in queue ==> k in r)
    decreases |keys|
  {
    if keys != [] {
      EnqueueBounds(queue, keys[..|keys| - 1]);
    }
  }

  /** Keys that fit are all queued. */
  lemma {:induction false} EnqueueFits(queue: seq<Key>, keys: seq<Key>)
    requires |queue| + |New(queue, keys)| <= MAX_QUEUE
    ensures var r := Enqueue(queue, keys); |r| == |queue| + |New(queue, keys)| && forall k :: k in keys ==> k in r
    decreases |keys|
  {
    if keys == [] {
      assert New(queue, keys) == {};
    } else {
      var front, last := keys[..|keys| - 1], keys[|keys| - 1];
      assert keys == front + [last];
      NewMore(queue, front, last);
      EnqueueFits(queue, front);
      EnqueueBounds(queue, front);
    }
  }

  /** When they do not fit, one is lost. */
  lemma {:induction false} EnqueueOverflows(queue: seq<Key>, keys: seq<Key>) returns (k: Key)
    requires |queue| <= MAX_QUEUE < |queue| + |New(queue, keys)|
    ensures |Enqueue(queue, keys)| == MAX_QUEUE && k in keys && k !in Enqueue(queue, keys)
    decreases |keys|
  {
    var front, last := keys[..|keys| - 1], keys[|keys| - 1];
    assert keys == front + [last];
    NewMore(queue, front, last);
    EnqueueBounds(queue, front);
    if |queue| + |New(queue, front)| > MAX_QUEUE {
      k := EnqueueOverflows(queue, front);
    } else {
      EnqueueFits(queue, front);
      k := last;
    }
  }

  /** A mutation schedules every watcher if and only if the watchers that are not queued yet
      fit into the queue. */
  lemma {:induction false} AllScheduled(queue: seq<Key>, keys: seq<Key>)
    requires |queue| <= MAX_QUEUE
    ensures (forall k :: k in keys ==> k in Enqueue(queue, keys)) <==> |queue| + |New(queue, keys)| <= MAX_QUEUE
  {
    if |queue| + |New(queue, keys)| <= MAX_QUEUE {
      EnqueueFits(queue, keys);
    } else {
      var k := EnqueueOverflows(queue, keys);
    }
  }

  /** For a full queue the watcher that a mutation should schedule is lost. */
  lemma {:induction false} FullQueueLoses()
    ensures var queue := seq(MAX_QUEUE, i => i + 1);
            var key := MAX_QUEUE + 1;
            key !in Enqueue(queue, [key])
  {
    var queue: seq<Key> := seq(MAX_QUEUE, i => i + 1);
    var key: Key := MAX_QUEUE + 1;
    assert [key][..0] == [];
    assert Enqueue(queue, [key]) == EnqueueOne(Enqueue(queue, []), key);
  }
}

/** The double-buffered registry of reactive state cells. */
module State {
  import opened Basics

  type CellId = nat
  type Payload = seq<int>

  const MAX_STATES: nat := 2048
  const MAX_WATCHERS: nat := 32
  const MAX_QUEUE: nat := 2048

  datatype Cell = Cell(
    id: CellId,
    front: Payload,        // the published snapshot
    back: Payload,         // the staging buffer
    dirty: bool,           // back holds a mutation that is not published yet
    inUse: bool,
    watchers: seq<Key>     // keys of the subscribed groups
  )

  predicate Names(cell: Cell, id: CellId) {
    cell.inUse && cell.id == id
  }

  /** Index of the cell named id at or after index i, or |cells|. */
  function FindFrom(cells: seq<Cell>, id: CellId, i: nat): (r: nat)
    requires i <= |cells|
    ensures i <= r <= |cells|
    ensures r < |cells| ==> Names(cells[r], id)
    ensures forall j :: i <= j < r ==> !Names(cells[j], id)
    decreases |cells| - i
  {
    if i == |cells| || Names(cells[i], id) then i else FindFrom(cells, id, i + 1)
  }

  /** Index of the cell a lookup of id resolves to, or |cells|; the id 0 names nothing. */
  function Find(cells: seq<Cell>, id: CellId): (r: nat)
    ensures r <= |cells|
    ensures r < |cells| ==> id != 0 && Names(cells[r], id)
    ensures id != 0 ==> forall j :: 0 <= j < r ==> !Names(cells[j], id)
  {
    if id == 0 then |cells| else FindFrom(cells, id, 0)
  }

  type Snapshot = map<CellId, Payload>

  /** The values every reader sees: the front buffers of the cells in use. */
  function Snap(cells: seq<Cell>): Snapshot {
    map c | c in (set cell | cell in cells :: cell.id) && Find(cells, c) < |cells| :: cells[Find(cells, c)].front
  }

  /** Key is subscribed to the cell id. */
  predicate Watching(cells: seq<Cell>, id: CellId, key: Key) {
    var i := Find(cells, id);
    i < |cells| && key in cells[i].watchers
  }

  function Subscribe(cells: seq<Cell>, id: CellId, key: Key): (r: seq<Cell>)
    ensures |r| == |cells|
  {
    var i := Find(cells, id);
    if i == |cells| || key == 0 || key in cells[i].watchers || |cells[i].watchers| >= MAX_WATCHERS then cells
    else cells[i := cells[i].(watchers := cells[i].watchers + [key])]
  }

  function Without(keys: seq<Key>, key: Key): (r: seq<Key>)
    ensures |r| <= |keys|
    ensures forall k :: k in r <==> k in keys && k != key
  {
    if keys == [] then []
    else if keys[0] == key then Without(keys[1..], key)
    else [keys[0]] + Without(keys[1..], key)
  }

  function Forget(cell: Cell, key: Key): Cell {
    if cell.inUse && key != 0 then cell.(watchers := Without(cell.watchers, key)) else cell
  }

  function Unsubscribe(cells: seq<Cell>, key: Key): (r: seq<Cell>)
    ensures |r| == |cells|
  {
    seq(|cells|, i requires 0 <= i < |cells| => Forget(cells[i], key))
  }

  function Published(cell: Cell): Cell {
    if cell.inUse && cell.dirty then cell.(front := cell.back, dirty := false) else cell
  }

  function Publish(cells: seq<Cell>): (r: seq<Cell>)
    ensures |r| == |cells|
  {
    seq(|cells|, i requires 0 <= i < |cells| => Published(cells[i]))
  }

  /** Stage v as the next value of cell id. */
  function Stage(cells: seq<Cell>, id: CellId, v: Payload): (r: seq<Cell>)
    ensures |r| == |cells|
  {
    var i := Find(cells, id);
    if i == |cells| then cells else cells[i := cells[i].(back := v, dirty := true)]
  }

  function WatchersOf(cells: seq<Cell>, id: CellId): seq<Key> {
    var i := Find(cells, id);
    if i == |cells| then [] else cells[i].watchers
  }

  function EnqueueOne(queue: seq<Key>, key: Key): seq<Key> {
    if key in queue || |queue| >= MAX_QUEUE then queue else queue + [key]
  }

  /** queue after scheduling keys in order, each at most once, as far as there is room. */
  function Enqueue(queue: seq<Key>, keys: seq<Key>): seq<Key>
    decreases |keys|
  {
    if keys == [] then queue
    else EnqueueOne(Enqueue(queue, keys[..|keys| - 1]), keys[|keys| - 1])
  }

  /** Scheduling keeps what is queued, adds given keys only, each once, and leaves one out only when the
      queue is full. */
  lemma {:induction false} EnqueueAdds(queue: seq<Key>, keys: seq<Key>)
    ensures var r := Enqueue(queue, keys);
            && queue <= r && (forall k :: k in r ==> k in queue || k in keys)
            && (forall i, j :: |queue| <= i < |r| && 0 <= j < i ==> r[i] != r[j])
            && (|queue| <= MAX_QUEUE ==> |r| <= MAX_QUEUE)
            && (|r| < MAX_QUEUE ==> forall k :: k in keys ==> k in r)
    decreases |keys|
  {
    if keys != [] {
      var front, last := keys[..|keys| - 1], keys[|keys| - 1];
      var before, r := Enqueue(queue, front), Enqueue(queue, keys);
      EnqueueAdds(queue, front);
      assert keys == front + [last];
      assert r == before || r == before + [last];
      if r == before + [last] { assert r[|before|] == last; }
    }
  }

  function Create(cells: seq<Cell>, id: CellId, v: Payload): (r: seq<Cell>) {
    if Find(cells, id) < |cells| || |cells| >= MAX_STATES then cells
    else cells + [Cell(id, v, v, false, true, [])]
  }

  /** The cell is given back when its owning group unmounts. */
  function Retire(cells: seq<Cell>, id: CellId): (r: seq<Cell>)
    ensures |r| == |cells|
  {
    var i := Find(cells, id);
    if i == |cells| then cells else cells[i := cells[i].(inUse := false, watchers := [], dirty := false)]
  }

  // ------------------------------------------------------------------ what an operation may change

  /** a and b have the same cells under the same names. */
  ghost predicate SameNames(a: seq<Cell>, b: seq<Cell>) {
    && |a| == |b|
    && forall i {:trigger b[i]} :: 0 <= i < |a| ==> b[i].id == a[i].id && b[i].inUse == a[i].inUse
  }

  /** a and b differ in their watcher lists at most. */
  ghost predicate OnlyWatchers(a: seq<Cell>, b: seq<Cell>) {
    && |a| == |b|
    && forall i {:trigger b[i]} :: 0 <= i < |a| ==> b[i] == a[i].(watchers := b[i].watchers)
  }

  lemma {:induction false} FindSame(a: seq<Cell>, b: seq<Cell>, id: CellId, i: nat)
    requires SameNames(a, b) && i <= |a|
    ensures FindFrom(a, id, i) == FindFrom(b, id, i)
    decreases |a| - i
  {
    if i < |a| {
      assert b[i].id == a[i].id;
      if !Names(a[i], id) {
        FindSame(a, b, id, i + 1);
      }
    }
  }

  /** Lookups depend on the names only. */
  lemma {:induction false} NamesOnly(a: seq<Cell>, b: seq<Cell>, id: CellId)
    requires SameNames(a, b)
    ensures Find(a, id) == Find(b, id)
  {
    if id != 0 {
      FindSame(a, b, id, 0);
    }
  }

  lemma {:induction false} WatchersOnly(a: seq<Cell>, b: seq<Cell>, id: CellId)
    requires OnlyWatchers(a, b)
    ensures Find(a, id) == Find(b, id)
  {
    NamesOnly(a, b, id);
  }

  /** The snapshot holds exactly the ids that a lookup finds. */
  lemma {:induction false} SnapAt(cells: seq<Cell>, c: CellId)
    ensures c in Snap(cells) <==> Find(cells, c) < |cells|
    ensures c in Snap(cells) ==> Snap(cells)[c] == cells[Find(cells, c)].front
  {
    var i := Find(cells, c);
    if i < |cells| {
      assert cells[i] in cells && cells[i].id == c;
    }
  }

  /** f and g give a reader of c the same answer. */
  predicate SameCell(f: Snapshot, g: Snapshot, c: CellId) {
    (c in f <==> c in g) && (c in f ==> f[c] == g[c])
  }

  lemma {:induction false} SnapshotsEqual(f: Snapshot, g: Snapshot)
    requires forall c :: SameCell(f, g, c)
    ensures f == g
  {
    forall c ensures c in f <==> c in g {
      assert SameCell(f, g, c);
    }
    forall c | c in f ensures f[c] == g[c] {
      assert SameCell(f, g, c);
    }
  }

  /** Watcher lists do not show in the snapshot. */
  lemma {:induction false} SnapSame(a: seq<Cell>, b: seq<Cell>)
    requires OnlyWatchers(a, b)
    ensures Snap(a) == Snap(b)
  {
    var f, g := Snap(a), Snap(b);
    forall c ensures SameCell(f, g, c) {
      SnapAt(a, c);
      SnapAt(b, c);
      WatchersOnly(a, b, c);
    }
    SnapshotsEqual(f, g);
  }

  /** Subscribing adds one watcher, or nothing when there is no room for it. */
  lemma {:induction false} SubscribeAdds(cells: seq<Cell>, id: CellId, key: Key, id': CellId, key': Key)
    ensures var r := Subscribe(cells, id, key);
            && OnlyWatchers(cells, r)
            && (Watching(cells, id', key') ==> Watching(r, id', key'))
            && (Watching(r, id', key') ==> Watching(cells, id', key') || (id' == id && key' == key))
  {
    var r := Subscribe(cells, id, key);
    WatchersOnly(cells, r, id');
  }

  /** Unsubscribing removes exactly the subscriptions of one key. */
  lemma {:induction false} UnsubscribeRemoves(cells: seq<Cell>, key: Key, id: CellId, key': Key)
    requires key != 0
    ensures var r := Unsubscribe(cells, key);
            OnlyWatchers(cells, r) && (Watching(r, id, key') <==> Watching(cells, id, key') && key' != key)
  {
    var r := Unsubscribe(cells, key);
    WatchersOnly(cells, r, id);
  }
}

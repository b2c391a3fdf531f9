/** The registry object: cells scanned and updated in place. */
module Registry {
  import opened Basics
  import opened State
  import Snapshots

  class StateRegistry {
    var cells: seq<Cell>

    constructor ()
      ensures cells == []
    {
      cells := [];
    }

    method FindCell(id: CellId) returns (i: nat)
      ensures i == Find(cells, id)
    {
      if id == 0 {
        return |cells|;
      }
      i := 0;
      while i < |cells|
        invariant i <= |cells| && FindFrom(cells, id, 0) == FindFrom(cells, id, i)
      {
        if cells[i].inUse && cells[i].id == id {
          return;
        }
        i := i + 1;
      }
    }

    /** Resolves or creates a cell; memory says whether its two buffers could be allocated.  found
        is false when the registry is full or there is no memory. */
    method GetOrCreateCell(id: CellId, v: Payload, memory: bool) returns (found: bool)
      requires id != 0
      modifies this
      ensures cells == if memory then Create(old(cells), id, v) else old(cells)
      ensures found <==> Find(cells, id) < |cells|
      ensures Find(old(cells), id) < |old(cells)| ==> found && cells == old(cells)
      ensures Find(old(cells), id) == |old(cells)| ==> found == (memory && |old(cells)| < MAX_STATES)
      ensures Find(old(cells), id) == |old(cells)| && found ==>
                cells == old(cells) + [Cell(id, v, v, false, true, [])] && Snap(cells) == Snap(old(cells))[id := v]
    {
      var i := FindCell(id);
      if i < |cells| {
        return true;
      }
      if |cells| >= MAX_STATES || !memory {
        return false;
      }
      ghost var before := cells;
      Snapshots.CreateShows(cells, id, v);
      cells := cells + [Cell(id, v, v, false, true, [])];
      FindAppended(before, cells[|before|], 0);
      return true;
    }

    /** Subscribes group key to cell id and returns the published value. */
    method Watch(id: CellId, key: Key) returns (v: Payload, found: bool)
      modifies this
      ensures cells == Subscribe(old(cells), id, key)
      ensures found <==> id in Snap(old(cells))
      ensures found ==> v == Snap(old(cells))[id]
    {
      SnapAt(cells, id);
      var i := FindCell(id);
      if i == |cells| {
        return [], false;
      }
      v := cells[i].front;
      if key != 0 {
        var watching, j := false, 0;
        while j < |cells[i].watchers|
          invariant j <= |cells[i].watchers|
          invariant !watching && key !in cells[i].watchers[..j]
        {
          if cells[i].watchers[j] == key {
            watching := true;
            break;
          }
          j := j + 1;
        }
        if !watching && |cells[i].watchers| < MAX_WATCHERS {
          cells := cells[i := cells[i].(watchers := cells[i].watchers + [key])];
        }
      }
      return v, true;
    }

    /** Stages v for cell id and schedules its watchers; found is false when there is none. */
    method Mutate(id: CellId, v: Payload, queue: seq<Key>) returns (queue': seq<Key>, found: bool)
      modifies this
      ensures cells == Stage(old(cells), id, v)
      ensures queue' == Enqueue(queue, WatchersOf(old(cells), id))
      ensures found <==> Find(old(cells), id) < |old(cells)|
    {
      queue' := queue;
      var i := FindCell(id);
      if i == |cells| {
        return queue', false;
      }
      var keys := cells[i].watchers;
      cells := cells[i := cells[i].(back := v, dirty := true)];
      var j := 0;
      while j < |keys|
        invariant j <= |keys| && queue' == Enqueue(queue, keys[..j])
      {
        if keys[j] !in queue' && |queue'| < MAX_QUEUE {
          queue' := queue' + [keys[j]];
        }
        assert keys[..j + 1][..j] == keys[..j];
        j := j + 1;
      }
      assert keys[..j] == keys;
      return queue', true;
    }

    /** Copies every dirty back buffer to its front buffer. */
    method PublishDirty()
      modifies this
      ensures cells == Publish(old(cells))
    {
      var i := 0;
      while i < |cells|
        invariant i <= |cells| == |old(cells)|
        invariant forall j {:trigger cells[j]} :: 0 <= j < |cells| ==>
                  cells[j] == if j < i then Published(old(cells)[j]) else old(cells)[j]
      {
        if cells[i].inUse && cells[i].dirty {
          cells := cells[i := cells[i].(front := cells[i].back, dirty := false)];
        }
        i := i + 1;
      }
    }

    /** Removes key from every watcher list. */
    method UnsubscribeKey(key: Key)
      modifies this
      ensures cells == Unsubscribe(old(cells), key)
    {
      if key == 0 {
        assert Unsubscribe(cells, key) == cells;
        return;
      }
      var i := 0;
      while i < |cells|
        invariant i <= |cells| == |old(cells)|
        invariant forall j {:trigger cells[j]} :: 0 <= j < |cells| ==>
                  cells[j] == if j < i then Forget(old(cells)[j], key) else old(cells)[j]
      {
        if cells[i].inUse {
          var ws := RemoveAll(cells[i].watchers, key);
          cells := cells[i := cells[i].(watchers := ws)];
        }
        i := i + 1;
      }
    }

    /** Marks the cell of an unmounted state instance unused. */
    method RetireCell(id: CellId)
      modifies this
      ensures cells == Retire(old(cells), id)
    {
      var i := FindCell(id);
      if i < |cells| {
        cells := cells[i := cells[i].(inUse := false, watchers := [], dirty := false)];
      }
    }

    method AnyDirty() returns (dirty: bool)
      ensures dirty <==> exists i :: 0 <= i < |cells| && cells[i].inUse && cells[i].dirty
    {
      var i := 0;
      while i < |cells|
        invariant i <= |cells|
        invariant forall j :: 0 <= j < i ==> !(cells[j].inUse && cells[j].dirty)
      {
        if cells[i].inUse && cells[i].dirty {
          return true;
        }
        i := i + 1;
      }
      return false;
    }
  }

  /** Shifts the keys after each occurrence of key down by one. */
  method RemoveAll(keys: seq<Key>, key: Key) returns (r: seq<Key>)
    ensures r == Without(keys, key)
  {
    r := keys;
    var j := 0;
    while j < |r|
      invariant j <= |r| && key !in r[..j]
      invariant Without(r, key) == Without(keys, key)
      decreases |r| - j
    {
      if r[j] == key {
        WithoutRemoved(r, j, key);
        r := r[..j] + r[j + 1..];
      } else {
        j := j + 1;
      }
    }
    WithoutAbsent(r, key);
  }

  lemma {:induction false} WithoutRemoved(keys: seq<Key>, j: nat, key: Key)
    requires j < |keys| && keys[j] == key
    ensures Without(keys[..j] + keys[j + 1..], key) == Without(keys, key)
  {
    var r := keys[..j] + keys[j + 1..];
    if j == 0 {
      assert r == keys[1..];
    } else {
      assert r[0] == keys[0] && r[1..] == keys[1..][..j - 1] + keys[1..][j..];
      WithoutRemoved(keys[1..], j - 1, key);
    }
  }

  lemma {:induction false} WithoutAbsent(keys: seq<Key>, key: Key)
    requires key !in keys
    ensures Without(keys, key) == keys
  {
    if keys != [] {
      WithoutAbsent(keys[1..], key);
    }
  }

  lemma {:induction false} FindAppended(cells: seq<Cell>, cell: Cell, i: nat)
    requires i <= |cells| && cell.inUse
    ensures FindFrom(cells + [cell], cell.id, i) < |cells| + 1
    decreases |cells| - i
  {
    if i < |cells| {
      FindAppended(cells, cell, i + 1);
    }
  }
}

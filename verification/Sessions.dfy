/** The session object: the traversal that reconciles the group table in place. */
module Sessions {
  import opened Basics
  import opened Trees
  import opened Moves
  import opened GapBuffer
  import opened TableOps
  import opened State
  import opened Registry
  import opened SlotTables
  import opened Programs
  import opened Passes
  import opened Teardown
  import opened Flags
  import opened Drains
  import opened Frames
  import ArenaFacts
  import Capacity
  import Incremental
  import Arenas
  import Hooks
  import Snapshots

  /** One entered group: whether its body runs, its index, and the slot offset to go back
      to in the group that entered it. */
  datatype Frame = Frame(active: bool, index: nat, outerOffset: nat)

  /** The groups whose bodies are running; a skipped or refused group may sit above them. */
  function Live(stack: seq<Frame>): seq<Frame> {
    if stack != [] && !stack[|stack| - 1].active then stack[..|stack| - 1] else stack
  }

  /** The running groups are the open groups of c. */
  ghost predicate Tracks(stack: seq<Frame>, c: Ctx)
    decreases c
  {
    match c
    case Top => stack == []
    case Open(_, _, _, outer) =>
      && stack != []
      && stack[|stack| - 1].active && stack[|stack| - 1].index == Index(c)
      && Tracks(stack[..|stack| - 1], outer)
  }

  /** after is before with one more frame. */
  ghost predicate Pushed(before: seq<Frame>, after: seq<Frame>, active: bool, outerOffset: nat) {
    && |after| == |before| + 1 && after[..|before|] == before
    && after[|before|].active == active && after[|before|].outerOffset == outerOffset
  }

  lemma {:induction false} TracksPush(stack: seq<Frame>, c: Ctx, d: Ctx, f: Frame)
    requires Tracks(stack, c) && Index(d) == Index(c) && d.Open? == c.Open? && (d.Open? ==> d.outer == c.outer)
    ensures Tracks(stack, d) && Live(stack) == stack
    ensures !f.active ==> Live(stack + [f]) == stack
    ensures forall info, done, rest :: f.active && f.index == Cursor(d) ==>
              Tracks(stack + [f], Open(info, done, rest, d)) && Live(stack + [f]) == stack + [f]
  {
    assert (stack + [f])[..|stack|] == stack;
  }

  lemma {:induction false} TracksPop(stack: seq<Frame>, c: Ctx)
    requires Tracks(stack, c) && c.Open?
    ensures |stack| > 0 && Live(stack) == stack && stack[|stack| - 1].index == Index(c)
    ensures var below := stack[..|stack| - 1];
            && Tracks(below, c.outer) && Live(below) == below
            && (|stack| > 1 <==> c.outer.Open?)
            && (|stack| > 1 ==> stack[|stack| - 2].index == Index(c.outer))
  {}

  /** A place in the tree: the open groups and the forest at the cursor. */
  datatype Position = Position(ctx: Ctx, seg: Forest)

  /** Where the traversal is after the finished group t has been left for the group around it. */
  function Left(outer: Ctx, t: Forest): Position {
    if outer.Open? then Position(outer.(rest := Nil, done := Append(outer.done, t)), outer.rest) else Position(Top, t)
  }

  /** Records still free in a table of the given capacity. */
  function Room(capacity: nat, count: nat): nat {
    if count <= capacity then capacity - count else 0
  }

  /** What a run leaves on record: destructor calls, refusals for want of room, bodies run and
      groups pruned. */
  datatype Log = Log(destroyed: seq<Hooks.Hook>, full: bool, missed: bool, starved: bool, ran: seq<nat>,
      pruned: seq<nat>)

  class Session {
    const table: GroupTable
    const arena: SlotArena
    const registry: StateRegistry
    const maxDrains: nat

    var hooks: seq<Hooks.Hook>
    var stack: seq<Frame>
    var cursor: nat        // index of the next group to match
    var current: nat       // index of the innermost running group
    var offset: nat        // slot offset reached in it
    var nextId: nat
    var queue: seq<Key>    // keys to invalidate before the next drain
    var later: seq<Key>    // keys to invalidate in the next frame
    var composedOnce: bool
    var recomposing: bool  // a recomposition is under way

    /** Where the traversal stands in the tree: the open groups and the forest at the cursor. */
    ghost var ctx: Ctx
    ghost var seg: Forest

    ghost var log: Log

    ghost function Footprint(): set<object> {
      {this, table, table.groups, arena, arena.slots, registry}
    }

    ghost predicate Valid()
      reads Footprint()
    {
      && table.Valid() && arena.Valid()
      && Whole(table.view, ctx, seg)
      && Tracks(Live(stack), ctx)
      && (ctx.Open? ==> ctx.rest == Nil && cursor == Cursor(ctx) && current == Index(ctx))
    }

    /** What the session holds besides the tree. */
    ghost function W(): World
      reads this, table, arena, registry
    {
      World(nextId, Room(table.groups.Length, |table.view|), registry.cells, arena.model, hooks, log.destroyed, queue,
            log.full, log.missed, log.starved, log.ran, log.pruned)
    }

    constructor (maxGroups: nat, maxSlots: nat, arenaSize: nat, maxDrains: nat)
      ensures Valid() && fresh(Footprint() - {this})
      ensures ctx == Top && seg == Nil && stack == [] && later == [] && !composedOnce && !recomposing
              && this.maxDrains == maxDrains
      ensures W() == World(1, maxGroups, [], Arenas.Arena([], 0, arenaSize, maxSlots, 0), [], [], [], false, false,
              false, [], [])
    {
      table := new GroupTable(maxGroups);
      arena := new SlotArena(maxSlots, arenaSize);
      registry := new StateRegistry();
      this.maxDrains := maxDrains;
      hooks, stack, cursor, current, offset, nextId := [], [], 0, 0, 0, 1;
      queue, later, composedOnce, recomposing := [], [], false, false;
      ctx, seg := Top, Nil;
      log := Log([], false, false, false, [], []);
    }

    // ---------------------------------------------------------------- teardown

    /** Calls the destructors of group id, last registered first, and forgets its hooks. */
    method FireCleanups(id: nat)
      modifies this`hooks, this`log
      ensures hooks == Hooks.Kept(old(hooks), id)
      ensures log == old(log).(destroyed := old(log).destroyed + Hooks.Fired(old(hooks), id))
    {
      var kept, fired := Hooks.Sweep(hooks, id);
      hooks := kept;
      log := log.(destroyed := log.destroyed + fired);
    }

    /** Releases what one group holds. */
    method UnmountGroup(info: Info)
      requires table.Valid() && arena.Valid()
      modifies this`hooks, this`log, arena, arena.slots, registry
      ensures arena.Valid()
      ensures W() == TearDown(info, old(W())).(room := old(W()).room)
    {
      FireCleanups(info.id);
      registry.UnsubscribeKey(info.key);
      arena.Release(info.id);
      log := log.(pruned := log.pruned + [info.id]);
    }

    /** Releases what the n groups from index at on hold, last group first. */
    method Unmount(at: nat, n: nat, ghost infos: seq<Info>)
      requires table.Valid() && arena.Valid() && at + n <= |table.view| && |infos| == n
      requires forall i {:trigger infos[i]} :: 0 <= i < n ==> infos[i] == table.view[at + n - 1 - i].info
      modifies this`hooks, this`log, arena, arena.slots, registry
      ensures arena.Valid()
      ensures W() == TearDownAll(infos, old(W())).(room := old(W()).room)
    {
      ghost var w, w1, j := W(), W(), 0;
      var i := n;
      assert infos[..0] == [];
      while i > 0
        invariant 0 <= i && i + j == n && table.Valid() && arena.Valid()
        invariant w1 == TearDownAll(infos[..j], w) && W() == w1.(room := w.room)
      {
        i := i - 1;
        var info := table.Get(at + i).info;
        assert infos[j] == info;
        UnmountGroup(info);
        TearDownSnoc(infos, j, w);
        w1, j := TearDown(info, w1), j + 1;
      }
      assert infos[..n] == infos;
    }

    /** Prunes the subtree at index root: tears its groups down and closes up the table. */
    method PruneSubtree(root: nat, ghost c: Ctx, ghost info: Info, ghost kids: Forest, ghost next: Forest)
      requires table.Valid() && arena.Valid()
      requires Whole(table.view, c, Tree(info, kids, next)) && root == Cursor(c)
      modifies this`hooks, this`log, table, table.groups, arena, arena.slots, registry
      ensures table.Valid() && arena.Valid()
      ensures Whole(table.view, c, next) && |table.view| == |old(table.view)| - (1 + Size(kids))
      ensures W() == TearDownAll(Doomed(Tree(info, kids, Nil)), old(W()))
    {
      hide At, Around, TearDownAll, Doomed;
      ghost var infos := Doomed(Tree(info, kids, Nil));
      HeadRecord(table.view, c, info, kids, next);
      var n := 1 + table.Get(root).size;
      DoomedHere(table.view, c, info, kids, next);
      TearDownRoom(infos, W());
      Unmount(root, n, infos);
      RemoveSubtree(table, root, c, info, kids, next);
    }

    // ---------------------------------------------------------------- entering

    /** Looks among the old children at and after the cursor for the first one with key k. */
    method FindChild(k: Key) returns (found: bool, at: nat, ghost skipped: Forest, ghost hit: Forest)
      requires Valid() && ctx.Open?
      ensures seg == Append(skipped, hit) && at == cursor + Size(skipped) && !HasRoot(skipped, k)
      ensures found <==> hit.Tree?
      ensures found ==> hit.info.key == k
      ensures found ==> at < |table.view| && table.view[at].info.key == k && table.view[at].parent == current
    {
      ghost var s := table.view;
      skipped, hit, at := Nil, seg, cursor;
      OpenRecord(s, ctx, seg);
      var end := current + 1 + table.Get(current).size;
      while at < end
        invariant table.view == s && seg == Append(skipped, hit) && !HasRoot(skipped, k)
        invariant at == cursor + Size(skipped) && at + Size(hit) == end <= |s|
        invariant At(s, at, hit, current)
      {
        var g := table.Get(at);
        if g.info.key == k {
          return true, at, skipped, hit;
        }
        PassBy(skipped, hit, k);
        skipped, hit := Append(skipped, Tree(hit.info, hit.kids, Nil)), hit.next;
        at := at + 1 + g.size;
      }
      found := false;
    }

    /** Steps over the old child at the cursor, with everything below it. */
    method SkipChild()
      requires Valid() && ctx.Open? && Live(stack) == stack && seg.Tree?
      modifies this`stack, this`cursor, this`ctx, this`seg
      ensures Valid() && W() == old(W())
      ensures stack == old(stack) + [Frame(false, old(cursor), offset)]
      ensures ctx == old(ctx).(done := Append(old(ctx).done, Tree(old(seg).info, old(seg).kids, Nil)))
      ensures seg == old(seg).next
    {
      ghost var t := Tree(seg.info, seg.kids, Nil);
      ghost var c := ctx.(done := Append(ctx.done, t));
      var frame, size := Frame(false, cursor, offset), table.Get(cursor).size;
      HeadRecord(table.view, ctx, seg.info, seg.kids, seg.next);
      SkipMove(table.view, ctx, seg.info, seg.kids, seg.next);
      AppendSize(ctx.done, t);
      TracksPush(stack, ctx, c, frame);
      assert Tracks(Live(stack + [frame]), c) && Cursor(c) == cursor + 1 + size && Index(c) == current;
      ctx, seg, stack, cursor := c, seg.next, stack + [frame], cursor + 1 + size;
    }

    /** Starts running the group at the cursor. */
    method OpenChild()
      requires Valid() && ctx.Open? && Live(stack) == stack && seg.Tree?
      modifies this`stack, this`cursor, this`current, this`offset, this`ctx, this`seg
      ensures Valid() && stack == old(stack) + [Frame(true, old(cursor), old(offset))]
      ensures ctx == Open(old(seg).info, Nil, Nil, old(ctx).(rest := old(seg).next))
      ensures seg == old(seg).kids && offset == 0
    {
      ghost var c, inner := ctx.(rest := seg.next), Open(seg.info, Nil, Nil, ctx.(rest := seg.next));
      var frame := Frame(true, cursor, offset);
      EnterMove(table.view, ctx, seg.info, seg.kids, seg.next);
      TracksPush(stack, ctx, c, frame);
      assert Tracks(Live(stack + [frame]), inner) && Cursor(inner) == cursor + 1 && Index(inner) == cursor;
      ctx, seg, stack, current, offset, cursor := inner, seg.kids, stack + [frame], cursor, 0, cursor + 1;
    }

    /** Clears the marks of the old child at the cursor and starts running it again. */
    method ReopenChild()
      requires Valid() && ctx.Open? && Live(stack) == stack && seg.Tree?
      modifies this`stack, this`cursor, this`current, this`offset, this`ctx, this`seg, table`view, table.groups
      ensures Valid() && W() == old(W())
      ensures stack == old(stack) + [Frame(true, old(cursor), old(offset))] && offset == 0
      ensures ctx == Open(Cleared(old(seg).info), Nil, Nil, old(ctx).(rest := old(seg).next)) && seg == old(seg).kids
    {
      SetHead(table.view, ctx, seg.info, seg.kids, seg.next, Cleared(seg.info));
      var g := table.Get(cursor);
      table.Set(cursor, g.(info := Cleared(g.info)));
      seg := Tree(Cleared(seg.info), seg.kids, seg.next);
      OpenChild();
    }

    /** Takes up the old child at the cursor: skips it when it is clean, reopens it otherwise. */
    method Revisit() returns (entered: bool)
      requires Valid() && ctx.Open? && Live(stack) == stack && seg.Tree?
      modifies this`stack, this`cursor, this`current, this`offset, this`ctx, this`seg, table`view, table.groups
      ensures Valid() && W() == old(W()) && entered == Dirty(old(seg).info)
      ensures Pushed(old(stack), stack, entered, old(offset))
      ensures !entered ==>
                && ctx == old(ctx).(done := Append(old(ctx).done, Tree(old(seg).info, old(seg).kids, Nil)))
                && seg == old(seg).next && offset == old(offset)
      ensures entered ==>
                && ctx == Open(Cleared(old(seg).info), Nil, Nil, old(ctx).(rest := old(seg).next))
                && seg == old(seg).kids && offset == 0
    {
      HeadRecord(table.view, ctx, seg.info, seg.kids, seg.next);
      var info := table.Get(cursor).info;
      entered := info.inv || info.cinv;
      if entered {
        ReopenChild();
      } else {
        SkipChild();
      }
    }

    /** Enters nothing: the table is full. */
    method Refuse()
      requires Valid() && ctx.Open? && Live(stack) == stack
      modifies this`stack, this`log
      ensures Valid() && W() == old(W()).(full := true)
      ensures stack == old(stack) + [Frame(false, 0, offset)]
    {
      TracksPush(stack, ctx, ctx, Frame(false, 0, offset));
      stack := stack + [Frame(false, 0, offset)];
      log := log.(full := true);
    }

    /** Mounts a new child at the cursor and starts running it. */
    method MountChild(k: Key)
      requires Valid() && ctx.Open? && Live(stack) == stack && |table.view| < table.groups.Length
      modifies this`stack, this`cursor, this`current, this`offset, this`nextId, this`ctx, this`seg, table, table.groups
      ensures Valid() && W() == old(W()).(next := old(nextId) + 1, room := old(W()).room - 1)
      ensures stack == old(stack) + [Frame(true, old(cursor), old(offset))] && offset == 0
      ensures ctx == Open(NewGroup(k, old(nextId)), Nil, Nil, old(ctx).(rest := old(seg))) && seg == Nil
    {
      hide At, Around;
      var info := NewGroup(k, nextId);
      InsertLeaf(table, cursor, current, info, ctx, seg);
      seg := Tree(info, Nil, seg);
      nextId := nextId + 1;
      OpenChild();
    }

    /** Finds the old child with key k and moves it to the cursor, past its siblings. */
    method BringToCursor(k: Key) returns (found: bool)
      requires Valid() && ctx.Open?
      modifies this`seg, table, table.groups
      ensures Valid() && W() == old(W()) && found == HasRoot(old(seg), k)
      ensures seg == if found then Append(Pick(old(seg), k), Drop(old(seg), k)) else old(seg)
    {
      var at: nat;
      ghost var skipped: Forest, hit: Forest;
      found, at, skipped, hit := FindChild(k);
      FirstRoot(skipped, hit, k);
      if found {
        assert Append(Tree(hit.info, hit.kids, Nil), Append(skipped, hit.next)) ==
            Tree(hit.info, hit.kids, Append(skipped, hit.next));
        if at != cursor {
          BringForward(table, cursor, at, ctx, skipped, hit.info, hit.kids, hit.next);
        }
        seg := Tree(hit.info, hit.kids, Append(skipped, hit.next));
      }
    }

    /** Enters child k: brings its old group to the cursor and runs it when dirty, or mounts a
        new group; the result says whether the body runs. */
    method EnterComposable(k: Key) returns (entered: bool)
      requires Valid() && ctx.Open? && Live(stack) == stack && |stack| < MAX_DEPTH
      modifies this`stack, this`cursor, this`current, this`offset, this`nextId, this`ctx, this`seg, this`log, table,
               table.groups
      ensures Valid()
      ensures HasRoot(old(seg), k) ==>
                entered == (Pick(old(seg), k).info.inv || Pick(old(seg), k).info.cinv) && log == old(log)
      ensures !HasRoot(old(seg), k) ==>
                && entered == (|old(table.view)| < table.groups.Length)
                && log == old(log).(full := old(log.full) || !entered)
                && |table.view| == |old(table.view)| + (if entered then 1 else 0)
      ensures Pushed(old(stack), stack, entered, old(offset))
      ensures var e := Admit(k, old(seg), old(W()));
              && W() == e.w && entered == e.Enter?
              && (!entered ==>
                    ctx == old(ctx).(done := Append(old(ctx).done, e.done)) && seg == e.rest && offset == old(offset))
              && (entered ==>
                    ctx == Open(e.info, Nil, Nil, old(ctx).(rest := e.rest)) && seg == e.kids && offset == 0)
    {
      var found := BringToCursor(k);
      if found {
        entered := Revisit();
      } else {
        AppendNil(ctx.done);
        entered := table.Count() < table.groups.Length;
        if entered {
          MountChild(k);
        } else {
          Refuse();
        }
      }
    }

    // ---------------------------------------------------------------- leaving

    /** Prunes the old child at the cursor and says how many groups that removed. */
    method PruneHead() returns (removed: nat)
      requires Valid() && ctx.Open? && seg.Tree?
      modifies this`hooks, this`log, this`seg, table, table.groups, arena, arena.slots, registry
      ensures Valid() && seg == old(seg).next && removed == 1 + Size(old(seg).kids)
      ensures Prune(seg, W()) == Prune(old(seg), old(W()))
    {
      HeadRecord(table.view, ctx, seg.info, seg.kids, seg.next);
      removed := 1 + table.Get(cursor).size;
      PruneSubtree(cursor, ctx, seg.info, seg.kids, seg.next);
      seg := seg.next;
    }

    /** Prunes the old children of the running group that were not visited. */
    method PruneRest()
      requires Valid() && ctx.Open?
      modifies this`hooks, this`log, this`seg, table, table.groups, arena, arena.slots, registry
      ensures Valid() && seg == Nil && W() == Prune(old(seg), old(W()))
    {
      OpenRecord(table.view, ctx, seg);
      var end := current + 1 + table.Get(current).size;
      while cursor < end && cursor < table.Count()
        invariant Valid() && end == cursor + Size(seg) <= |table.view|
        invariant Prune(seg, W()) == Prune(old(seg), old(W()))
      {
        var removed := PruneHead();
        end := end - removed;
        OpenRecord(table.view, ctx, seg);
      }
    }

    /** Rewrites the record of the running group. */
    method SetCurrent(info: Info)
      requires Valid() && ctx.Open?
      modifies this`ctx, table`view, table.groups
      ensures Valid() && ctx == old(ctx).(info := info) && W() == old(W())
    {
      SetOpen(table.view, ctx, seg, info);
      TracksPush(Live(stack), ctx, ctx.(info := info), Frame(true, 0, 0));
      table.Set(current, table.Get(current).(info := info));
      ctx := ctx.(info := info);
    }

    /** Ends the mount of the running group. */
    method Seal()
      requires Valid() && ctx.Open? && seg == Nil
      modifies this`ctx, table`view, table.groups
      ensures Valid() && ctx == old(ctx).(info := Sealed(old(ctx).info, offset)) && W() == old(W())
    {
      OpenRecord(table.view, ctx, seg);
      var g := table.Get(current);
      assert g.size == cursor - 1 - current;
      if g.info.mount {
        SetCurrent(g.info.(slotCount := offset % COUNT_WRAP, mount := false));
      }
    }

    /** Goes back from a finished group to the one that entered it. */
    method Pop()
      requires Valid() && ctx.Open? && Live(stack) == stack && seg == Nil
      modifies this`stack, this`current, this`offset, this`ctx, this`seg
      ensures Valid() && stack == old(stack)[..|old(stack)| - 1]
      ensures Position(ctx, seg) == Left(old(ctx).outer, Tree(old(ctx).info, old(ctx).done, Nil))
      ensures ctx.Open? ==> offset == old(stack)[|old(stack)| - 1].outerOffset
    {
      ghost var c, t := ctx, Tree(ctx.info, ctx.done, Nil);
      TracksPop(stack, c);
      var depth := |stack| - 1;
      var frame := stack[depth];
      stack := stack[..depth];
      if depth > 0 {
        ghost var d := c.outer.(rest := Nil, done := Append(c.outer.done, t));
        ExitMove(table.view, c.info, c.done, c.outer);
        AppendSize(c.outer.done, t);
        TracksPush(stack, c.outer, d, frame);
        current, offset := stack[depth - 1].index, frame.outerOffset;
        ctx, seg := d, c.outer.rest;
      } else {
        ExitRoot(table.view, c.info, c.done);
        ctx, seg := Top, t;
      }
    }

    /** Closes the running group. */
    method Finish()
      requires Valid() && ctx.Open? && Live(stack) == stack
      modifies this`hooks, this`log, this`stack, this`current, this`offset, this`ctx, this`seg
      modifies table, table.groups, arena, arena.slots, registry
      ensures Valid() && stack == old(stack)[..|old(stack)| - 1]
      ensures W() == Prune(old(seg), old(W()))
      ensures Position(ctx, seg) == Left(old(ctx).outer, Tree(Sealed(old(ctx).info, old(offset)), old(ctx).done, Nil))
      ensures ctx.Open? ==> offset == old(stack)[|old(stack)| - 1].outerOffset
    {
      TracksPop(stack, ctx);
      PruneRest();
      Seal();
      Pop();
    }

    /** Leaves the group entered last: a group that ran loses the children it did not visit. */
    method ExitGroup()
      requires Valid() && ctx.Open?
      modifies this`hooks, this`log, this`stack, this`current, this`offset, this`ctx, this`seg
      modifies table, table.groups, arena, arena.slots, registry
      ensures Valid() && stack == old(stack)[..|old(stack)| - 1]
      ensures Live(old(stack)) != old(stack) ==>
                ctx == old(ctx) && seg == old(seg) && W() == old(W())
      ensures Live(old(stack)) == old(stack) ==> W() == Prune(old(seg), old(W()))
      ensures Live(old(stack)) == old(stack) ==>
                Position(ctx, seg) == Left(old(ctx).outer, Tree(Sealed(old(ctx).info, old(offset)), old(ctx).done, Nil))
      ensures ctx.Open? ==> offset == old(stack)[|old(stack)| - 1].outerOffset
    {
      TracksPop(Live(stack), ctx);
      var frame := stack[|stack| - 1];
      if frame.active {
        Finish();
      } else {
        stack := stack[..|stack| - 1];
        current, offset := stack[|stack| - 1].index, frame.outerOffset;
      }
    }

    // ---------------------------------------------------------------- what a body does

    /** Serves a slot request of a group that is mounting.  It is refused exactly when no slot record is
        free or no place fits, and gets the lowest place otherwise. */
    method MountSlot(size: nat) returns (at: Option<nat>)
      requires Valid() && ctx.Open?
      modifies this`ctx, this`offset, this`log, table`view, table.groups, arena, arena.slots
      ensures Valid()
      ensures 0 < size && ArenaFacts.WellPlaced(old(arena.model)) ==>
                && (at == None <==> ArenaFacts.Exhausted(old(arena.model), Arenas.AlignUp(size)))
                && (at.Some? ==> ArenaFacts.Lowest(old(arena.model), at.value, Arenas.AlignUp(size)))
      ensures var a := Mount(size, old(ctx).info, old(offset), old(W()));
              ctx == old(ctx).(info := a.info) && offset == a.offset && W() == a.w && at == a.at
    {
      hide Around, Whole, ArenaFacts.WellPlaced, ArenaFacts.Exhausted, ArenaFacts.Lowest;
      OpenRecord(table.view, ctx, seg);
      var info := table.Get(current).info;
      at := arena.Allocate(info.id, offset, size);
      match at {
        case None =>
          log := log.(starved := true);
        case Some(place) =>
          if offset == 0 {
            SetCurrent(info.(slotIndex := place));
          }
          offset := offset + Arenas.AlignUp(size);
      }
    }

    /** Fires the hooks of the running group and gives its slots back. */
    method ResetGroup(id: nat)
      requires Valid()
      modifies this`hooks, this`log, arena, arena.slots
      ensures Valid() && W() == Reset(id, old(W()))
    {
      FireCleanups(id);
      arena.Release(id);
    }

    /** Starts the running group over: its remembered memory has another size now. */
    method Remount(size: nat) returns (at: Option<nat>)
      requires Valid() && ctx.Open?
      modifies this`ctx, this`offset, this`hooks, this`log, table`view, table.groups, arena, arena.slots
      ensures Valid()
      ensures var a := Mount(size, old(ctx).info.(mount := true), old(offset), Reset(old(ctx).info.id, old(W())));
              ctx == old(ctx).(info := a.info) && offset == a.offset && W() == a.w && at == a.at
    {
      hide Whole;
      OpenRecord(table.view, ctx, seg);
      var info := table.Get(current).info;
      ResetGroup(info.id);
      SetCurrent(info.(mount := true));
      at := MountSlot(size);
    }

    /** The slot that group id requested at the current offset. */
    method FindSlot(id: nat) returns (slot: Option<Arenas.Slot>)
      requires Valid()
      modifies arena`hint, arena`model
      ensures Valid()
      ensures match Arenas.Lookup(old(W()).arena, id, offset)
              case None => slot == None && W() == old(W())
              case Some(i) =>
                && slot == Some(old(W()).arena.slots[i])
                && W() == old(W()).(arena := old(W()).arena.(hint := i + 1))
    {
      var found := arena.Find(id, offset);
      slot := if found.Some? then Some(arena.slots[found.value]) else None;
    }

    /** Hands out the slot of the mount, unless its size has changed. */
    method Reuse(slot: Arenas.Slot, size: nat) returns (at: Option<nat>)
      requires Valid() && ctx.Open?
      modifies this`ctx, this`offset, this`hooks, this`log, table`view, table.groups, arena, arena.slots
      ensures Valid()
      ensures var info, w := old(ctx).info, old(W());
              var a := if slot.userSize != size then Mount(size, info.(mount := true), old(offset), Reset(info.id, w))
                       else Applied(info, old(offset) + Arenas.AlignUp(size), w, Some(slot.arenaOffset));
              ctx == old(ctx).(info := a.info) && offset == a.offset && W() == a.w && at == a.at
    {
      if slot.userSize != size {
        at := Remount(size);
      } else {
        offset := offset + Arenas.AlignUp(size);
        at := Some(slot.arenaOffset);
      }
    }

    /** Finds the slot that the running group requested at this point when it mounted. */
    method Recall(size: nat) returns (at: Option<nat>)
      requires Valid() && ctx.Open? && !ctx.info.mount
      modifies this`ctx, this`offset, this`hooks, this`log, table`view, table.groups, arena, arena.slots
      ensures Valid()
      ensures var a := ApplyRemember(size, old(ctx).info, old(offset), old(W()));
              ctx == old(ctx).(info := a.info) && offset == a.offset && W() == a.w && at == a.at
    {
      hide Whole, Mount, Reset, Arenas.Lookup;
      OpenRecord(table.view, ctx, seg);
      var slot := FindSlot(table.Get(current).info.id);
      match slot {
        case None =>
          log := log.(starved := true);
          at := None;
        case Some(slot) =>
          at := Reuse(slot, size);
      }
    }

    /** The memory behind the next slot request of the running group: new memory while it
        mounts, the memory of the mount afterwards. */
    method ResolveSlot(size: nat) returns (at: Option<nat>)
      requires Valid() && ctx.Open? && 0 < size <= MAX_SLOT
      modifies this`ctx, this`offset, this`hooks, this`log, table`view, table.groups, arena, arena.slots
      ensures Valid()
      ensures old(ctx).info.mount && ArenaFacts.WellPlaced(old(arena.model)) ==>
                && (at == None <==> ArenaFacts.Exhausted(old(arena.model), Arenas.AlignUp(size)))
                && (at.Some? ==> ArenaFacts.Lowest(old(arena.model), at.value, Arenas.AlignUp(size)))
      ensures log.starved == (old(log.starved) || at == None)
      ensures var a := ApplyRemember(size, old(ctx).info, old(offset), old(W()));
              ctx == old(ctx).(info := a.info) && offset == a.offset && W() == a.w && at == a.at
    {
      hide ArenaFacts.WellPlaced, ArenaFacts.Exhausted, ArenaFacts.Lowest;
      Capacity.StarvedIff(size, ctx.info, offset, W());
      OpenRecord(table.view, ctx, seg);
      if table.Get(current).info.mount {
        at := MountSlot(size);
      } else {
        at := Recall(size);
      }
    }

    /** Key of the group that a watch is credited to: the running group, or the root when no
        composition is open; 0 for none. */
    ghost function Watcher(): Key
      reads this
    {
      if Live(stack) != stack then 0 else if ctx.Open? then ctx.info.key else if seg.Tree? then seg.info.key else 0
    }

    method WatcherKey() returns (k: Key)
      requires Valid()
      ensures k == Watcher()
    {
      if stack != [] {
        if !stack[|stack| - 1].active {
          return 0;
        }
        TracksPop(stack, ctx);
        OpenRecord(table.view, ctx, seg);
        k := table.Get(stack[|stack| - 1].index).info.key;
      } else if table.Count() > 0 {
        assert ctx == Top && seg.Tree?;
        k := table.Get(0).info.key;
      } else {
        k := 0;
      }
    }

    /** Subscribes the running group to a cell, and returns the published value. */
    method WatchState(c: CellId) returns (v: Payload, found: bool)
      requires Valid()
      modifies this`log, registry
      ensures Valid()
      ensures stack == [] && ctx == Top && seg.Tree? ==> Watcher() == seg.info.key
      ensures ctx.Open? && Live(stack) == stack ==> Watcher() == ctx.info.key
      ensures W() == if Watcher() == 0 then old(W()) else Subscribed(c, Watcher(), old(W()))
      ensures Watcher() != 0 ==>
                var i := Find(old(registry.cells), c);
                log.missed <==>
                  old(log.missed) || (i < |old(registry.cells)| && Watcher() !in old(registry.cells)[i].watchers
                                      && |old(registry.cells)[i].watchers| >= MAX_WATCHERS)
      ensures found <==> c in Snap(old(registry.cells))
      ensures found ==> v == Snap(old(registry.cells))[c]
    {
      hide Whole, At, Around, Find;
      ghost var cells := registry.cells;
      if Watcher() != 0 { Capacity.SubscribedMissesIff(c, Watcher(), W()); }
      var key := WatcherKey();
      v, found := registry.Watch(c, key);
      if key != 0 {
        log := log.(missed := log.missed || (Find(cells, c) < |cells| && !Watching(registry.cells, c, key)));
      }
    }

    /** The hook that the running group attaches. */
    method NewHook(instance: nat, destroys: bool) returns (h: Hooks.Hook)
      requires Valid() && ctx.Open?
      ensures h == Hooks.Hook(ctx.info.key, ctx.info.id, instance, destroys)
    {
      OpenRecord(table.view, ctx, seg);
      var info := table.Get(current).info;
      h := Hooks.Hook(info.key, info.id, instance, destroys);
    }

    /** Attaches a hook to the running group, if there is one; called says whether the constructor
        callback is invoked. */
    method RegisterLifecycle(instance: nat, creates: bool, destroys: bool) returns (called: bool)
      requires Valid() && (stack != [] ==> ctx.Open?)
      modifies this`hooks
      ensures Valid()
      ensures called == (creates && stack != [] && |old(hooks)| < Hooks.MAX_HOOKS)
      ensures hooks == if stack == [] then old(hooks)
                       else Hooks.Register(old(hooks), Hooks.Hook(ctx.info.key, ctx.info.id, instance, destroys))
      ensures stack != [] && |old(hooks)| < Hooks.MAX_HOOKS ==>
                hooks == old(hooks) + [Hooks.Hook(ctx.info.key, ctx.info.id, instance, destroys)]
      ensures stack == [] || |old(hooks)| >= Hooks.MAX_HOOKS ==> hooks == old(hooks)
    {
      if stack == [] {
        return false;
      }
      var h := NewHook(instance, destroys);
      if |hooks| >= Hooks.MAX_HOOKS {
        return false;
      }
      hooks := hooks + [h];
      called := creates;
    }

    /** Refreshes the hook of the running group, or attaches one. */
    method UpdateLifecycle(instance: nat, destroys: bool)
      requires Valid() && (stack != [] ==> ctx.Open?)
      modifies this`hooks
      ensures Valid()
      ensures hooks == if stack == [] then old(hooks)
                       else Hooks.Update(old(hooks), Hooks.Hook(ctx.info.key, ctx.info.id, instance, destroys))
      ensures stack != [] ==>
              Hooks.Refreshes(old(hooks), Hooks.Hook(ctx.info.key, ctx.info.id, instance, destroys), hooks)
    {
      if stack == [] {
        return;
      }
      var h := NewHook(instance, destroys);
      Hooks.UpdateRefreshes(hooks, h, 0);
      var i := 0;
      while i < |hooks|
        invariant i <= |hooks| && hooks == old(hooks) && Hooks.Update(hooks, h) == Hooks.Update(hooks, h, i)
      {
        if hooks[i].groupId == h.groupId || hooks[i].groupKey == h.groupKey {
          hooks := hooks[i := h];
          return;
        }
        i := i + 1;
      }
      var called := RegisterLifecycle(instance, false, destroys);
    }

    /** Attaches a destructor when the running group mounts, refreshes it afterwards. */
    method Own(instance: nat)
      requires Valid() && ctx.Open?
      modifies this`hooks
      ensures Valid() && W() == ApplyOwn(instance, ctx.info, offset, old(W())).w
    {
      OpenRecord(table.view, ctx, seg);
      TracksPop(Live(stack), ctx);
      if table.Get(current).info.mount {
        var called := RegisterLifecycle(instance, false, true);
      } else {
        UpdateLifecycle(instance, true);
      }
    }

    /** Schedules a key: for another drain while a recomposition is under way, for the next frame
        otherwise. */
    method InvalidateKeyImmediate(k: Key)
      modifies this`queue, this`later
      ensures queue == if recomposing then EnqueueOne(old(queue), k) else old(queue)
      ensures later == if recomposing then old(later) else EnqueueOne(old(later), k)
      ensures k in (if recomposing then queue else later) <==>
                || k in (if recomposing then old(queue) else old(later))
                || (if recomposing then |old(queue)| else |old(later)|) < MAX_QUEUE
    {
      if !recomposing {
        InvalidateKey(k);
        return;
      }
      var i := 0;
      while i < |queue|
        invariant i <= |queue| && k !in queue[..i]
      {
        if queue[i] == k {
          return;
        }
        i := i + 1;
      }
      if |queue| < MAX_QUEUE {
        queue := queue + [k];
      }
    }

    /** One step of the running body, other than a call. */
    method DoStep(s: Step)
      requires Valid() && recomposing && ctx.Open? && ctx.info.key != 0 && Live(stack) == stack && !s.Call?
               && (s.Remember? ==> 0 < s.size <= MAX_SLOT)
      modifies this`ctx, this`offset, this`hooks, this`queue, this`later, this`log
      modifies table`view, table.groups, arena, arena.slots, registry
      ensures Valid() && later == old(later)
      ensures var a := Apply(s, old(ctx).info, old(offset), old(W()));
              ctx == old(ctx).(info := a.info) && offset == a.offset && W() == a.w
    {
      match s {
        case Watch(c) => var v, found := WatchState(c);
        case Remember(size) => var at := ResolveSlot(size);
        case Own(instance) => Own(instance);
        case Invalidate(k) => InvalidateKeyImmediate(k);
      }
    }

    // ---------------------------------------------------------------- running bodies

    /** Runs the steps of the body of group q. */
    method RunSteps(p: Program, ghost q: Key, steps: seq<Step>, ghost snap: Snapshot)
      requires Valid() && recomposing && Running(p, q, ctx, stack) && Ready(p, q, steps) && Sized(p) && Fits(steps)
      requires Snap(registry.cells) == snap
      modifies this`hooks, this`log, this`stack, this`cursor, this`current, this`offset, this`nextId, this`queue,
               this`later, this`ctx, this`seg
      modifies table, table.groups, arena, arena.slots, registry
      ensures Valid() && later == old(later) && stack == old(stack)
      ensures var r := Exec(p, snap, steps, old(ctx).info, old(offset), old(seg), old(W()));
              && ctx == old(ctx).(info := r.info, done := Append(old(ctx).done, r.done)) && seg == r.rest
              && offset == r.offset && W() == r.w
      decreases MAX_DEPTH - |p.path(q)|, |steps|
    {
      hide At, Around, Whole;
      if steps == [] {
        AppendNil(ctx.done);
        return;
      }
      ghost var c, o, f, w := ctx, offset, seg, W();
      if steps[0].Call? {
        assert Emits(p, q, steps[0].child);
        CallChild(p, q, steps[0].child, snap);
      } else {
        DoStep(steps[0]);
      }
      StepForth(p, q, steps, snap, c, o, f, w, ctx, offset, seg, W());
      RunSteps(p, q, steps[1..], snap);
    }

    /** Calls child k of group q: enters it, runs its body if it is to run, and leaves it. */
    method CallChild(p: Program, ghost q: Key, k: Key, ghost snap: Snapshot)
      requires Valid() && recomposing && Running(p, q, ctx, stack) && WellFormed(p) && Emits(p, q, k) && Sized(p)
      requires Snap(registry.cells) == snap
      modifies this`hooks, this`log, this`stack, this`cursor, this`current, this`offset, this`nextId, this`queue,
               this`later, this`ctx, this`seg
      modifies table, table.groups, arena, arena.slots, registry
      ensures Valid() && later == old(later) && stack == old(stack) && offset == old(offset)
      ensures var v := Visit(p, snap, k, old(seg), old(W()));
              ctx == old(ctx).(done := Append(old(ctx).done, v.done)) && seg == v.rest && W() == v.w
      decreases MAX_DEPTH - |p.path(k)| + 1, 0
    {
      hide At, Around;
      var entered := EnterComposable(k);
      if entered {
        RunGroup(p, k, snap);
      } else {
        ExitGroup();
      }
    }

    /** Runs the body of the group just entered, and leaves it. */
    method RunGroup(p: Program, k: Key, ghost snap: Snapshot)
      requires Valid() && recomposing && Running(p, k, ctx, stack) && ctx.done == Nil && offset == 0
      requires WellFormed(p) && |p.path(k)| <= MAX_DEPTH && Sized(p) && Snap(registry.cells) == snap
      modifies this`hooks, this`log, this`stack, this`cursor, this`current, this`offset, this`nextId, this`queue,
               this`later, this`ctx, this`seg
      modifies table, table.groups, arena, arena.slots, registry
      ensures Valid() && later == old(later) && stack == old(stack)[..|old(stack)| - 1]
      ensures ctx.Open? ==> offset == old(stack)[|old(stack)| - 1].outerOffset
      ensures var b := Passes.RunBody(p, snap, old(ctx).info, old(seg), old(W()));
              Position(ctx, seg) == Left(old(ctx).outer, b.done) && W() == b.w
      decreases MAX_DEPTH - |p.path(k)|, |p.body(k, snap)| + 2
    {
      RunBody(p, k, snap);
      ExitGroup();
    }

    /** Runs the body of the group entered last. */
    method RunBody(p: Program, k: Key, ghost snap: Snapshot)
      requires Valid() && recomposing && Running(p, k, ctx, stack) && WellFormed(p) && |p.path(k)| <= MAX_DEPTH
               && Sized(p)
      requires Snap(registry.cells) == snap
      modifies this`hooks, this`log, this`stack, this`cursor, this`current, this`offset, this`nextId, this`queue,
               this`later, this`ctx, this`seg
      modifies table, table.groups, arena, arena.slots, registry
      ensures Valid() && later == old(later) && stack == old(stack)
      ensures var w := old(W()).(ran := old(W()).ran + [old(ctx).info.id]);
              var r := Exec(p, snap, p.body(k, snap), old(ctx).info, old(offset), old(seg), w);
              && ctx == old(ctx).(info := r.info, done := Append(old(ctx).done, r.done)) && seg == r.rest
              && offset == r.offset && W() == r.w
      decreases MAX_DEPTH - |p.path(k)|, |p.body(k, snap)| + 1
    {
      log := log.(ran := log.ran + [ctx.info.id]);
      RunSteps(p, k, p.body(k, Snap(registry.cells)), snap);
    }

    // ---------------------------------------------------------------- whole passes

    /** Puts a new root into the empty table. */
    method MountRoot(root: Key)
      requires Valid() && ctx == Top && seg == Nil && 0 < table.groups.Length
      modifies this`nextId, this`seg, table, table.groups
      ensures Valid() && seg == Tree(NewGroup(root, old(nextId)), Nil, Nil)
      ensures W() == old(W()).(next := old(nextId) + 1, room := old(W()).room - 1)
    {
      table.MoveGap(0);
      assert table.view == [];
      table.Insert(Group(NewGroup(root, nextId), 0, 0));
      assert table.view == [Group(NewGroup(root, nextId), 0, 0)];
      LeafRoot(NewGroup(root, nextId));
      seg := Tree(NewGroup(root, nextId), Nil, Nil);
      nextId := nextId + 1;
    }

    /** Prunes the whole tree. */
    method PruneRoot()
      requires Valid() && ctx == Top && seg.Tree? && seg.next == Nil
      modifies this`hooks, this`log, this`seg, table, table.groups, arena, arena.slots, registry
      ensures Valid() && seg == Nil && W() == Prune(old(seg), old(W()))
    {
      PruneSubtree(0, Top, seg.info, seg.kids, Nil);
      seg := Nil;
    }

    /** Starts running the root. */
    method OpenRoot()
      requires Valid() && ctx == Top && seg.Tree? && seg.next == Nil
      modifies this`stack, this`cursor, this`current, this`offset, this`ctx, this`seg
      ensures Valid() && stack == [Frame(true, 0, 0)] && offset == 0
      ensures ctx == Open(old(seg).info, Nil, Nil, Top) && seg == old(seg).kids
    {
      ghost var inner := Open(seg.info, Nil, Nil, Top);
      EnterRoot(table.view, seg.info, seg.kids);
      TracksPush([], Top, Top, Frame(true, 0, 0));
      assert [] + [Frame(true, 0, 0)] == [Frame(true, 0, 0)];
      ctx, seg, stack, cursor, current, offset := inner, seg.kids, [Frame(true, 0, 0)], 1, 0, 0;
    }

    /** Enters the root, mounting it when the table is empty; a tree with another root goes
        first.  A full table refuses. */
    method EnterComposition(root: Key) returns (entered: bool)
      requires Valid() && ctx == Top && (seg.Tree? ==> seg.next == Nil)
      modifies this`hooks, this`log, this`stack, this`cursor, this`current, this`offset, this`nextId, this`ctx, this`seg
      modifies table, table.groups, arena, arena.slots, registry
      ensures Valid() && entered == (old(W()).room > 0)
      ensures !entered ==> ctx == Top && seg == old(seg) && W() == old(W()) && stack == old(stack)
      ensures entered ==> stack == [Frame(true, 0, 0)] && offset == 0
      ensures entered ==> Rooting(root, old(seg), old(W()), ctx, seg, W())
    {
      if table.Count() >= table.groups.Length {
        return false;
      }
      entered := true;
      if table.Count() > 0 {
        RootRecord(table.view, seg);
        if table.Get(0).info.key == root {
          OpenRoot();
          return;
        }
        PruneRoot();
      } else {
        RootRecord(table.view, seg);
      }
      MountRoot(root);
      OpenRoot();
    }

    /** One pass over the tree; broken means that the table was full, so that the root could
        not be entered and leaving it has no group to leave. */
    method RunPass(p: Program) returns (broken: bool)
      requires Valid() && recomposing && WholeTree() && WellFormed(p) && Sized(p)
      modifies this`hooks, this`log, this`stack, this`cursor, this`current, this`offset, this`nextId, this`queue,
               this`later, this`ctx, this`seg
      modifies table, table.groups, arena, arena.slots, registry
      ensures Valid() && later == old(later) && broken == (old(W()).room == 0)
      ensures ctx == Top && stack == [] 
      ensures broken ==> seg == old(seg) && W() == old(W())
      ensures !broken ==> seg == Pass(p, Snap(old(registry.cells)), old(seg), old(W())).done
      ensures !broken ==> W() == Pass(p, Snap(old(registry.cells)), old(seg), old(W())).w
    {
      ghost var snap, tree, w := Snap(registry.cells), seg, W();
      var entered := EnterComposition(p.root);
      if !entered {
        return true;
      }
      RootingKeeps(p.root, tree, w, ctx, seg, W());
      RunGroup(p, p.root, snap);
      return false;
    }

    /** Invalidates the queued groups, last key first. */
    method DrainInvalidationQueue()
      requires Valid() && WholeTree()
      modifies this`queue, this`seg, table`view, table.groups
      ensures Valid() && WholeTree() && seg == Drain(old(seg), old(queue))
      ensures W() == old(W()).(queue := [])
    {
      hide At, Around;
      ghost var room := W().room;
      while queue != []
        invariant Valid() && WholeTree() && Drain(seg, queue) == Drain(old(seg), old(queue))
        invariant W() == old(W()).(queue := queue)
        decreases |queue|
      {
        var key := queue[|queue| - 1];
        queue := queue[..|queue| - 1];
        assert Mark(Nil, key) == Nil;
        MarkKey(table, key, seg);
        seg := Mark(seg, key);
      }
    }

    /** Publishes, marks and runs once. */
    method DrainPass(p: Program) returns (broken: bool)
      requires Valid() && recomposing && WholeTree() && WellFormed(p) && Sized(p)
      modifies this`hooks, this`log, this`stack, this`cursor, this`current, this`offset, this`nextId, this`queue,
               this`later, this`ctx, this`seg
      modifies table, table.groups, arena, arena.slots, registry
      ensures Valid() && later == old(later) && WholeTree() && broken == (old(W()).room == 0)
      ensures broken ==>
                seg == Drain(old(seg), old(queue)) && W() == old(W()).(cells := Publish(old(W()).cells), queue := [])
      ensures !broken ==> var r := Incremental.DrainOnce(p, old(seg), old(W())); seg == r.done && W() == r.w
    {
      ghost var tree, w := seg, W();
      registry.PublishDirty();
      DrainInvalidationQueue();
      if table.Count() < table.groups.Length { DrainOnceGrows(p, tree, w); }
      broken := RunPass(p);
    }

    /** Makes the keys scheduled for the next frame current. */
    method TakeLater()
      modifies this`queue, this`later
      ensures Queues(queue, later) == Transfer(old(queue), old(later))
    {
      while later != [] && |queue| < MAX_QUEUE
        invariant Transfer(queue, later) == Transfer(old(queue), old(later))
        decreases |later|
      {
        queue, later := queue + [later[|later| - 1]], later[..|later| - 1];
      }
    }

    /** Recomposes until nothing more is scheduled or the drain limit is reached. */
    method Recompose(p: Program) returns (r: Verdict)
      requires Valid() && WholeTree() && WellFormed(p) && Sized(p)
      modifies Footprint()
      ensures Valid() && WholeTree()
      ensures var o := Recomposition(p, old(Now()), maxDrains);
              Now() == o.after && r == o.verdict
      ensures r == Done && !old(composedOnce) ==> seg != Nil
    {
      hide Whole, Settle;
      TransferAll(queue, later);
      TakeLater();
      var dirty := registry.AnyDirty();
      if composedOnce && queue == [] && !dirty {
        return Done;
      }
      r := RunFrame(p);
    }

    /** The drain loop, and what follows it when it settles. */
    method RunFrame(p: Program) returns (r: Verdict)
      requires Valid() && WholeTree() && WellFormed(p) && Sized(p)
      modifies Footprint()
      ensures Valid() && WholeTree()
      ensures var o := SettleFrame(p, old(seg), old(W()), old(later), maxDrains);
              seg == o.tree && W() == o.w && r == o.verdict
      ensures composedOnce == (old(composedOnce) || r == Done)
      ensures r == Done ==> seg != Nil && later == Transfer([], old(later)).later
      ensures r != Done ==> later == old(later)
    {
      hide Whole, Tracks, Settle;
      SettleGrows(p, seg, W(), maxDrains);
      recomposing := true;
      r := DrainUntilSettled(p);
      recomposing := false;
      if r == Done {
        FinishFrame();
      }
    }

    /** Makes ready for the next frame. */
    method FinishFrame()
      requires Valid() && queue == [] && AllPublished(registry.cells)
      modifies this`queue, this`later, this`composedOnce, registry
      ensures Valid() && Queues(queue, later) == Transfer([], old(later)) && composedOnce
      ensures W() == old(W()).(queue := queue)
    {
      PublishPublished(registry.cells);
      TakeLater();
      registry.PublishDirty();
      composedOnce := true;
    }

    /** The drain loop. */
    method DrainUntilSettled(p: Program) returns (r: Verdict)
      requires Valid() && recomposing && WholeTree() && WellFormed(p) && Sized(p)
      modifies this`hooks, this`log, this`stack, this`cursor, this`current, this`offset, this`nextId, this`queue,
               this`later, this`ctx, this`seg
      modifies table, table.groups, arena, arena.slots, registry
      ensures Valid() && later == old(later) && WholeTree()
      ensures var o := Settle(p, old(seg), old(W()), maxDrains);
              seg == o.tree && W() == o.w && r == o.verdict
      ensures r == Done ==> queue == [] && seg != Nil
    {
      hide Whole, Tracks;
      ghost var goal, left := Settle(p, seg, W(), maxDrains), maxDrains;
      var iterations := 0;
      while true
        invariant Valid() && WholeTree() && 0 <= left && iterations + left == maxDrains && later == old(later)
        invariant Settle(p, seg, W(), left) == goal
        decreases left
      {
        iterations := iterations + 1;
        if iterations > maxDrains {
          return NotConverged;
        }
        var broken := DrainTurn(p, left);
        left := left - 1;
        if broken {
          return Broken;
        }
        if queue == [] {
          return Done;
        }
      }
    }

    /** One turn of the drain loop, the first of at most n. */
    method DrainTurn(p: Program, ghost n: nat) returns (broken: bool)
      requires Valid() && recomposing && WholeTree() && WellFormed(p) && Sized(p) && n > 0
      modifies this`hooks, this`log, this`stack, this`cursor, this`current, this`offset, this`nextId, this`queue,
               this`later, this`ctx, this`seg
      modifies table, table.groups, arena, arena.slots, registry
      ensures Valid() && later == old(later) && WholeTree() && (!broken ==> seg != Nil)
      ensures Settle(p, old(seg), old(W()), n) ==
                if broken then Outcome(Broken, seg, W()) else if queue == [] then Outcome(Done, seg, W())
                    else Settle(p, seg, W(), n - 1)
    {
      SettleTurn(p, seg, W(), n - 1);
      broken := DrainPass(p);
    }

    /** Stages the next value of a cell and schedules its watchers. */
    method MutateState(m: Mutation) returns (found: bool)
      requires Valid()
      modifies this`queue, this`log, registry
      ensures Valid() && W() == Mutate(old(W()), m)
      ensures found <==> Find(old(registry.cells), m.cell) < |old(registry.cells)|
      ensures |old(queue)| <= MAX_QUEUE ==>
                (log.missed <==>
                   || old(log.missed)
                   || |old(queue)| + |Snapshots.New(old(queue), WatchersOf(old(registry.cells), m.cell))| > MAX_QUEUE)
    {
      if |queue| <= MAX_QUEUE { Capacity.MutateMissesIff(W(), m); }
      ghost var keys := WatchersOf(registry.cells, m.cell);
      queue, found := registry.Mutate(m.cell, m.value, queue);
      log := log.(missed := log.missed || !Covers(queue, keys));
    }

    /** Schedules a key for the next frame. */
    method InvalidateKey(k: Key)
      modifies this`later
      ensures later == EnqueueOne(old(later), k)
      ensures later == old(later) || (k !in old(later) && later == old(later) + [k])
      ensures k in later <==> k in old(later) || |old(later)| < MAX_QUEUE
    {
      var i := 0;
      while i < |later|
        invariant i <= |later| && k !in later[..i]
      {
        if later[i] == k {
          return;
        }
        i := i + 1;
      }
      if |later| < MAX_QUEUE {
        later := later + [k];
      }
    }

    /** The session between two recompositions. */
    ghost function Now(): Status
      reads this, table, arena, registry
    {
      Status(seg, W(), later, composedOnce)
    }

    /** No group is open. */
    ghost predicate WholeTree()
      reads this
    {
      ctx == Top && stack == [] && (seg.Tree? ==> seg.next == Nil)
    }
  }

  /** Entering the root changes no value that a body can read. */
  lemma {:induction false} RootingKeeps(root: Key, tree: Forest, w: World, c: Ctx, f: Forest, w': World)
    requires Rooting(root, tree, w, c, f, w')
    ensures Snap(w'.cells) == Snap(w.cells) && c.Open? && c.info.key == root
  {
    PruneGrows(tree, w);
    SnapSame(w.cells, w'.cells);
  }

  /** What entering the root makes of the tree and the world. */
  ghost predicate Rooting(root: Key, tree: Forest, w: World, c: Ctx, f: Forest, w': World) {
    if tree.Tree? && tree.info.key == root then
      c == Open(tree.info, Nil, Nil, Top) && f == tree.kids && w' == w
    else
      var w1 := Prune(tree, w);
      && c == Open(NewGroup(root, w1.next), Nil, Nil, Top) && f == Nil
      && w' == w1.(next := w1.next + 1, room := if w1.room > 0 then w1.room - 1 else 0)
  }

  lemma {:induction false} LeafRoot(info: Info)
    ensures Whole([Group(info, 0, 0)], Top, Tree(info, Nil, Nil))
  {
    var s := [Group(info, 0, 0)];
    assert Size(Nil) == 0 && At(s, 1, Nil, 0);
  }

  /** The root's record, when there is one. */
  lemma {:induction false} RootRecord(s: seq<Group>, f: Forest)
    requires Whole(s, Top, f) && (f.Tree? ==> f.next == Nil)
    ensures |s| > 0 <==> f.Tree?
    ensures f.Tree? ==> s[0].info == f.info && |s| == 1 + Size(f.kids)
  {
    assert f.Tree? ==> Size(f.next) == 0;
  }

  /** Group q is the innermost open group, and runs. */
  ghost predicate Running(p: Program, q: Key, c: Ctx, stack: seq<Frame>) {
    c.Open? && Live(stack) == stack && c.info.key == q && q != 0 && |stack| == |p.path(q)|
  }

  /** The place of the traversal within the body of a group after one step of it. */
  ghost predicate Stepped(p: Program, s: Step, snap: Snapshot, c: Ctx, o: nat, f: Forest, w: World, c': Ctx, o': nat,
                          f': Forest, w': World)
    requires c.Open? && WellFormed(p) && (s.Call? ==> Emits(p, c.info.key, s.child))
  {
    if s.Call? then
      var v := Visit(p, snap, s.child, f, w);
      c' == c.(done := Append(c.done, v.done)) && f' == v.rest && w' == v.w && o' == o
    else
      var a := Apply(s, c.info, o, w);
      c' == c.(info := a.info) && f' == f && w' == a.w && o' == a.offset
  }

  /** One step and then the others make up the whole body. */
  lemma {:induction false} StepForth(p: Program, q: Key, steps: seq<Step>, snap: Snapshot, c: Ctx, o: nat, f: Forest,
                                     w: World,
                                     c': Ctx, o': nat, f': Forest, w': World)
    requires c.Open? && c.info.key == q && Ready(p, q, steps) && steps != []
    requires steps[0].Call? ==> Emits(p, q, steps[0].child)
    requires Stepped(p, steps[0], snap, c, o, f, w, c', o', f', w')
    ensures c'.Open? && c'.info.key == q && OnlyWatchers(w.cells, w'.cells) && Snap(w'.cells) == Snap(w.cells)
    ensures var r, r' := Exec(p, snap, steps, c.info, o, f, w), Exec(p, snap, steps[1..], c'.info, o', f', w');
            && r.info == r'.info && r.offset == r'.offset && r.rest == r'.rest && r.w == r'.w
            && c.(info := r.info, done := Append(c.done, r.done)) ==
                  c'.(info := r'.info, done := Append(c'.done, r'.done))
  {
    if steps[0].Call? {
      var v := Visit(p, snap, steps[0].child, f, w);
      VisitGrows(p, snap, steps[0].child, f, w);
      AppendAssoc(c.done, v.done, Exec(p, snap, steps[1..], c.info, o, v.rest, v.w).done);
    } else {
      ApplyKeeps(steps[0], c.info, o, w);
    }
    SnapSame(w.cells, w'.cells);
  }

  // ------------------------------------------------------------------ records at the cursor

  /** What the record of the open group says. */
  lemma {:induction false} OpenRecord(s: seq<Group>, c: Ctx, f: Forest)
    requires c.Open? && c.rest == Nil && Whole(s, c, f)
    ensures Index(c) < |s| && Index(c) + 1 + s[Index(c)].size == Cursor(c) + Size(f) <= |s|
    ensures s[Index(c)].info == c.info
    ensures At(s, Cursor(c), f, Index(c))
  {
    AroundBound(s, c, Size(f), Size(f));
  }

  lemma {:induction false} PassBy(skipped: Forest, hit: Forest, k: Key)
    requires hit.Tree? && !HasRoot(skipped, k) && hit.info.key != k
    ensures var t := Tree(hit.info, hit.kids, Nil);
            && Append(Append(skipped, t), hit.next) == Append(skipped, hit)
            && !HasRoot(Append(skipped, t), k)
            && Size(Append(skipped, t)) == Size(skipped) + 1 + Size(hit.kids)
  {
    if skipped.Tree? {
      PassBy(skipped.next, hit, k);
    }
  }

  /** The tree behind the skipped ones is the match. */
  lemma {:induction false} FirstRoot(skipped: Forest, hit: Forest, k: Key)
    requires !HasRoot(skipped, k) && (hit.Tree? ==> hit.info.key == k)
    ensures HasRoot(Append(skipped, hit), k) <==> hit.Tree?
    ensures hit.Tree? ==>
              && Pick(Append(skipped, hit), k) == Tree(hit.info, hit.kids, Nil)
              && Drop(Append(skipped, hit), k) == Append(skipped, hit.next)
  {
    if skipped.Tree? {
      FirstRoot(skipped.next, hit, k);
    }
  }

  lemma {:induction false} DoomedHere(s: seq<Group>, c: Ctx, info: Info, kids: Forest, next: Forest)
    requires Whole(s, c, Tree(info, kids, next))
    ensures var infos, n := Doomed(Tree(info, kids, Nil)), 1 + Size(kids);
            && |infos| == n && Cursor(c) + n <= |s|
            && forall i {:trigger infos[i]} :: 0 <= i < n ==> infos[i] == s[Cursor(c) + n - 1 - i].info
  {
    var t := Tree(info, kids, Nil);
    HeadRecord(s, c, info, kids, next);
    DoomedSize(t);
    assert At(s, Cursor(c), t, Index(c));
    forall i | 0 <= i < Size(t) ensures Doomed(t)[i] == s[Cursor(c) + Size(t) - 1 - i].info {
      DoomedAt(s, Cursor(c), t, Index(c), i);
    }
  }
}

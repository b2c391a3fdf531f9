/** Composable bodies, and what a body does when it runs. */
module Programs {
  import opened Basics
  import opened Trees
  import opened State
  import Arenas
  import Hooks

  const MAX_DEPTH: nat := 64
  const MAX_SLOT: nat := 65528   // largest size whose aligned size fits 16 bits

  /** The calls a body makes into the session, in program order. */
  datatype Step =
    | Watch(cell: CellId)        // subscribe to a state cell and read it
    | Remember(size: nat)        // resolve a slot of pinned memory
    | Own(instance: nat)         // attach a destructor to the group
    | Invalidate(target: Key)    // schedule a group for another drain of this pass
    | Call(child: Key)           // enter a child composable

  /** body(k, f) is what the body of group k does when the published snapshot is f;
      path(k) is the chain of keys from the root to k. */
  datatype Program = Program(root: Key, body: (Key, Snapshot) -> seq<Step>, path: Key -> seq<Key>)

  /** What a pass reads and writes besides the group tree. */
  datatype World = World(
    next: nat,                   // next group identity
    room: nat,                   // free group records
    cells: seq<Cell>,
    arena: Arenas.Arena,
    hooks: seq<Hooks.Hook>,
    destroyed: seq<Hooks.Hook>,  // destructor calls, in order
    queue: seq<Key>,             // groups to invalidate before the next drain
    full: bool,                  // some group was refused for want of room
    missed: bool,                // some subscription was dropped for want of room
    starved: bool,               // some slot request returned no memory
    ran: seq<nat>,               // identities whose body ran, in order
    pruned: seq<nat>             // identities that were torn down, in order
  )

  /** k is a child that group q may emit. */
  predicate Emits(p: Program, q: Key, k: Key) {
    k != 0 && |p.path(q)| < MAX_DEPTH && p.path(k) == p.path(q) + [k]
  }

  /** Every child in steps belongs under q and nests within the depth limit. */
  predicate Nested(p: Program, q: Key, steps: seq<Step>) {
    forall i :: 0 <= i < |steps| && steps[i].Call? ==> Emits(p, q, steps[i].child)
  }

  /** No child is called twice. */
  predicate Distinct(steps: seq<Step>) {
    forall i, j :: 0 <= i < j < |steps| && steps[i].Call? && steps[j].Call? ==> steps[i].child != steps[j].child
  }

  /** Bodies nest within the depth limit and each key belongs to one parent. */
  ghost predicate WellFormed(p: Program) {
    && p.root != 0 && p.path(p.root) == [p.root]
    && forall q, f {:trigger p.body(q, f)} :: Nested(p, q, p.body(q, f))
  }

  /** Moreover each key occurs at most once among the children of a group. */
  ghost predicate Keyed(p: Program) {
    WellFormed(p) && forall q, f {:trigger p.body(q, f)} :: Distinct(p.body(q, f))
  }

  /** Every slot request is for a size that the slot records can hold. */
  predicate Fits(steps: seq<Step>) {
    forall i :: 0 <= i < |steps| && steps[i].Remember? ==> 0 < steps[i].size <= MAX_SLOT
  }

  ghost predicate Sized(p: Program) {
    forall k, f {:trigger p.body(k, f)} :: Fits(p.body(k, f))
  }

  /** f and g agree on every cell that the steps watch. */
  predicate AgreeOn(steps: seq<Step>, f: Snapshot, g: Snapshot) {
    forall i :: 0 <= i < |steps| && steps[i].Watch? ==> SameCell(f, g, steps[i].cell)
  }

  /** f and g agree on every cell that group k or an ancestor of it watches under f. */
  ghost predicate AgreeAlong(p: Program, keys: seq<Key>, f: Snapshot, g: Snapshot) {
    forall i :: 0 <= i < |keys| ==> AgreeOn(p.body(keys[i], f), f, g)
  }

  /** Bodies depend only on cells that they or their ancestors watch. */
  ghost predicate Reactive(p: Program) {
    forall k, f, g {:trigger p.body(k, f), p.body(k, g)} ::
      AgreeAlong(p, p.path(k), f, g) ==> p.body(k, f) == p.body(k, g)
  }

  // ------------------------------------------------------------------ single steps

  /** at is the address a slot request returned. */
  datatype Applied = Applied(info: Info, offset: nat, w: World, at: Option<nat>)

  /** Group k subscribes to a cell; a subscription for which there is no room is missed. */
  function Subscribed(c: CellId, k: Key, w: World): World {
    var cells' := Subscribe(w.cells, c, k);
    var lost := Find(w.cells, c) < |w.cells| && !Watching(cells', c, k);
    w.(cells := cells', missed := w.missed || lost)
  }

  function ApplyWatch(c: CellId, info: Info, offset: nat, w: World): Applied {
    Applied(info, offset, Subscribed(c, info.key, w), None)
  }

  function Mount(size: nat, info: Info, offset: nat, w: World): Applied {
    match Arenas.Allocate(w.arena, info.id, offset, size)
    case None => Applied(info, offset, w.(starved := true), None)
    case Some((arena', at)) =>
      Applied(if offset == 0 then info.(slotIndex := at) else info, offset + Arenas.AlignUp(size), w.(arena := arena'),
          Some(at))
  }

  /** Fires the hooks of a group and releases its slots. */
  function Reset(id: nat, w: World): World {
    w.(hooks := Hooks.Kept(w.hooks, id),
       destroyed := w.destroyed + Hooks.Fired(w.hooks, id),
       arena := Arenas.Release(w.arena, id))
  }

  /** The group starts over: everything it remembers goes, and it mounts from here on. */
  function Remount(size: nat, info: Info, offset: nat, w: World): Applied {
    Mount(size, info.(mount := true), offset, Reset(info.id, w))
  }

  function ApplyRemember(size: nat, info: Info, offset: nat, w: World): Applied {
    if info.mount then Mount(size, info, offset, w)
    else
      match Arenas.Lookup(w.arena, info.id, offset)
      case None => Applied(info, offset, w.(starved := true), None)
      case Some(i) =>
        var w1 := w.(arena := w.arena.(hint := i + 1));
        if w.arena.slots[i].userSize != size then Remount(size, info, offset, w1)
        else Applied(info, offset + Arenas.AlignUp(size), w1, Some(w.arena.slots[i].arenaOffset))
  }

  function ApplyOwn(instance: nat, info: Info, offset: nat, w: World): Applied {
    var h := Hooks.Hook(info.key, info.id, instance, true);
    Applied(info, offset, w.(hooks := if info.mount then Hooks.Register(w.hooks, h) else Hooks.Update(w.hooks, h)),
        None)
  }

  /** A step other than a call, taken by the group with the given record. */
  function Apply(s: Step, info: Info, offset: nat, w: World): Applied
    requires !s.Call?
  {
    match s
    case Watch(c) => ApplyWatch(c, info, offset, w)
    case Remember(size) => ApplyRemember(size, info, offset, w)
    case Own(instance) => ApplyOwn(instance, info, offset, w)
    case Invalidate(k) => Applied(info, offset, w.(queue := EnqueueOne(w.queue, k)), None)
  }

  /** A step leaves the identity, the flags, the structural counters and the logs alone, and
      changes the cells in their watchers at most. */
  ghost predicate StepKeeps(info: Info, w: World, a: Applied) {
    && a.info.key == info.key && a.info.id == info.id
    && a.info.inv == info.inv && a.info.cinv == info.cinv
    && a.w.next == w.next && a.w.room == w.room && a.w.full == w.full
    && a.w.ran == w.ran && a.w.pruned == w.pruned
    && (w.missed ==> a.w.missed) && (w.starved ==> a.w.starved)
    && OnlyWatchers(w.cells, a.w.cells)
  }

  lemma {:induction false} MountKeeps(size: nat, info: Info, offset: nat, w: World)
    ensures StepKeeps(info, w, Mount(size, info, offset, w))
    ensures Mount(size, info, offset, w).w.cells == w.cells
  {}

  lemma {:induction false} RememberKeeps(size: nat, info: Info, offset: nat, w: World)
    ensures StepKeeps(info, w, ApplyRemember(size, info, offset, w))
  {
    hide Mount, Remount, Arenas.Lookup;
    if info.mount {
      MountKeeps(size, info, offset, w);
    } else {
      match Arenas.Lookup(w.arena, info.id, offset)
      case None =>
      case Some(i) =>
        if w.arena.slots[i].userSize != size { RemountKeeps(size, info, offset, w.(arena := w.arena.(hint := i + 1))); }
    }
  }

  lemma {:induction false} RemountKeeps(size: nat, info: Info, offset: nat, w: World)
    ensures StepKeeps(info, w, Remount(size, info, offset, w))
  {
    MountKeeps(size, info.(mount := true), offset, Reset(info.id, w));
  }

  lemma {:induction false} ApplyKeeps(s: Step, info: Info, offset: nat, w: World)
    requires !s.Call?
    ensures StepKeeps(info, w, Apply(s, info, offset, w))
  {
    match s
    case Watch(c) => SubscribeAdds(w.cells, c, info.key, 0, 0);
    case Remember(size) => RememberKeeps(size, info, offset, w);
    case Own(_) =>
    case Invalidate(_) =>
  }
}

/** What holds of a session over whole runs of frames: identities are never shared or reused,
    the arena stays well placed, and remembered memory is pinned. */
module Lifetimes {
  import opened Basics
  import opened Trees
  import opened State
  import opened Programs
  import opened Passes
  import opened Flags
  import opened Census
  import opened Incremental
  import opened Frames
  import opened Executions
  import opened Pinning
  import opened Leaks
  import Marks
  import Arenas
  import ArenaFacts

  // ------------------------------------------------------------------ the arena over a pass

  lemma {:induction false} MountPlaces(size: nat, info: Info, offset: nat, w: World)
    requires ArenaFacts.WellPlaced(w.arena) && 0 < size
    ensures ArenaFacts.WellPlaced(Mount(size, info, offset, w).w.arena)
  {
    if Arenas.Allocate(w.arena, info.id, offset, size).Some? {
      ArenaFacts.AllocateFirstFit(w.arena, info.id, offset, size);
    }
  }

  lemma {:induction false} RememberPlaces(size: nat, info: Info, offset: nat, w: World)
    requires ArenaFacts.WellPlaced(w.arena) && 0 < size
    ensures ArenaFacts.WellPlaced(ApplyRemember(size, info, offset, w).w.arena)
  {
    hide ArenaFacts.WellPlaced, Arenas.Lookup, Mount, Remount;
    if info.mount {
      MountPlaces(size, info, offset, w);
    } else {
      match Arenas.Lookup(w.arena, info.id, offset)
      case None =>
      case Some(i) =>
        HintPlaces(w.arena, i + 1);
        if w.arena.slots[i].userSize != size {
          RemountPlaces(size, info, offset, w.(arena := w.arena.(hint := i + 1)));
        }
    }
  }

  lemma {:induction false} HintPlaces(a: Arenas.Arena, hint: nat)
    requires ArenaFacts.WellPlaced(a)
    ensures ArenaFacts.WellPlaced(a.(hint := hint))
  {}

  lemma {:induction false} RemountPlaces(size: nat, info: Info, offset: nat, w: World)
    requires ArenaFacts.WellPlaced(w.arena) && 0 < size
    ensures ArenaFacts.WellPlaced(Remount(size, info, offset, w).w.arena)
  {
    ArenaFacts.ReleaseKeeps(w.arena, info.id);
    MountPlaces(size, info.(mount := true), offset, Reset(info.id, w));
  }

  lemma {:induction false} TearDownPlaces(infos: seq<Info>, w: World)
    requires ArenaFacts.WellPlaced(w.arena)
    ensures ArenaFacts.WellPlaced(TearDownAll(infos, w).arena)
    decreases |infos|
  {
    if infos != [] {
      ArenaFacts.ReleaseKeeps(w.arena, infos[0].id);
      TearDownPlaces(infos[1..], TearDown(infos[0], w));
    }
  }

  lemma {:induction false} PrunePlaces(f: Forest, w: World)
    requires ArenaFacts.WellPlaced(w.arena)
    ensures ArenaFacts.WellPlaced(Prune(f, w).arena)
  {
    if f.Tree? {
      var infos := Doomed(Tree(f.info, f.kids, Nil));
      TearDownPlaces(infos, w);
      PrunePlaces(f.next, TearDownAll(infos, w));
    }
  }

  lemma {:induction false} StepsPlace(p: Program, snap: Snapshot, steps: seq<Step>, info: Info, offset: nat,
                                      rest: Forest, w: World)
    requires Ready(p, info.key, steps) && Sized(p) && Fits(steps) && ArenaFacts.WellPlaced(w.arena)
    ensures ArenaFacts.WellPlaced(Exec(p, snap, steps, info, offset, rest, w).w.arena)
    decreases MAX_DEPTH - |p.path(info.key)|, |steps|
  {
    if steps != [] {
      if steps[0].Call? {
        assert Emits(p, info.key, steps[0].child);
        var v := Visit(p, snap, steps[0].child, rest, w);
        VisitPlaces(p, snap, steps[0].child, rest, w);
        StepsPlace(p, snap, steps[1..], info, offset, v.rest, v.w);
      } else {
        var a := Apply(steps[0], info, offset, w);
        ApplyKeeps(steps[0], info, offset, w);
        if steps[0].Remember? { RememberPlaces(steps[0].size, info, offset, w); }
        StepsPlace(p, snap, steps[1..], a.info, a.offset, rest, a.w);
      }
    }
  }

  lemma {:induction false} VisitPlaces(p: Program, snap: Snapshot, k: Key, rest: Forest, w: World)
    requires WellFormed(p) && 0 < |p.path(k)| <= MAX_DEPTH && Sized(p) && ArenaFacts.WellPlaced(w.arena)
    ensures ArenaFacts.WellPlaced(Visit(p, snap, k, rest, w).w.arena)
    decreases MAX_DEPTH - |p.path(k)| + 1, 0
  {
    match Admit(k, rest, w)
    case Skip(_, _, _) =>
    case Enter(info, kids, _, w1) => BodyPlaces(p, snap, info, kids, w1);
  }

  lemma {:induction false} BodyPlaces(p: Program, snap: Snapshot, info: Info, kids: Forest, w: World)
    requires WellFormed(p) && |p.path(info.key)| <= MAX_DEPTH && Sized(p) && ArenaFacts.WellPlaced(w.arena)
    ensures ArenaFacts.WellPlaced(RunBody(p, snap, info, kids, w).w.arena)
    decreases MAX_DEPTH - |p.path(info.key)|, |p.body(info.key, snap)| + 1
  {
    var steps, w1 := p.body(info.key, snap), w.(ran := w.ran + [info.id]);
    assert Nested(p, info.key, steps);
    StepsPlace(p, snap, steps, info, 0, kids, w1);
    var r := Exec(p, snap, steps, info, 0, kids, w1);
    PrunePlaces(r.rest, r.w);
  }

  /** A pass keeps the arena well placed. */
  lemma {:induction false} PassPlaces(p: Program, snap: Snapshot, tree: Forest, w: World)
    requires WellFormed(p) && Sized(p) && ArenaFacts.WellPlaced(w.arena)
    ensures ArenaFacts.WellPlaced(Pass(p, snap, tree, w).w.arena)
  {
    if tree.Tree? && tree.info.key == p.root {
      BodyPlaces(p, snap, tree.info, tree.kids, w);
    } else {
      var w1 := Prune(tree, w);
      PrunePlaces(tree, w);
      BodyPlaces(p, snap, NewGroup(p.root, w1.next), Nil,
                 w1.(next := w1.next + 1, room := if w1.room > 0 then w1.room - 1 else 0));
    }
  }

  // ------------------------------------------------------------------ sound sessions

  /** The shape of the tree between passes, and of the arena. */
  ghost predicate Orderly(tree: Forest, w: World) {
    && Closed(tree) && (tree.Tree? ==> tree.next == Nil)
    && ArenaFacts.WellPlaced(w.arena)
  }

  /** h is the history of group id, and id is in the tree or among the pruned at most once. */
  ghost predicate Traced(h: seq<Execution>, tree: Forest, w: World, id: nat) {
    && Kept(h, Count(tree, id), w, id)
    && Count(tree, id) + Times(w.pruned, id) <= (if id < w.next then 1 else 0)
  }

  /** Identities are distinct, no group holds two slots for one request, and nothing is held for
      a group that is not in the tree. */
  ghost predicate Sound(tree: Forest, w: World) {
    && Orderly(tree, w) && Distinguished(tree, w) && Tidy(tree, w)
    && (forall id: nat {:trigger Slots(w, id)} :: Sole(Slots(w, id)) && (w.next <= id ==> Slots(w, id) == []))
  }

  /** A session that has composed nothing is sound. */
  lemma {:induction false} StartIsSound(w: World)
    requires w.arena.slots == [] && w.arena.used == 0 && w.pruned == [] && w.hooks == []
    requires forall i :: 0 <= i < |w.cells| ==> w.cells[i].watchers == []
    ensures Sound(Nil, w)
  {}

  /** In a sound session the slot a lookup resolves to does not depend on where it starts. */
  lemma {:induction false} SoundIsUnique(tree: Forest, w: World)
    requires Sound(tree, w)
    ensures ArenaFacts.Unique(w.arena.slots)
  {
    var slots := w.arena.slots;
    forall i, j | 0 <= i < j < |slots| && slots[i].groupId == slots[j].groupId
        && slots[i].slotOffset == slots[j].slotOffset
      ensures false
    {
      var id := slots[i].groupId;
      OwnedIn(slots, id, slots[i]);
      OwnedIn(slots, id, slots[j]);
      var a :| 0 <= a < |Slots(w, id)| && Slots(w, id)[a] == slots[i];
      var b :| 0 <= b < |Slots(w, id)| && Slots(w, id)[b] == slots[j];
      ArenaFacts.PlacedDisjoint(slots, 0, i, j);
      ArenaFacts.PlacedAbove(slots, 0, i);
      assert false;
    }
  }

  /** A history of a group about which nothing is claimed. */
  function Unknown(w: World, id: nat): seq<Execution> {
    if id < w.next then [Execution([0], [None], true, 0)] else []
  }

  lemma {:induction false} SoundTraces(tree: Forest, w: World, id: nat)
    requires Sound(tree, w)
    ensures Traced(Unknown(w, id), tree, w, id)
  {
    assert Count(tree, id) + Times(w.pruned, id) <= if id < w.next then 1 else 0;
    var h := Unknown(w, id);
    if id < w.next {
      assert !Granted(h[0].at) by { assert h[0].at[0].None?; }
    }
  }

  ghost predicate Traceable(tree: Forest, w: World, id: nat) {
    exists h :: Traced(h, tree, w, id)
  }

  lemma {:induction false} TracedSounds(tree: Forest, w: World)
    requires Orderly(tree, w) && Tidy(tree, w)
    requires forall id: nat :: Traceable(tree, w, id)
    ensures Sound(tree, w)
  {
    forall id: nat ensures Count(tree, id) + Times(w.pruned, id) <= if id < w.next then 1 else 0 {
      assert Traceable(tree, w, id);
      var h :| Traced(h, tree, w, id);
    }
    forall id: nat ensures Sole(Slots(w, id)) && (w.next <= id ==> Slots(w, id) == []) {
      assert Traceable(tree, w, id);
      var h :| Traced(h, tree, w, id);
    }
  }

  // ------------------------------------------------------------------ one drain

  lemma {:induction false} CountMark(f: Forest, k: Key, id: nat)
    ensures Count(Mark(f, k), id) == Count(f, id) && Count(MarkAll(f), id) == Count(f, id)
  {
    if f.Tree? {
      CountMark(f.kids, k, id);
      CountMark(f.next, k, id);
    }
  }

  lemma {:induction false} CountDrain(f: Forest, queue: seq<Key>, id: nat)
    ensures Count(Drain(f, queue), id) == Count(f, id)
    decreases |queue|
  {
    if queue != [] {
      CountMark(f, queue[|queue| - 1], id);
      CountDrain(Mark(f, queue[|queue| - 1]), queue[..|queue| - 1], id);
    }
  }

  /** The executions of group id in one drain. */
  ghost function DrainRuns(p: Program, tree: Forest, w: World, id: nat): seq<Execution>
    requires WellFormed(p)
  {
    var w1 := w.(cells := Publish(w.cells), queue := []);
    PassRuns(p, Snap(w1.cells), Drain(tree, w.queue), w1, id)
  }

  lemma {:induction false} DrainedOrderly(p: Program, tree: Forest, w: World)
    requires WellFormed(p) && Sized(p) && Orderly(tree, w)
    ensures Orderly(Drain(tree, w.queue), w)
    ensures var r := DrainOnce(p, tree, w); Orderly(r.done, r.w)
  {
    var t, w1 := Drain(tree, w.queue), w.(cells := Publish(w.cells), queue := []);
    DrainClosed(tree, w.queue);
    DrainRoots(tree, w.queue);
    PassCleans(p, Snap(w1.cells), t, w1, 0);
    PassPlaces(p, Snap(w1.cells), t, w1);
    DrainOnceGrows(p, tree, w);
  }

  lemma {:induction false} DrainTraces(p: Program, tree: Forest, w: World, id: nat, h: seq<Execution>)
    requires WellFormed(p) && Sized(p) && Orderly(tree, w) && Traced(h, tree, w, id)
    ensures var r := DrainOnce(p, tree, w); Traced(h + DrainRuns(p, tree, w, id), r.done, r.w, id)
  {
    var t, w1 := Drain(tree, w.queue), w.(cells := Publish(w.cells), queue := []);
    CountDrain(tree, w.queue, id);
    DrainedOrderly(p, tree, w);
    PassKept(p, Snap(w1.cells), t, w1, id, h);
    PassBalance(p, Snap(w1.cells), t, w1, id);
  }

  // ------------------------------------------------------------------ frames

  ghost function SettleRuns(p: Program, tree: Forest, w: World, n: nat, id: nat): seq<Execution>
    requires WellFormed(p)
    decreases n
  {
    if n == 0 || w.room == 0 then []
    else
      var r := DrainOnce(p, tree, w);
      DrainRuns(p, tree, w, id) + if r.w.queue == [] then [] else SettleRuns(p, r.done, r.w, n - 1, id)
  }

  lemma {:induction false} SettleTraces(p: Program, tree: Forest, w: World, n: nat, id: nat, h: seq<Execution>)
    requires WellFormed(p) && Sized(p) && Orderly(tree, w) && Traced(h, tree, w, id)
    ensures var o := Settle(p, tree, w, n);
            Orderly(o.tree, o.w) && Traced(h + SettleRuns(p, tree, w, n, id), o.tree, o.w, id)
    decreases n
  {
    if n == 0 {
      Joins(h, [], []);
    } else if w.room == 0 {
      Joins(h, [], []);
      BrokenTraces(p, tree, w, id, h);
    } else {
      var r := DrainOnce(p, tree, w);
      var now := DrainRuns(p, tree, w, id);
      DrainedOrderly(p, tree, w);
      DrainTraces(p, tree, w, id, h);
      if r.w.queue != [] {
        SettleTraces(p, r.done, r.w, n - 1, id, h + now);
        Joins(h, now, SettleRuns(p, r.done, r.w, n - 1, id));
      } else {
        Joins(h, now, []);
      }
    }
  }

  lemma {:induction false} Joins(a: seq<Execution>, b: seq<Execution>, c: seq<Execution>)
    ensures a + (b + c) == (a + b) + c && a + [] == a && b + [] == b
  {}

  /** A drain on a full table marks and publishes, and no body runs. */
  lemma {:induction false} BrokenTraces(p: Program, tree: Forest, w: World, id: nat, h: seq<Execution>)
    requires WellFormed(p) && Sized(p) && Orderly(tree, w) && Traced(h, tree, w, id)
    ensures var w1 := w.(cells := Publish(w.cells), queue := []);
            Orderly(Drain(tree, w.queue), w1) && Traced(h, Drain(tree, w.queue), w1, id)
  {
    DrainedOrderly(p, tree, w);
    CountDrain(tree, w.queue, id);
  }

  /** The executions of group id in one recomposition. */
  ghost function RecompositionRuns(p: Program, s: Status, n: nat, id: nat): seq<Execution>
    requires WellFormed(p)
  {
    var w := s.w.(queue := Transfer(s.w.queue, s.later).now);
    if s.composed && w.queue == [] && AllPublished(w.cells) then [] else SettleRuns(p, s.tree, w, n, id)
  }

  lemma {:induction false} RecompositionTraces(p: Program, s: Status, n: nat, id: nat, h: seq<Execution>)
    requires WellFormed(p) && Sized(p) && Orderly(s.tree, s.w) && Traced(h, s.tree, s.w, id)
    ensures var s' := Recomposition(p, s, n).after;
            Orderly(s'.tree, s'.w) && Traced(h + RecompositionRuns(p, s, n, id), s'.tree, s'.w, id)
  {
    var w, s' := s.w.(queue := Transfer(s.w.queue, s.later).now), Recomposition(p, s, n).after;
    TracedSame(h, s.tree, s.w, w, id);
    if s.composed && w.queue == [] && AllPublished(w.cells) {
      Joins(h, [], []);
    } else {
      SettleTraces(p, s.tree, w, n, id, h);
      TracedSame(h + RecompositionRuns(p, s, n, id), s'.tree, Settle(p, s.tree, w, n).w, s'.w, id);
    }
  }

  /** Worlds that differ in their queues and cells only. */
  lemma {:induction false} TracedSame(h: seq<Execution>, tree: Forest, w: World, w': World, id: nat)
    requires Orderly(tree, w) && Traced(h, tree, w, id)
    requires w'.arena == w.arena && w'.next == w.next && w'.pruned == w.pruned
    ensures Orderly(tree, w') && Traced(h, tree, w', id)
  {}

  /** Between recompositions the tree, the arena and the identities stay as they are. */
  lemma {:induction false} PerformAllElsewhere(s: Status, acts: seq<Act>)
    ensures var s' := PerformAll(s, acts);
            s'.tree == s.tree && s'.w.arena == s.w.arena && s'.w.next == s.w.next && s'.w.pruned == s.w.pruned
                && s'.w.ran == s.w.ran
    decreases |acts|
  {
    if acts != [] {
      PerformAllElsewhere(Perform(s, acts[0]), acts[1..]);
    }
  }

  /** Where a run ends. */
  ghost function End(p: Program, s: Status, frames: seq<seq<Act>>, n: nat): Status
    requires WellFormed(p)
  {
    var r := Frames.Run(p, s, frames, n);
    if r == [] then s else r[|r| - 1].after
  }

  /** The executions of group id over a run. */
  ghost function RunRuns(p: Program, s: Status, frames: seq<seq<Act>>, n: nat, id: nat): seq<Execution>
    requires WellFormed(p)
    decreases |frames|
  {
    if frames == [] then []
    else
      var s1 := PerformAll(s, frames[0]);
      var r := Recomposition(p, s1, n);
      RecompositionRuns(p, s1, n, id) + if r.verdict == Broken then [] else RunRuns(p, r.after, frames[1..], n, id)
  }

  lemma {:induction false} RunTraces(p: Program, s: Status, frames: seq<seq<Act>>, n: nat, id: nat, h: seq<Execution>)
    requires WellFormed(p) && Sized(p) && Orderly(s.tree, s.w) && Traced(h, s.tree, s.w, id)
    ensures var s' := End(p, s, frames, n);
            Orderly(s'.tree, s'.w) && Traced(h + RunRuns(p, s, frames, n, id), s'.tree, s'.w, id)
    decreases |frames|
  {
    Joins(h, [], []);
    if frames != [] {
      var s1 := PerformAll(s, frames[0]);
      var r := Recomposition(p, s1, n);
      var now := RecompositionRuns(p, s1, n, id);
      PerformAllElsewhere(s, frames[0]);
      TracedSame(h, s.tree, s.w, s1.w, id);
      RecompositionTraces(p, s1, n, id, h);
      if r.verdict == Broken {
        Joins(h, now, []);
      } else {
        RunTraces(p, r.after, frames[1..], n, id, h + now);
        Joins(h, now, RunRuns(p, r.after, frames[1..], n, id));
        EndOn(p, s, frames, n);
      }
    }
  }

  lemma {:induction false} EndOn(p: Program, s: Status, frames: seq<seq<Act>>, n: nat)
    requires WellFormed(p) && frames != [] && Recomposition(p, PerformAll(s, frames[0]), n).verdict != Broken
    ensures End(p, s, frames, n) == End(p, Recomposition(p, PerformAll(s, frames[0]), n).after, frames[1..], n)
  {}

  // ------------------------------------------------------------------ no leaks

  lemma {:induction false} KeyDrain(f: Forest, queue: seq<Key>, k: Key)
    ensures HasKey(Drain(f, queue), k) <==> HasKey(f, k)
    decreases |queue|
  {
    if queue != [] {
      Marks.MarkKeys(f, queue[|queue| - 1], k);
      KeyDrain(Mark(f, queue[|queue| - 1]), queue[..|queue| - 1], k);
    }
  }

  /** Marking, and anything else that moves no group and no hook, slot or watcher. */
  lemma {:induction false} TidySame(tree: Forest, w: World, t: Forest, w': World)
    requires Tidy(tree, w) && w'.arena == w.arena && w'.hooks == w.hooks
    requires forall id: nat :: Count(t, id) == Count(tree, id)
    requires forall k :: HasKey(t, k) <==> HasKey(tree, k)
    requires forall k :: Quiet(w.cells, k) ==> Quiet(w'.cells, k)
    ensures Tidy(t, w')
  {
    forall id: nat, k ensures Clear(Count(t, id), HasKey(t, k), w', id, k) {
      assert Clear(Count(tree, id), HasKey(tree, k), w, id, k);
    }
  }

  lemma {:induction false} MarkedTidies(tree: Forest, w: World)
    requires Tidy(tree, w)
    ensures Tidy(Drain(tree, w.queue), w.(cells := Publish(w.cells), queue := []))
  {
    hide Tidy, Count, HasKey, Drain;
    forall id: nat { CountDrain(tree, w.queue, id); }
    forall k { KeyDrain(tree, w.queue, k); }
    TidySame(tree, w, Drain(tree, w.queue), w.(cells := Publish(w.cells), queue := []));
  }

  lemma {:induction false} SettleTidies(p: Program, tree: Forest, w: World, n: nat)
    requires WellFormed(p) && Sized(p) && Orderly(tree, w) && Tidy(tree, w)
    ensures var o := Settle(p, tree, w, n); Orderly(o.tree, o.w) && Tidy(o.tree, o.w)
    decreases n
  {
    if n > 0 {
      var t, w1 := Drain(tree, w.queue), w.(cells := Publish(w.cells), queue := []);
      MarkedTidies(tree, w);
      DrainedOrderly(p, tree, w);
      if w.room > 0 {
        var r := DrainOnce(p, tree, w);
        PassTidies(p, Snap(w1.cells), t, w1);
        if r.w.queue != [] { SettleTidies(p, r.done, r.w, n - 1); }
      }
    }
  }

  lemma {:induction false} RecompositionTidies(p: Program, s: Status, n: nat)
    requires WellFormed(p) && Sized(p) && Orderly(s.tree, s.w) && Tidy(s.tree, s.w)
    ensures var s' := Recomposition(p, s, n).after; Orderly(s'.tree, s'.w) && Tidy(s'.tree, s'.w)
  {
    hide Quiet, Bare;
    var w, s' := s.w.(queue := Transfer(s.w.queue, s.later).now), Recomposition(p, s, n).after;
    TidySame(s.tree, s.w, s.tree, w);
    if !(s.composed && w.queue == [] && AllPublished(w.cells)) {
      SettleTidies(p, s.tree, w, n);
      TidySame(s'.tree, Settle(p, s.tree, w, n).w, s'.tree, s'.w);
    }
  }

  lemma {:induction false} ActsTidy(s: Status, acts: seq<Act>)
    requires Tidy(s.tree, s.w)
    ensures var s' := PerformAll(s, acts); Tidy(s'.tree, s'.w)
    decreases |acts|
  {
    if acts != [] {
      var s1 := Perform(s, acts[0]);
      TidySame(s.tree, s.w, s1.tree, s1.w);
      ActsTidy(s1, acts[1..]);
    }
  }

  lemma {:induction false} RunTidies(p: Program, s: Status, frames: seq<seq<Act>>, n: nat)
    requires WellFormed(p) && Sized(p) && Orderly(s.tree, s.w) && Tidy(s.tree, s.w)
    ensures var s' := End(p, s, frames, n); Tidy(s'.tree, s'.w)
    decreases |frames|
  {
    if frames != [] {
      var s1 := PerformAll(s, frames[0]);
      var r := Recomposition(p, s1, n);
      ActsTidy(s, frames[0]);
      PerformAllElsewhere(s, frames[0]);
      RecompositionTidies(p, s1, n);
      if r.verdict != Broken {
        RunTidies(p, r.after, frames[1..], n);
        EndOn(p, s, frames, n);
      }
    }
  }

  // ------------------------------------------------------------------ over whole runs

  /** Over any run of frames identities are never shared and never handed out twice, slots stay
      sorted and disjoint, no group holds two slots for one request, and no slot, hook or
      subscription names a group that is gone. */
  lemma {:induction false} RunStaysSound(p: Program, s: Status, frames: seq<seq<Act>>, n: nat)
    requires WellFormed(p) && Sized(p) && Sound(s.tree, s.w)
    ensures var s' := End(p, s, frames, n); Sound(s'.tree, s'.w) && ArenaFacts.Unique(s'.w.arena.slots)
  {
    var s' := End(p, s, frames, n);
    SoundTraces(s.tree, s.w, 0);
    RunTraces(p, s, frames, n, 0, Unknown(s.w, 0));
    forall id: nat ensures Traceable(s'.tree, s'.w, id) {
      SoundTraces(s.tree, s.w, id);
      RunTraces(p, s, frames, n, id, Unknown(s.w, id));
    }
    RunTidies(p, s, frames, n);
    TracedSounds(s'.tree, s'.w);
    SoundIsUnique(s'.tree, s'.w);
  }

  lemma {:induction false} StartsEmpty(h: seq<Execution>)
    ensures [] + h == h
  {}

  lemma {:induction false} TracedLawful(h: seq<Execution>, tree: Forest, w: World, id: nat)
    requires Traced(h, tree, w, id)
    ensures Lawful(h)
  {}

  /** Memory is pinned: over any run of frames, every execution of a group follows the last one
      that mounted.  The same requests get the same addresses in the same order, whatever the
      search hint, whatever calls lie between the requests, and whatever is inserted, moved
      and pruned elsewhere. */
  lemma {:induction false} MemoryIsPinned(p: Program, s: Status, frames: seq<seq<Act>>, n: nat, id: nat)
    requires WellFormed(p) && Sized(p) && Sound(s.tree, s.w) && s.w.next <= id
    ensures Lawful(RunRuns(p, s, frames, n, id))
  {
    SoundTraces(s.tree, s.w, id);
    RunTraces(p, s, frames, n, id, []);
    StartsEmpty(RunRuns(p, s, frames, n, id));
    TracedLawful(RunRuns(p, s, frames, n, id), End(p, s, frames, n).tree, End(p, s, frames, n).w, id);
  }

  /** In particular a group whose mount got all its memory keeps its addresses for as long as its
      body makes the same requests. */
  lemma {:induction false} MemoryIsSame(p: Program, s: Status, frames: seq<seq<Act>>, n: nat, id: nat, j: nat)
    requires WellFormed(p) && Sized(p) && Sound(s.tree, s.w) && s.w.next <= id
    requires var h := RunRuns(p, s, frames, n, id);
             j < |h| && Granted(h[0].at) && forall i :: 0 <= i <= j ==> h[i].sizes == h[0].sizes
    ensures var h := RunRuns(p, s, frames, n, id); h[j].at == h[0].at
  {
    MemoryIsPinned(p, s, frames, n, id);
    SameForLife(RunRuns(p, s, frames, n, id), j);
  }

  /** After a change of size the next run of the new requests is answered if and only if the
      change was at the first slot of the group. */
  lemma {:induction false} ResizeStartsOver(p: Program, s: Status, frames: seq<seq<Act>>, n: nat, id: nat, j: nat)
    requires WellFormed(p) && Sized(p) && Sound(s.tree, s.w) && s.w.next <= id
    requires var h := RunRuns(p, s, frames, n, id);
             0 < j < |h| && Granted(h[Base(h, j)].at) && h[j].sizes == h[Base(h, j)].sizes != []
    ensures var h := RunRuns(p, s, frames, n, id);
            && (Granted(h[j].at) <==> h[Base(h, j)].start == 0)
            && (Granted(h[j].at) ==> h[j].at == h[Base(h, j)].at)
  {
    MemoryIsPinned(p, s, frames, n, id);
    AnsweredAgainIff(RunRuns(p, s, frames, n, id), j);
    var h := RunRuns(p, s, frames, n, id);
    assert Follows(h[Base(h, j)], h[j]);
  }

  lemma {:induction false} BothGone(one: Arenas.Slot, two: Arenas.Slot)
    requires one.groupId == two.groupId
    ensures Arenas.Others([one, two], one.groupId) == []
            && Arenas.Total(Arenas.Owned([one, two], one.groupId)) == one.size + two.size
  {
    var all, id := [one, two], one.groupId;
    assert all[1..] == [two] && [two][1..] == [];
    assert Arenas.Others([two], id) == Arenas.Others([], id);
    assert Arenas.Owned([two], id) == [two] + Arenas.Owned([], id) == [two];
    assert Arenas.Owned(all, id) == [one] + Arenas.Owned([two], id) == all;
    assert Arenas.Total([two]) == two.size + Arenas.Total([]);
  }

  /** A group with two slots of 8 bytes, whose second request has grown to 16: the first address
      is handed out a second time, and in the next run the first request is refused. */
  lemma {:induction false} LateResizeLosesMemory()
    ensures var slots := [Arenas.Slot(1, 0, 0, 8, 8), Arenas.Slot(1, 8, 8, 8, 8)];
            var w := World(2, 0, [], Arenas.Arena(slots, 16, 64, 4, 0), [], [], [], false, false, false, [], []);
            var info := Info(5, 1, false, false, false, 0, 16);
            var first := ApplyRemember(8, info, 0, w);
            var second := ApplyRemember(16, first.info, first.offset, first.w);
            && first.at == Some(0) && second.at == Some(0) && second.info.mount
            && ApplyRemember(8, info, 0, second.w).at == None
  {
    var one, two := Arenas.Slot(1, 0, 0, 8, 8), Arenas.Slot(1, 8, 8, 8, 8);
    var a := Arenas.Arena([one, two], 16, 64, 4, 0);
    assert Arenas.AlignUp(8) == 8 && Arenas.AlignUp(16) == 16;
    assert Arenas.Lookup(a, 1, 0) == Some(0);
    assert Arenas.Lookup(a.(hint := 1), 1, 8) == Some(1);
    var b := a.(hint := 2);
    BothGone(one, two);
    assert Arenas.Release(b, 1) == Arenas.Arena([], 0, 64, 4, 2);
    var s := Arenas.Slot(1, 8, 0, 16, 16);
    assert Arenas.Grant(Arenas.Arena([], 0, 64, 4, 2), 1, 8, 16) == Some((s, 0));
    assert InsertedAt([], 0, s) == [s];
    assert Arenas.Lookup(Arenas.Arena([s], 16, 64, 4, 2), 1, 0) == None;
  }
}

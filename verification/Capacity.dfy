/** Refusals: a group, a slot request or a subscription is refused only when there is no room for it. */
module Capacity {
  import opened Basics
  import opened Trees
  import opened State
  import opened Programs
  import opened Passes
  import opened Executions
  import opened Frames
  import Arenas
  import ArenaFacts
  import Lifetimes
  import Snapshots

  // ------------------------------------------------------------------ single requests

  /** The table takes a new child exactly when a record is free. */
  lemma {:induction false} AdmitRefusesIff(k: Key, rest: Forest, w: World)
    requires !HasRoot(rest, k)
    ensures var e := Admit(k, rest, w);
            && (e.Enter? <==> w.room > 0)
            && (e.w.full <==> w.full || w.room == 0)
            && (e.Enter? ==> e.info.key == k && e.info.id == w.next && e.info.mount && e.rest == rest && e.kids == Nil)
  {}

  /** A mounting group is refused memory exactly when no slot record is free or no place fits; what it
      gets is the lowest place that fits. */
  lemma {:induction false} MountRefusesIff(size: nat, info: Info, offset: nat, w: World)
    requires ArenaFacts.WellPlaced(w.arena) && 0 < size
    ensures var a := Mount(size, info, offset, w);
            && (a.at == None <==> ArenaFacts.Exhausted(w.arena, Arenas.AlignUp(size)))
            && (a.at.Some? ==> ArenaFacts.Lowest(w.arena, a.at.value, Arenas.AlignUp(size)))
            && (a.w.starved <==> w.starved || a.at == None)
  {
    ArenaFacts.RequestIff(w.arena, info.id, offset, size);
  }

  /** A session is starved only by a request that returned nothing, whether the group mounts or not. */
  lemma {:induction false} StarvedIff(size: nat, info: Info, offset: nat, w: World)
    ensures var a := ApplyRemember(size, info, offset, w); a.w.starved <==> w.starved || a.at == None
  {
    hide Arenas.Lookup, Arenas.Allocate;
  }

  // ------------------------------------------------------------------ what a pass needs

  /** New groups, slots and bytes of slots. */
  datatype Need = Need(groups: nat, slots: nat, bytes: nat)

  function Plus(a: Need, b: Need): Need {
    Need(a.groups + b.groups, a.slots + b.slots, a.bytes + b.bytes)
  }

  const NOTHING := Need(0, 0, 0)

  /** What the steps of a body ask for, with everything that the bodies called by them ask for. */
  ghost function StepsNeed(p: Program, snap: Snapshot, steps: seq<Step>, info: Info, offset: nat, rest: Forest,
                           w: World): Need
    requires Ready(p, info.key, steps)
    decreases MAX_DEPTH - |p.path(info.key)|, |steps|
  {
    if steps == [] then NOTHING
    else if steps[0].Call? then
      assert Emits(p, info.key, steps[0].child);
      var v := Visit(p, snap, steps[0].child, rest, w);
      Plus(VisitNeed(p, snap, steps[0].child, rest, w), StepsNeed(p, snap, steps[1..], info, offset, v.rest, v.w))
    else
      var a := Apply(steps[0], info, offset, w);
      assert a.info.key == info.key by { ApplyKeeps(steps[0], info, offset, w); }
      Plus(StepNeed(steps[0]), StepsNeed(p, snap, steps[1..], a.info, a.offset, rest, a.w))
  }

  function StepNeed(s: Step): Need {
    if s.Remember? then Need(0, 1, Arenas.AlignUp(s.size)) else NOTHING
  }

  /** A child that has no old group needs a record; a clean old group needs nothing. */
  ghost function VisitNeed(p: Program, snap: Snapshot, c: Key, rest: Forest, w: World): Need
    requires WellFormed(p) && 0 < |p.path(c)| <= MAX_DEPTH
    decreases MAX_DEPTH - |p.path(c)| + 1, 0
  {
    if HasRoot(rest, c) then
      var t := Pick(rest, c);
      if t.info.inv || t.info.cinv then BodyNeed(p, snap, t.info.(inv := false, cinv := false), t.kids, w) else NOTHING
    else if w.room == 0 then Need(1, 0, 0)
    else Plus(Need(1, 0, 0), BodyNeed(p, snap, NewGroup(c, w.next), Nil, w.(next := w.next + 1, room := w.room - 1)))
  }

  ghost function BodyNeed(p: Program, snap: Snapshot, info: Info, kids: Forest, w: World): Need
    requires WellFormed(p) && |p.path(info.key)| <= MAX_DEPTH
    decreases MAX_DEPTH - |p.path(info.key)|, |p.body(info.key, snap)| + 1
  {
    assert Nested(p, info.key, p.body(info.key, snap));
    StepsNeed(p, snap, p.body(info.key, snap), info, 0, kids, w.(ran := w.ran + [info.id]))
  }

  /** What a pass needs besides a new root. */
  ghost function PassNeed(p: Program, snap: Snapshot, tree: Forest, w: World): Need
    requires WellFormed(p)
  {
    if tree.Tree? && tree.info.key == p.root then BodyNeed(p, snap, tree.info, tree.kids, w)
    else
      var w1 := Prune(tree, w);
      BodyNeed(p, snap, NewGroup(p.root, w1.next), Nil,
          w1.(next := w1.next + 1, room := if w1.room > 0 then w1.room - 1 else 0))
  }

  // ------------------------------------------------------------------ groups

  lemma {:induction false} TearDownFrees(infos: seq<Info>, w: World)
    ensures TearDownAll(infos, w).room == w.room + |infos|
    decreases |infos|
  {
    if infos != [] {
      TearDownFrees(infos[1..], TearDown(infos[0], w));
    }
  }

  lemma {:induction false} PruneFrees(f: Forest, w: World)
    ensures w.room <= Prune(f, w).room
  {
    if f.Tree? {
      var infos := Doomed(Tree(f.info, f.kids, Nil));
      TearDownFrees(infos, w);
      PruneFrees(f.next, TearDownAll(infos, w));
    }
  }

  /** While the free records cover the new groups, none is refused. */
  ghost predicate Covered(w: World, w': World, groups: nat) {
    groups <= w.room ==> w'.full == w.full && w.room - groups <= w'.room
  }

  lemma {:induction false} CoveredJoins(w: World, w1: World, w2: World, a: nat, b: nat)
    requires Covered(w, w1, a) && Covered(w1, w2, b)
    ensures Covered(w, w2, a + b)
  {}

  lemma {:induction false} StepsCover(p: Program, snap: Snapshot, steps: seq<Step>, info: Info, offset: nat,
                                      rest: Forest,
                                      w: World)
    requires Ready(p, info.key, steps)
    ensures Covered(w, Exec(p, snap, steps, info, offset, rest, w).w,
                    StepsNeed(p, snap, steps, info, offset, rest, w).groups)
    decreases MAX_DEPTH - |p.path(info.key)|, |steps|
  {
    hide Visit, VisitNeed, Apply;
    if steps != [] {
      if steps[0].Call? {
        assert Emits(p, info.key, steps[0].child);
        var v := Visit(p, snap, steps[0].child, rest, w);
        VisitCovers(p, snap, steps[0].child, rest, w);
        StepsCover(p, snap, steps[1..], info, offset, v.rest, v.w);
      } else {
        var a := Apply(steps[0], info, offset, w);
        ApplyKeeps(steps[0], info, offset, w);
        StepsCover(p, snap, steps[1..], a.info, a.offset, rest, a.w);
      }
    }
  }

  lemma {:induction false} VisitCovers(p: Program, snap: Snapshot, c: Key, rest: Forest, w: World)
    requires WellFormed(p) && 0 < |p.path(c)| <= MAX_DEPTH
    ensures Covered(w, Visit(p, snap, c, rest, w).w, VisitNeed(p, snap, c, rest, w).groups)
    decreases MAX_DEPTH - |p.path(c)| + 1, 0
  {
    hide RunBody, BodyNeed;
    if HasRoot(rest, c) {
      var t := Pick(rest, c);
      if Dirty(t.info) { BodyCovers(p, snap, Cleared(t.info), t.kids, w); }
    } else if w.room > 0 {
      BodyCovers(p, snap, NewGroup(c, w.next), Nil, w.(next := w.next + 1, room := w.room - 1));
    }
  }

  lemma {:induction false} BodyCovers(p: Program, snap: Snapshot, info: Info, kids: Forest, w: World)
    requires WellFormed(p) && |p.path(info.key)| <= MAX_DEPTH
    ensures Covered(w, RunBody(p, snap, info, kids, w).w, BodyNeed(p, snap, info, kids, w).groups)
    decreases MAX_DEPTH - |p.path(info.key)|, |p.body(info.key, snap)| + 1
  {
    hide Exec, StepsNeed;
    var steps, w1 := p.body(info.key, snap), w.(ran := w.ran + [info.id]);
    assert Nested(p, info.key, steps);
    StepsCover(p, snap, steps, info, 0, kids, w1);
    var r := Exec(p, snap, steps, info, 0, kids, w1);
    PruneFrees(r.rest, r.w);
    PruneGrows(r.rest, r.w);
  }

  /** A pass refuses no group while the free records cover the groups that it mounts. */
  lemma {:induction false} PassCovers(p: Program, snap: Snapshot, tree: Forest, w: World)
    requires WellFormed(p)
    ensures var keeps := tree.Tree? && tree.info.key == p.root;
            PassNeed(p, snap, tree, w).groups + (if keeps then 0 else 1) <= w.room ==>
              Pass(p, snap, tree, w).w.full == w.full
  {
    hide RunBody, BodyNeed;
    if tree.Tree? && tree.info.key == p.root {
      BodyCovers(p, snap, tree.info, tree.kids, w);
    } else {
      var w1 := Prune(tree, w);
      PruneFrees(tree, w);
      PruneGrows(tree, w);
      BodyCovers(p, snap, NewGroup(p.root, w1.next), Nil,
                 w1.(next := w1.next + 1, room := if w1.room > 0 then w1.room - 1 else 0));
    }
  }

  // ------------------------------------------------------------------ slots

  /** There is room behind the last slot, and there are records, for what is still needed. */
  ghost predicate Spacious(w: World, need: Need) {
    && ArenaFacts.WellPlaced(w.arena)
    && ArenaFacts.Top(w.arena.slots, 0) + need.bytes <= w.arena.limit
    && |w.arena.slots| + need.slots <= w.arena.maxSlots
  }

  lemma {:induction false} ReleaseMakesRoom(id: nat, w: World, need: Need)
    requires Spacious(w, need)
    ensures Spacious(Reset(id, w), need)
  {
    ArenaFacts.ReleaseKeeps(w.arena, id);
    ArenaFacts.OthersPlaced(w.arena.slots, 0, id);
    FewerOthers(w.arena.slots, id);
  }

  lemma {:induction false} FewerOthers(slots: seq<Arenas.Slot>, id: nat)
    ensures |Arenas.Others(slots, id)| <= |slots|
    decreases |slots|
  {
    if slots != [] {
      FewerOthers(slots[1..], id);
    }
  }

  lemma {:induction false} TearDownMakesRoom(infos: seq<Info>, w: World, need: Need)
    requires Spacious(w, need)
    ensures Spacious(TearDownAll(infos, w), need)
    decreases |infos|
  {
    if infos != [] {
      ReleaseMakesRoom(infos[0].id, w, need);
      TearDownMakesRoom(infos[1..], TearDown(infos[0], w), need);
    }
  }

  lemma {:induction false} PruneMakesRoom(f: Forest, w: World, need: Need)
    requires Spacious(w, need)
    ensures Spacious(Prune(f, w), need)
  {
    if f.Tree? {
      var infos := Doomed(Tree(f.info, f.kids, Nil));
      TearDownMakesRoom(infos, w, need);
      PruneMakesRoom(f.next, TearDownAll(infos, w), need);
    }
  }

  lemma {:induction false} MountTakes(size: nat, info: Info, offset: nat, w: World, need: Need)
    requires 0 < size && Spacious(w, Plus(Need(0, 1, Arenas.AlignUp(size)), need))
    ensures var a := Mount(size, info, offset, w); a.at.Some? && Spacious(a.w, need)
  {
    ArenaFacts.TopFits(w.arena, info.id, offset, size);
  }

  lemma {:induction false} MountStays(size: nat, info: Info, offset: nat, w: World)
    ensures Mount(size, info, offset, w).info.mount == info.mount
  {}

  lemma {:induction false} RememberTakes(size: nat, info: Info, offset: nat, w: World, need: Need)
    requires 0 < size && Spacious(w, Plus(Need(0, 1, Arenas.AlignUp(size)), need))
    ensures var a := ApplyRemember(size, info, offset, w);
            Spacious(a.w, need) && (info.mount ==> a.at.Some? && a.info.mount)
  {
    hide Mount, Reset, Arenas.Lookup, ArenaFacts.WellPlaced;
    if info.mount {
      MountTakes(size, info, offset, w, need);
      MountStays(size, info, offset, w);
    } else {
      match Arenas.Lookup(w.arena, info.id, offset)
      case None =>
      case Some(i) =>
        var w1 := w.(arena := w.arena.(hint := i + 1));
        Lifetimes.HintPlaces(w.arena, i + 1);
        if w.arena.slots[i].userSize != size {
          ReleaseMakesRoom(info.id, w1, Plus(Need(0, 1, Arenas.AlignUp(size)), need));
          MountTakes(size, info.(mount := true), offset, Reset(info.id, w1), need);
        }
    }
  }

  lemma {:induction false} StepTakes(s: Step, info: Info, offset: nat, w: World, need: Need)
    requires !s.Call? && (s.Remember? ==> 0 < s.size) && Spacious(w, Plus(StepNeed(s), need))
    ensures var a := Apply(s, info, offset, w);
            Spacious(a.w, need) && (info.mount ==> a.info.mount && (s.Remember? ==> a.at.Some?))
  {
    if s.Remember? { RememberTakes(s.size, info, offset, w, need); }
  }

  lemma {:induction false} PlusMoves(a: Need, b: Need, c: Need)
    ensures Plus(Plus(a, b), c) == Plus(a, Plus(b, c)) && Plus(NOTHING, a) == a
  {}

  /** While the arena covers what is asked for, a mounting group gets all its memory. */
  lemma {:induction false} StepsTake(p: Program, snap: Snapshot, steps: seq<Step>, info: Info, offset: nat,
                                     rest: Forest,
                                     w: World, need: Need)
    requires Ready(p, info.key, steps) && Sized(p) && Fits(steps)
    requires Spacious(w, Plus(StepsNeed(p, snap, steps, info, offset, rest, w), need))
    ensures Spacious(Exec(p, snap, steps, info, offset, rest, w).w, need)
    ensures info.mount ==> Granted(Answers(p, snap, steps, info, offset, rest, w))
    decreases MAX_DEPTH - |p.path(info.key)|, |steps|
  {
    hide Visit, VisitNeed, Apply, Spacious, StepNeed;
    if steps == [] {
      PlusMoves(need, NOTHING, NOTHING);
    } else if steps[0].Call? {
      assert Emits(p, info.key, steps[0].child);
      var v := Visit(p, snap, steps[0].child, rest, w);
      var later := StepsNeed(p, snap, steps[1..], info, offset, v.rest, v.w);
      PlusMoves(VisitNeed(p, snap, steps[0].child, rest, w), later, need);
      VisitTakes(p, snap, steps[0].child, rest, w, Plus(later, need));
      StepsTake(p, snap, steps[1..], info, offset, v.rest, v.w, need);
    } else {
      var a := Apply(steps[0], info, offset, w);
      ApplyKeeps(steps[0], info, offset, w);
      var later := StepsNeed(p, snap, steps[1..], a.info, a.offset, rest, a.w);
      PlusMoves(StepNeed(steps[0]), later, need);
      StepTakes(steps[0], info, offset, w, Plus(later, need));
      StepsTake(p, snap, steps[1..], a.info, a.offset, rest, a.w, need);
    }
  }

  lemma {:induction false} VisitTakes(p: Program, snap: Snapshot, c: Key, rest: Forest, w: World, need: Need)
    requires WellFormed(p) && 0 < |p.path(c)| <= MAX_DEPTH && Sized(p)
    requires Spacious(w, Plus(VisitNeed(p, snap, c, rest, w), need))
    ensures Spacious(Visit(p, snap, c, rest, w).w, need)
    decreases MAX_DEPTH - |p.path(c)| + 1, 0
  {
    hide RunBody, BodyNeed;
    if HasRoot(rest, c) {
      var t := Pick(rest, c);
      if Dirty(t.info) { BodyTakes(p, snap, Cleared(t.info), t.kids, w, need); }
    } else if w.room > 0 {
      BodyTakes(p, snap, NewGroup(c, w.next), Nil, w.(next := w.next + 1, room := w.room - 1), need);
    }
  }

  /** A group whose body runs as it mounts gets all its memory while the arena covers what its body and
      the bodies it calls ask for. */
  lemma {:induction false} BodyTakes(p: Program, snap: Snapshot, info: Info, kids: Forest, w: World, need: Need)
    requires WellFormed(p) && |p.path(info.key)| <= MAX_DEPTH && Sized(p)
    requires Spacious(w, Plus(BodyNeed(p, snap, info, kids, w), need))
    ensures Spacious(RunBody(p, snap, info, kids, w).w, need)
    ensures Ready(p, info.key, p.body(info.key, snap))
    ensures info.mount ==> Granted(Executed(p, snap, info, kids, w.(ran := w.ran + [info.id])).at)
    decreases MAX_DEPTH - |p.path(info.key)|, |p.body(info.key, snap)| + 1
  {
    hide Exec, StepsNeed, Answers;
    var steps, w1 := p.body(info.key, snap), w.(ran := w.ran + [info.id]);
    assert Nested(p, info.key, steps) && Fits(steps);
    StepsTake(p, snap, steps, info, 0, kids, w1, need);
    var r := Exec(p, snap, steps, info, 0, kids, w1);
    PruneMakesRoom(r.rest, r.w, need);
  }

  // ------------------------------------------------------------------ the record of a mount

  /** The slot bytes that the sizes take up. */
  function Extent(sizes: seq<nat>): nat {
    if sizes == [] then 0 else Arenas.AlignUp(sizes[0]) + Extent(sizes[1..])
  }

  /** A mounting group whose requests are all granted. */
  lemma {:induction false} StepsExtend(p: Program, snap: Snapshot, steps: seq<Step>, info: Info, offset: nat,
                                       rest: Forest, w: World)
    requires Ready(p, info.key, steps) && Fits(steps) && info.mount
    requires Granted(Answers(p, snap, steps, info, offset, rest, w))
    ensures var r, at := Exec(p, snap, steps, info, offset, rest, w), Answers(p, snap, steps, info, offset, rest, w);
            && r.info.mount && r.offset == offset + Extent(Sizes(steps)) && |at| == |Sizes(steps)|
            && r.info.slotIndex == if offset == 0 && at != [] then at[0].value else info.slotIndex
    decreases |steps|
  {
    hide Visit, ApplyRemember;
    AnswersSize(p, snap, steps, info, offset, rest, w);
    if steps != [] {
      if steps[0].Call? {
        assert Emits(p, info.key, steps[0].child);
        var v := Visit(p, snap, steps[0].child, rest, w);
        StepsExtend(p, snap, steps[1..], info, offset, v.rest, v.w);
      } else {
        var a := Apply(steps[0], info, offset, w);
        ApplyKeeps(steps[0], info, offset, w);
        var at := Answers(p, snap, steps, info, offset, rest, w);
        var later := Answers(p, snap, steps[1..], a.info, a.offset, rest, a.w);
        if steps[0].Remember? {
          assert at == [a.at] + later && at[0].Some?;
          assert later == at[1..];
          assert Sizes(steps)[1..] == Sizes(steps[1..]);
          MountExtends(steps[0].size, info, offset, w);
        }
        StepsExtend(p, snap, steps[1..], a.info, a.offset, rest, a.w);
      }
    }
  }

  lemma {:induction false} MountExtends(size: nat, info: Info, offset: nat, w: World)
    requires info.mount && ApplyRemember(size, info, offset, w).at.Some?
    ensures var a := ApplyRemember(size, info, offset, w);
            && a.info.mount && a.offset == offset + Arenas.AlignUp(size)
            && a.info.slotIndex == if offset == 0 then a.at.value else info.slotIndex
  {}

  /** The record of a group that has mounted with all its memory says where its memory begins and how
      much of it there is, modulo the width of the count, and the group is no longer mounting. */
  lemma {:induction false} BodyRecords(p: Program, snap: Snapshot, info: Info, kids: Forest, w: World)
    requires WellFormed(p) && |p.path(info.key)| <= MAX_DEPTH && Sized(p) && info.mount
    requires Ready(p, info.key, p.body(info.key, snap))
    requires Granted(Executed(p, snap, info, kids, w.(ran := w.ran + [info.id])).at)
    ensures var e := Executed(p, snap, info, kids, w.(ran := w.ran + [info.id]));
            var done := RunBody(p, snap, info, kids, w).done;
            && done.Tree? && !done.info.mount && done.info.slotCount == Extent(e.sizes) % 0x1_0000
            && (e.at != [] ==> done.info.slotIndex == e.at[0].value)
  {
    StepsExtend(p, snap, p.body(info.key, snap), info, 0, kids, w.(ran := w.ran + [info.id]));
  }

  // ------------------------------------------------------------------ subscriptions

  /** A subscription is missed only when the watchers of an existing cell have no room for it. */
  lemma {:induction false} SubscribedMissesIff(c: CellId, k: Key, w: World)
    requires k != 0
    ensures var i := Find(w.cells, c);
            Subscribed(c, k, w).missed <==>
              w.missed || (i < |w.cells| && k !in w.cells[i].watchers && |w.cells[i].watchers| >= MAX_WATCHERS)
  {
    Snapshots.SubscribeRecords(w.cells, c, k);
  }

  /** The watchers of a mutated cell are missed only when those not queued yet do not fit into the queue. */
  lemma {:induction false} MutateMissesIff(w: World, m: Mutation)
    requires |w.queue| <= MAX_QUEUE
    ensures Mutate(w, m).missed <==>
            w.missed || |w.queue| + |Snapshots.New(w.queue, WatchersOf(w.cells, m.cell))| > MAX_QUEUE
  {
    var keys := WatchersOf(w.cells, m.cell);
    var queue := Enqueue(w.queue, keys);
    Snapshots.AllScheduled(w.queue, keys);
    assert Covers(queue, keys) <==> forall k :: k in keys ==> k in queue by {
      if Covers(queue, keys) {
        forall k | k in keys ensures k in queue {
          var i :| 0 <= i < |keys| && keys[i] == k;
        }
      }
    }
  }
}

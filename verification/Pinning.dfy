/** Remembered memory is pinned: a group gets the same addresses every time its body makes the
    same requests, whatever happens to other groups and wherever searches start. */
module Pinning {
  import opened Basics
  import opened Trees
  import opened State
  import opened Programs
  import opened Passes
  import opened Census
  import opened Flags
  import opened Executions
  import Arenas
  import ArenaFacts

  /** The slots of group id. */
  function Slots(w: World, id: nat): seq<Arenas.Slot> {
    Arenas.Owned(w.arena.slots, id)
  }

  /** Group id holds one slot for each request of the run from offset on, at the given address. */
  ghost predicate Holding(owned: seq<Arenas.Slot>, id: nat, offset: nat, sizes: seq<nat>, at: seq<Option<nat>>)
    decreases |sizes|
  {
    && |at| == |sizes|
    && (sizes != [] ==>
          && at[0].Some?
          && Arenas.Slot(id, offset, at[0].value, Arenas.AlignUp(sizes[0]), sizes[0]) in owned
          && Holding(owned, id, offset + Arenas.AlignUp(sizes[0]), sizes[1..], at[1..]))
  }

  /** No two different slots of the group answer one request. */
  predicate Sole(owned: seq<Arenas.Slot>) {
    forall i, j :: 0 <= i < |owned| && 0 <= j < |owned| && owned[i].slotOffset == owned[j].slotOffset ==>
        owned[i] == owned[j]
  }

  predicate Under(owned: seq<Arenas.Slot>, offset: nat) {
    forall i :: 0 <= i < |owned| ==> owned[i].slotOffset < offset
  }

  predicate Above(owned: seq<Arenas.Slot>, lo: nat) {
    forall i :: 0 <= i < |owned| ==> lo <= owned[i].slotOffset
  }

  lemma {:induction false} OwnedIn(slots: seq<Arenas.Slot>, id: nat, s: Arenas.Slot)
    ensures s in Arenas.Owned(slots, id) <==> s in slots && s.groupId == id
    decreases |slots|
  {
    if slots != [] {
      OwnedIn(slots[1..], id, s);
      assert slots == [slots[0]] + slots[1..];
    }
  }

  /** Inserting a slot of the group adds it to what the group owns. */
  lemma {:induction false} OwnedGrows(slots: seq<Arenas.Slot>, i: nat, s: Arenas.Slot, x: Arenas.Slot)
    requires i <= |slots|
    ensures x in Arenas.Owned(InsertedAt(slots, i, s), s.groupId) <==> x in Arenas.Owned(slots, s.groupId) || x == s
  {
    OwnedIn(slots, s.groupId, x);
    OwnedIn(InsertedAt(slots, i, s), s.groupId, x);
    assert slots == slots[..i] + slots[i..];
  }

  // ------------------------------------------------------------------ what leaves the slots of a group alone

  lemma {:induction false} MountElsewhere(size: nat, info: Info, offset: nat, w: World, id: nat)
    requires id != info.id
    ensures Arenas.Owned(Mount(size, info, offset, w).w.arena.slots, id) == Arenas.Owned(w.arena.slots, id)
  {
    var g := Arenas.Grant(w.arena, info.id, offset, size);
    if g.Some? {
      ArenaFacts.OwnedInserted(w.arena.slots, g.value.1, g.value.0, id);
    }
  }

  /** Requests of another group. */
  lemma {:induction false} RememberElsewhere(size: nat, info: Info, offset: nat, w: World, id: nat)
    requires id != info.id
    ensures Arenas.Owned(ApplyRemember(size, info, offset, w).w.arena.slots, id) == Arenas.Owned(w.arena.slots, id)
  {
    var a := ApplyRemember(size, info, offset, w);
    if info.mount {
      MountElsewhere(size, info, offset, w, id);
    } else {
      match Arenas.Lookup(w.arena, info.id, offset)
      case None =>
      case Some(i) =>
        var w1 := w.(arena := w.arena.(hint := i + 1));
        if w.arena.slots[i].userSize != size {
          var w2 := Reset(info.id, w1);
          assert w2.arena.slots == Arenas.Others(w.arena.slots, info.id);
          assert a == Mount(size, info.(mount := true), offset, w2);
          ArenaFacts.OwnedOthers(w.arena.slots, info.id, id);
          MountElsewhere(size, info.(mount := true), offset, w2, id);
        } else {
          assert a.w == w1;
        }
    }
  }

  lemma {:induction false} TimesGrow(a: seq<nat>, b: seq<nat>, id: nat)
    requires a <= b
    ensures Times(a, id) <= Times(b, id)
    decreases |b|
  {
    if |a| < |b| {
      TimesGrow(a, b[..|b| - 1], id);
    } else {
      assert a == b;
    }
  }

  /** Group id neither ran nor was pruned on the way from w to w'. */
  predicate Idle(w: World, w': World, id: nat) {
    Times(w'.ran, id) == Times(w.ran, id) && Times(w'.pruned, id) == Times(w.pruned, id)
  }

  lemma {:induction false} IdleSplits(w1: World, w2: World, w3: World, id: nat)
    requires Sticky(w1, w2) && Sticky(w2, w3) && Idle(w1, w3, id)
    ensures Idle(w1, w2, id) && Idle(w2, w3, id)
  {
    TimesGrow(w1.ran, w2.ran, id);
    TimesGrow(w2.ran, w3.ran, id);
    TimesGrow(w1.pruned, w2.pruned, id);
    TimesGrow(w2.pruned, w3.pruned, id);
  }

  lemma {:induction false} TearDownElsewhere(infos: seq<Info>, w: World, id: nat)
    requires Idle(w, TearDownAll(infos, w), id)
    ensures Arenas.Owned(TearDownAll(infos, w).arena.slots, id) == Arenas.Owned(w.arena.slots, id)
    decreases |infos|
  {
    if infos != [] {
      var w1 := TearDown(infos[0], w);
      TearDownGrows(infos[..1], w);
      TearDownGrows(infos[1..], w1);
      assert Sticky(w, w1);
      IdleSplits(w, w1, TearDownAll(infos, w), id);
      assert w1.pruned[..|w.pruned|] == w.pruned;
      ArenaFacts.OwnedOthers(w.arena.slots, infos[0].id, id);
      TearDownElsewhere(infos[1..], w1, id);
    }
  }

  lemma {:induction false} PruneElsewhere(f: Forest, w: World, id: nat)
    requires Idle(w, Prune(f, w), id)
    ensures Arenas.Owned(Prune(f, w).arena.slots, id) == Arenas.Owned(w.arena.slots, id)
  {
    if f.Tree? {
      var infos := Doomed(Tree(f.info, f.kids, Nil));
      var w1 := TearDownAll(infos, w);
      TearDownGrows(infos, w);
      PruneGrows(f.next, w1);
      IdleSplits(w, w1, Prune(f, w), id);
      TearDownElsewhere(infos, w, id);
      PruneElsewhere(f.next, w1, id);
    }
  }

  /** A pass leaves the slots of every group alone that neither runs in it nor is pruned by it. */
  lemma {:induction false} ExecElsewhere(p: Program, snap: Snapshot, steps: seq<Step>, info: Info, offset: nat,
                                         rest: Forest, w: World, id: nat)
    requires Ready(p, info.key, steps) && id != info.id
    requires Idle(w, Exec(p, snap, steps, info, offset, rest, w).w, id)
    ensures Arenas.Owned(Exec(p, snap, steps, info, offset, rest, w).w.arena.slots, id) ==
            Arenas.Owned(w.arena.slots, id)
    decreases MAX_DEPTH - |p.path(info.key)|, |steps|
  {
    hide Visit, ApplyRemember, Arenas.Owned;
    if steps != [] {
      if steps[0].Call? {
        var k := steps[0].child;
        assert Emits(p, info.key, k);
        var v := Visit(p, snap, k, rest, w);
        VisitGrows(p, snap, k, rest, w);
        ExecGrows(p, snap, steps[1..], info, offset, v.rest, v.w);
        IdleSplits(w, v.w, Exec(p, snap, steps[1..], info, offset, v.rest, v.w).w, id);
        VisitElsewhere(p, snap, k, rest, w, id);
        ExecElsewhere(p, snap, steps[1..], info, offset, v.rest, v.w, id);
      } else {
        var a := Apply(steps[0], info, offset, w);
        ApplyKeeps(steps[0], info, offset, w);
        if steps[0].Remember? { RememberElsewhere(steps[0].size, info, offset, w, id); }
        ExecElsewhere(p, snap, steps[1..], a.info, a.offset, rest, a.w, id);
      }
    }
  }

  lemma {:induction false} VisitElsewhere(p: Program, snap: Snapshot, k: Key, rest: Forest, w: World, id: nat)
    requires WellFormed(p) && 0 < |p.path(k)| <= MAX_DEPTH
    requires Idle(w, Visit(p, snap, k, rest, w).w, id)
    ensures Arenas.Owned(Visit(p, snap, k, rest, w).w.arena.slots, id) == Arenas.Owned(w.arena.slots, id)
    decreases MAX_DEPTH - |p.path(k)| + 1, 0
  {
    match Admit(k, rest, w)
    case Skip(_, _, _) =>
    case Enter(info, kids, _, w1) =>
      RunBodyElsewhere(p, snap, info, kids, w1, id);
  }

  lemma {:induction false} RunBodyElsewhere(p: Program, snap: Snapshot, info: Info, kids: Forest, w: World, id: nat)
    requires WellFormed(p) && |p.path(info.key)| <= MAX_DEPTH
    requires Idle(w, RunBody(p, snap, info, kids, w).w, id)
    ensures Arenas.Owned(RunBody(p, snap, info, kids, w).w.arena.slots, id) == Arenas.Owned(w.arena.slots, id)
    decreases MAX_DEPTH - |p.path(info.key)|, |p.body(info.key, snap)| + 1
  {
    var w1 := w.(ran := w.ran + [info.id]);
    var r := Exec(p, snap, p.body(info.key, snap), info, 0, kids, w1);
    ExecGrows(p, snap, p.body(info.key, snap), info, 0, kids, w1);
    PruneGrows(r.rest, r.w);
    assert Sticky(w, w1) && w1.ran[..|w.ran|] == w.ran;
    GrowsTrans(w1, r.w, Prune(r.rest, r.w));
    IdleSplits(w, w1, Prune(r.rest, r.w), id);
    assert id != info.id;
    IdleSplits(w1, r.w, Prune(r.rest, r.w), id);
    ExecElsewhere(p, snap, p.body(info.key, snap), info, 0, kids, w1, id);
    PruneElsewhere(r.rest, r.w, id);
  }

  // ------------------------------------------------------------------ groups that are not there

  /** What a body calls leaves alone the slots of a group that is not among its children. */
  lemma {:induction false} VisitAway(p: Program, snap: Snapshot, k: Key, rest: Forest, w: World, id: nat)
    requires WellFormed(p) && 0 < |p.path(k)| <= MAX_DEPTH && Count(rest, id) == 0 && id < w.next
    ensures var v := Visit(p, snap, k, rest, w);
            && VisitRuns(p, snap, k, rest, w, id) == [] && Slots(v.w, id) == Slots(w, id)
            && Count(v.done, id) == 0 && Count(v.rest, id) == 0 && id < v.w.next
  {
    VisitGrows(p, snap, k, rest, w);
    VisitAbsent(p, snap, k, rest, w, id);
    VisitCounted(p, snap, k, rest, w, id);
    VisitBalance(p, snap, k, rest, w, id);
    VisitElsewhere(p, snap, k, rest, w, id);
  }

  lemma {:induction false} BodyAway(p: Program, snap: Snapshot, info: Info, kids: Forest, w: World, id: nat)
    requires WellFormed(p) && |p.path(info.key)| <= MAX_DEPTH && info.id != id && Count(kids, id) == 0 && id < w.next
    ensures var b := RunBody(p, snap, info, kids, w);
            && BodyRuns(p, snap, info, kids, w, id) == [] && Slots(b.w, id) == Slots(w, id)
            && Count(b.done, id) == 0 && id < b.w.next
  {
    RunBodyGrows(p, snap, info, kids, w);
    BodyAbsent(p, snap, info, kids, w, id);
    BodyCounted(p, snap, info, kids, w, id);
    RunBodyBalance(p, snap, info, kids, w, id);
    RunBodyElsewhere(p, snap, info, kids, w, id);
  }

  // ------------------------------------------------------------------ the requests of one body

  /** One granted request of a mounting group. */
  lemma {:induction false} MountOne(size: nat, info: Info, offset: nat, w: World)
    requires info.mount && 0 < size && Mount(size, info, offset, w).at.Some?
    requires Sole(Slots(w, info.id)) && Under(Slots(w, info.id), offset)
    ensures var a, before := Mount(size, info, offset, w), Arenas.Owned(w.arena.slots, info.id);
            var after := Arenas.Owned(a.w.arena.slots, info.id);
            && a.info.mount && a.info.id == info.id && a.offset == offset + Arenas.AlignUp(size)
            && Arenas.Slot(info.id, offset, a.at.value, Arenas.AlignUp(size), size) in after
            && (forall x :: x in after
                  <==> x in before || x == Arenas.Slot(info.id, offset, a.at.value, Arenas.AlignUp(size), size))
            && Sole(after) && Under(after, a.offset)
  {
    var (s, i) := Arenas.Grant(w.arena, info.id, offset, size).value;
    var a := Mount(size, info, offset, w);
    hide Arenas.Owned, InsertedAt, Arenas.Grant, Sole, Under;
    var before, after := Arenas.Owned(w.arena.slots, info.id), Arenas.Owned(a.w.arena.slots, info.id);
    assert i <= |w.arena.slots|;
    forall x ensures x in after <==> x in before || x == s { OwnedGrows(w.arena.slots, i, s, x); }
    AddedSole(before, after, s, offset, a.offset);
  }

  /** A slot behind all others keeps requests apart. */
  lemma {:induction false} AddedSole(before: seq<Arenas.Slot>, after: seq<Arenas.Slot>, s: Arenas.Slot, offset: nat,
                                     hi: nat)
    requires forall x :: x in after <==> x in before || x == s
    requires Sole(before) && Under(before, offset) && s.slotOffset == offset < hi
    ensures Sole(after) && Under(after, hi)
  {
    forall j | 0 <= j < |after| ensures after[j].slotOffset < hi {
      var j' := AddedWhich(before, after, s, j);
    }
    forall j, k | 0 <= j < |after| && 0 <= k < |after| && after[j].slotOffset == after[k].slotOffset
      ensures after[j] == after[k]
    {
      var j' := AddedWhich(before, after, s, j);
      var k' := AddedWhich(before, after, s, k);
    }
  }

  /** Every slot is the new one or an old one. */
  lemma {:induction false} AddedWhich(before: seq<Arenas.Slot>, after: seq<Arenas.Slot>, s: Arenas.Slot, j: nat)
    returns (i: nat)
    requires j < |after| && forall x :: x in after <==> x in before || x == s
    ensures after[j] == s || (i < |before| && before[i] == after[j])
  {
    assert after[j] in after;
    i := 0;
    if after[j] != s { i :| 0 <= i < |before| && before[i] == after[j]; }
  }

  /** A slot the group holds is the one a lookup resolves to, wherever the search starts. */
  lemma {:induction false} HeldIsFound(a: Arenas.Arena, id: nat, s: Arenas.Slot)
    requires s in Arenas.Owned(a.slots, id) && Sole(Arenas.Owned(a.slots, id)) && s.groupId == id
    ensures var r := Arenas.Lookup(a, id, s.slotOffset); r.Some? && a.slots[r.value] == s
  {
    OwnedIn(a.slots, id, s);
    var j :| 0 <= j < |a.slots| && a.slots[j] == s;
    var n, start := |a.slots|, Arenas.Start(a);
    var k := if j >= start then j - start else j + n - start;
    assert Arenas.Around(start, k, n) == j;
    ArenaFacts.SeekFinds(a.slots, start, id, s.slotOffset, 0, k);
    var f := a.slots[Arenas.Lookup(a, id, s.slotOffset).value];
    OwnedIn(a.slots, id, f);
    assert f in a.slots;
    var owned := Arenas.Owned(a.slots, id);
    var x :| 0 <= x < |owned| && owned[x] == f;
    var y :| 0 <= y < |owned| && owned[y] == s;
  }

  /** The body of the group of info may run these steps: nothing below it is the group itself. */
  ghost predicate Alone(p: Program, steps: seq<Step>, info: Info, rest: Forest, w: World) {
    && Ready(p, info.key, steps) && Fits(steps)
    && Count(rest, info.id) == 0 && info.id < w.next
    && Sole(Slots(w, info.id))
  }

  /** A mount that gets all its memory leaves one slot for each request, whatever the children
      called in between request and release. */
  lemma {:induction false} MountHolds(p: Program, snap: Snapshot, steps: seq<Step>, info: Info, offset: nat,
                                      rest: Forest, w: World, lo: nat)
    requires Alone(p, steps, info, rest, w) && info.mount && lo <= offset
    requires Under(Slots(w, info.id), offset) && Above(Slots(w, info.id), lo)
    ensures var r := Exec(p, snap, steps, info, offset, rest, w);
            var at := Answers(p, snap, steps, info, offset, rest, w);
            var after := Slots(r.w, info.id);
            && r.info.mount && Sole(after) && Above(after, lo)
            && (forall x :: x in Slots(w, info.id) ==> x in after)
            && (Granted(at) ==> Holding(after, info.id, offset, Sizes(steps), at))
    decreases |steps|, 1
  {
    if steps != [] {
      if steps[0].Call? {
        assert Emits(p, info.key, steps[0].child);
        var v := Visit(p, snap, steps[0].child, rest, w);
        VisitAway(p, snap, steps[0].child, rest, w, info.id);
        MountHolds(p, snap, steps[1..], info, offset, v.rest, v.w, lo);
      } else if steps[0].Remember? {
        MountHoldsNext(p, snap, steps, info, offset, rest, w, lo);
      } else {
        var a := Apply(steps[0], info, offset, w);
        ApplyKeeps(steps[0], info, offset, w);
        QuietStep(steps[0], info, offset, w);
        MountHolds(p, snap, steps[1..], a.info, a.offset, rest, a.w, lo);
      }
    }
  }

  /** The next step of a mount is a request. */
  lemma {:induction false} MountHoldsNext(p: Program, snap: Snapshot, steps: seq<Step>, info: Info, offset: nat,
                                          rest: Forest, w: World, lo: nat)
    requires Alone(p, steps, info, rest, w) && info.mount && lo <= offset && steps != [] && steps[0].Remember?
    requires Under(Slots(w, info.id), offset) && Above(Slots(w, info.id), lo)
    ensures var r := Exec(p, snap, steps, info, offset, rest, w);
            var at := Answers(p, snap, steps, info, offset, rest, w);
            var after := Slots(r.w, info.id);
            && r.info.mount && Sole(after) && Above(after, lo)
            && (forall x :: x in Slots(w, info.id) ==> x in after)
            && (Granted(at) ==> Holding(after, info.id, offset, Sizes(steps), at))
    decreases |steps|, 0
  {
    hide Mount, Arenas.Lookup;
    var size := steps[0].size;
    var a := ApplyRemember(size, info, offset, w);
    RememberKeeps(size, info, offset, w);
    MountStep(size, info, offset, w, lo);
    MountHolds(p, snap, steps[1..], a.info, a.offset, rest, a.w, lo);
    HoldsMore(Slots(Exec(p, snap, steps, info, offset, rest, w).w, info.id), info.id, offset, size, Sizes(steps[1..]),
              a.at, Answers(p, snap, steps[1..], a.info, a.offset, rest, a.w));
  }

  /** Steps that ask for no memory. */
  lemma {:induction false} QuietStep(s: Step, info: Info, offset: nat, w: World)
    requires !s.Call? && !s.Remember?
    ensures var a := Apply(s, info, offset, w);
            a.info == info && a.offset == offset && a.w.arena == w.arena && a.w.next == w.next
  {}

  /** One request of a mounting group, granted or not. */
  lemma {:induction false} MountStep(size: nat, info: Info, offset: nat, w: World, lo: nat)
    requires info.mount && 0 < size && lo <= offset
    requires Sole(Slots(w, info.id)) && Under(Slots(w, info.id), offset) && Above(Slots(w, info.id), lo)
    ensures var a := Mount(size, info, offset, w);
            && a.info.mount && a.info.id == info.id && offset <= a.offset
            && Sole(Slots(a.w, info.id)) && Under(Slots(a.w, info.id), a.offset) && Above(Slots(a.w, info.id), lo)
            && (forall x :: x in Slots(w, info.id) ==> x in Slots(a.w, info.id))
            && (a.at.Some? ==>
                  && a.offset == offset + Arenas.AlignUp(size)
                  && Arenas.Slot(info.id, offset, a.at.value, Arenas.AlignUp(size), size) in Slots(a.w, info.id))
  {
    var a := Mount(size, info, offset, w);
    if a.at.Some? {
      MountOne(size, info, offset, w);
      MountedAbove(Slots(w, info.id), Slots(a.w, info.id), offset, lo);
    }
  }

  lemma {:induction false} HoldsMore(owned: seq<Arenas.Slot>, id: nat, offset: nat, size: nat, sizes: seq<nat>,
                                     x: Option<nat>, at: seq<Option<nat>>)
    requires x.Some? ==> Arenas.Slot(id, offset, x.value, Arenas.AlignUp(size), size) in owned
    requires x.Some? && Granted(at) ==> Holding(owned, id, offset + Arenas.AlignUp(size), sizes, at)
    ensures Granted([x] + at) ==> Holding(owned, id, offset, [size] + sizes, [x] + at)
  {
    var all := [x] + at;
    assert all[0] == x && all[1..] == at && ([size] + sizes)[1..] == sizes;
    if Granted(all) {
      forall i | 0 <= i < |at| ensures at[i].Some? { assert all[i + 1].Some?; }
    }
  }

  lemma {:induction false} MountedAbove(before: seq<Arenas.Slot>, after: seq<Arenas.Slot>, offset: nat, lo: nat)
    requires Above(before, lo) && lo <= offset
    requires forall x :: x in after ==> x in before || x.slotOffset == offset
    ensures Above(after, lo)
  {
    forall i | 0 <= i < |after| ensures lo <= after[i].slotOffset { assert after[i] in after; }
  }

  /** The slot that a group requested at this offset has another size. */
  predicate Resizes(size: nat, info: Info, offset: nat, w: World) {
    var look := Arenas.Lookup(w.arena, info.id, offset);
    !info.mount && look.Some? && w.arena.slots[look.value].userSize != size
  }

  /** A request of a group that runs again, for the size that its slot has or for no slot. */
  lemma {:induction false} KeepStep(size: nat, info: Info, offset: nat, w: World)
    requires !info.mount && 0 < size && !Resizes(size, info, offset, w)
    ensures var a := ApplyRemember(size, info, offset, w);
            && a.info == info && a.w.arena.slots == w.arena.slots && offset <= a.offset
            && (a.at.Some? ==> offset < a.offset)
  {}

  /** A request for another size: the group starts over. */
  lemma {:induction false} RestartStep(size: nat, info: Info, offset: nat, w: World)
    requires 0 < size
    ensures var a := Remount(size, info, offset, w);
            && a.info.mount && a.info.id == info.id && offset <= a.offset
            && Sole(Slots(a.w, info.id)) && Under(Slots(a.w, info.id), a.offset) && Above(Slots(a.w, info.id), offset)
            && (a.at.Some? ==>
                  && a.offset == offset + Arenas.AlignUp(size)
                  && Arenas.Slot(info.id, offset, a.at.value, Arenas.AlignUp(size), size) in Slots(a.w, info.id))
  {
    var w2 := Reset(info.id, w);
    ArenaFacts.OwnedOthers(w.arena.slots, info.id, info.id);
    assert Slots(w2, info.id) == [];
    MountStep(size, info.(mount := true), offset, w2, offset);
  }

  /** A group that runs again keeps its slots unless it starts over; then all its slots are those
      requested from there on. */
  lemma {:induction false} RerunHolds(p: Program, snap: Snapshot, steps: seq<Step>, info: Info, offset: nat,
                                      rest: Forest, w: World)
    requires Alone(p, steps, info, rest, w) && !info.mount
    ensures var r := Exec(p, snap, steps, info, offset, rest, w);
            var at := Answers(p, snap, steps, info, offset, rest, w);
            var start := Began(p, snap, steps, info, offset, rest, w);
            var after := Slots(r.w, info.id);
            && Sole(after) && offset <= start
            && (!r.info.mount ==> after == Slots(w, info.id))
            && (r.info.mount ==> Above(after, start) && (start == offset && Granted(at) ==>
                  Holding(after, info.id, offset, Sizes(steps), at)))
    decreases |steps|, 1
  {
    if steps != [] {
      if steps[0].Call? {
        assert Emits(p, info.key, steps[0].child);
        var v := Visit(p, snap, steps[0].child, rest, w);
        VisitAway(p, snap, steps[0].child, rest, w, info.id);
        RerunHolds(p, snap, steps[1..], info, offset, v.rest, v.w);
      } else if steps[0].Remember? {
        RerunHoldsNext(p, snap, steps, info, offset, rest, w);
      } else {
        var a := Apply(steps[0], info, offset, w);
        ApplyKeeps(steps[0], info, offset, w);
        QuietStep(steps[0], info, offset, w);
        RerunHolds(p, snap, steps[1..], a.info, a.offset, rest, a.w);
      }
    }
  }

  /** The next step of a group that runs again is a request. */
  lemma {:induction false} RerunHoldsNext(p: Program, snap: Snapshot, steps: seq<Step>, info: Info, offset: nat,
                                          rest: Forest, w: World)
    requires Alone(p, steps, info, rest, w) && !info.mount && steps != [] && steps[0].Remember?
    ensures var r := Exec(p, snap, steps, info, offset, rest, w);
            var at := Answers(p, snap, steps, info, offset, rest, w);
            var start := Began(p, snap, steps, info, offset, rest, w);
            var after := Slots(r.w, info.id);
            && Sole(after) && offset <= start
            && (!r.info.mount ==> after == Slots(w, info.id))
            && (r.info.mount ==> Above(after, start) && (start == offset && Granted(at) ==>
                  Holding(after, info.id, offset, Sizes(steps), at)))
    decreases |steps|, 0
  {
    if Resizes(steps[0].size, info, offset, w) {
      RestartHolds(p, snap, steps, info, offset, rest, w);
    } else {
      var a := ApplyRemember(steps[0].size, info, offset, w);
      RememberKeeps(steps[0].size, info, offset, w);
      KeepStep(steps[0].size, info, offset, w);
      RerunHolds(p, snap, steps[1..], a.info, a.offset, rest, a.w);
      assert ([a.at] + Answers(p, snap, steps[1..], a.info, a.offset, rest, a.w))[0] == a.at;
    }
  }

  /** The next step of a group that runs again is a request for another size. */
  lemma {:induction false} RestartHolds(p: Program, snap: Snapshot, steps: seq<Step>, info: Info, offset: nat,
                                        rest: Forest, w: World)
    requires Alone(p, steps, info, rest, w) && !info.mount && steps != [] && steps[0].Remember?
    requires Resizes(steps[0].size, info, offset, w)
    ensures var r := Exec(p, snap, steps, info, offset, rest, w);
            var at := Answers(p, snap, steps, info, offset, rest, w);
            var after := Slots(r.w, info.id);
            && r.info.mount && Began(p, snap, steps, info, offset, rest, w) == offset
            && Sole(after) && Above(after, offset)
                  && (Granted(at) ==> Holding(after, info.id, offset, Sizes(steps), at))
  {
    hide Remount, Arenas.Lookup;
    var size := steps[0].size;
    var w1 := w.(arena := w.arena.(hint := Arenas.Lookup(w.arena, info.id, offset).value + 1));
    var a := Remount(size, info, offset, w1);
    assert a == ApplyRemember(size, info, offset, w);
    RememberKeeps(size, info, offset, w);
    RestartStep(size, info, offset, w1);
    MountHolds(p, snap, steps[1..], a.info, a.offset, rest, a.w, offset);
    HoldsMore(Slots(Exec(p, snap, steps, info, offset, rest, w).w, info.id), info.id, offset, size, Sizes(steps[1..]),
              a.at, Answers(p, snap, steps[1..], a.info, a.offset, rest, a.w));
  }

  /** A group that holds a slot for each request gets the same addresses again and moves nothing. */
  lemma {:induction false} RecallSame(p: Program, snap: Snapshot, steps: seq<Step>, info: Info, offset: nat,
                                      rest: Forest, w: World, at: seq<Option<nat>>)
    requires Alone(p, steps, info, rest, w) && !info.mount
    requires Holding(Slots(w, info.id), info.id, offset, Sizes(steps), at)
    ensures Answers(p, snap, steps, info, offset, rest, w) == at
    ensures !Exec(p, snap, steps, info, offset, rest, w).info.mount
    decreases |steps|
  {
    hide Mount, Remount, Visit;
    if steps != [] {
      if steps[0].Call? {
        assert Emits(p, info.key, steps[0].child);
        var v := Visit(p, snap, steps[0].child, rest, w);
        VisitAway(p, snap, steps[0].child, rest, w, info.id);
        RecallSame(p, snap, steps[1..], info, offset, v.rest, v.w, at);
      } else {
        var a := Apply(steps[0], info, offset, w);
        ApplyKeeps(steps[0], info, offset, w);
        if steps[0].Remember? {
          var size, sizes := steps[0].size, Sizes(steps);
          assert sizes[0] == size && sizes[1..] == Sizes(steps[1..]);
          HeldIsFound(w.arena, info.id, Arenas.Slot(info.id, offset, at[0].value, Arenas.AlignUp(size), size));
          assert a.at == at[0] && a.info == info && a.w.arena.slots == w.arena.slots
              && a.offset == offset + Arenas.AlignUp(size);
          RecallSame(p, snap, steps[1..], a.info, a.offset, rest, a.w, at[1..]);
          assert [at[0]] + at[1..] == at;
        } else {
          QuietStep(steps[0], info, offset, w);
          RecallSame(p, snap, steps[1..], a.info, a.offset, rest, a.w, at);
        }
      }
    }
  }

  /** A group that holds no slot at offset 0 is refused every request. */
  lemma {:induction false} AllDenied(p: Program, snap: Snapshot, steps: seq<Step>, info: Info, rest: Forest, w: World)
    requires Alone(p, steps, info, rest, w) && !info.mount && Above(Slots(w, info.id), 1)
    ensures Denied(Answers(p, snap, steps, info, 0, rest, w))
    ensures !Exec(p, snap, steps, info, 0, rest, w).info.mount
    decreases |steps|
  {
    hide Mount, Remount, Visit;
    if steps != [] {
      if steps[0].Call? {
        assert Emits(p, info.key, steps[0].child);
        var v := Visit(p, snap, steps[0].child, rest, w);
        VisitAway(p, snap, steps[0].child, rest, w, info.id);
        AllDenied(p, snap, steps[1..], info, v.rest, v.w);
      } else {
        var a := Apply(steps[0], info, 0, w);
        ApplyKeeps(steps[0], info, 0, w);
        if steps[0].Remember? {
          NotFound(w, info.id);
          AllDenied(p, snap, steps[1..], a.info, rest, a.w);
        } else {
          QuietStep(steps[0], info, 0, w);
          AllDenied(p, snap, steps[1..], a.info, rest, a.w);
        }
      }
    }
  }

  lemma {:induction false} NotFound(w: World, id: nat)
    requires Above(Slots(w, id), 1)
    ensures Arenas.Lookup(w.arena, id, 0) == None
  {
    var look := Arenas.Lookup(w.arena, id, 0);
    if look.Some? {
      var s := w.arena.slots[look.value];
      assert s in w.arena.slots;
      OwnedIn(w.arena.slots, id, s);
    }
  }

  // ------------------------------------------------------------------ what a history says of the slots

  /** owned are the slots of a group whose history is h. */
  ghost predicate Tells(h: seq<Execution>, owned: seq<Arenas.Slot>, id: nat) {
    h != [] ==>
      var b := h[Base(h, |h|)];
      && (b.start == 0 && Granted(b.at) ==> Holding(owned, id, 0, b.sizes, b.at))
      && (b.start > 0 ==> Above(owned, 1))
  }

  /** h is the history of group id, which occurs n times in the tree. */
  ghost predicate Kept(h: seq<Execution>, n: nat, w: World, id: nat) {
    && n <= 1 && Lawful(h) && Sole(Slots(w, id))
    && (h == [] ==> w.next <= id && n == 0 && Slots(w, id) == [])
    && (h != [] ==> id < w.next && (n == 1 ==> Tells(h, Slots(w, id), id)))
  }

  /** Nothing has happened to the group. */
  lemma {:induction false} KeptSame(h: seq<Execution>, n: nat, w: World, w': World, id: nat)
    requires Kept(h, n, w, id) && Slots(w', id) == Slots(w, id) && h != [] && id < w'.next
    ensures Kept(h, n, w', id) && h + [] == h
  {}

  lemma {:induction false} TellsMore(h: seq<Execution>, e: Execution, before: seq<Arenas.Slot>,
                                     after: seq<Arenas.Slot>, id: nat)
    requires h != [] ==> Tells(h, before, id)
    requires e.mounting ==> (e.start == 0 && Granted(e.at) ==>
             Holding(after, id, 0, e.sizes, e.at)) && (e.start > 0 ==> Above(after, 1))
    requires !e.mounting ==> h != [] && after == before
    ensures Tells(h + [e], after, id)
  {
    if !e.mounting { BasePrefix(h, e, |h|); }
  }

  /** A group runs for the first time. */
  lemma {:induction false} FirstRun(p: Program, snap: Snapshot, info: Info, w: World)
    requires WellFormed(p) && Sized(p) && |p.path(info.key)| <= MAX_DEPTH
    requires info.mount && info.id < w.next && Slots(w, info.id) == []
    ensures var e, r := Executed(p, snap, info, Nil, w), Exec(p, snap, p.body(info.key, snap), info, 0, Nil, w);
            Kept([e], 1, r.w, info.id)
  {
    var steps := p.body(info.key, snap);
    assert Nested(p, info.key, steps);
    MountHolds(p, snap, steps, info, 0, Nil, w, 0);
    ExecGrows(p, snap, steps, info, 0, Nil, w);
    var e, r := Executed(p, snap, info, Nil, w), Exec(p, snap, steps, info, 0, Nil, w);
    TellsMore([], e, [], Slots(r.w, info.id), info.id);
    AnswersSize(p, snap, steps, info, 0, Nil, w);
    LawfulMore([], e);
    assert [] + [e] == [e];
  }

  /** A group runs again. */
  lemma {:induction false} NextRun(p: Program, snap: Snapshot, info: Info, kids: Forest, w: World, h: seq<Execution>)
    requires WellFormed(p) && Sized(p) && |p.path(info.key)| <= MAX_DEPTH
    requires !info.mount && Count(kids, info.id) == 0 && h != [] && Kept(h, 1, w, info.id)
    ensures var e, r := Executed(p, snap, info, kids, w), Exec(p, snap, p.body(info.key, snap), info, 0, kids, w);
            Kept(h + [e], 1, r.w, info.id)
  {
    var steps, b := p.body(info.key, snap), h[Base(h, |h|)];
    assert Nested(p, info.key, steps) && Alone(p, steps, info, kids, w);
    RerunHolds(p, snap, steps, info, 0, kids, w);
    ExecGrows(p, snap, steps, info, 0, kids, w);
    var e, r := Executed(p, snap, info, kids, w), Exec(p, snap, steps, info, 0, kids, w);
    if b.start == 0 && Granted(b.at) && e.sizes == b.sizes { RecallSame(p, snap, steps, info, 0, kids, w, b.at); }
    if b.start > 0 { AllDenied(p, snap, steps, info, kids, w); }
    AnswersSize(p, snap, steps, info, 0, kids, w);
    LawfulMore(h, e);
    TellsMore(h, e, Slots(w, info.id), Slots(r.w, info.id), info.id);
  }

  // ------------------------------------------------------------------ what a teardown leaves

  lemma {:induction false} TearDownSole(infos: seq<Info>, w: World, id: nat)
    requires Sole(Slots(w, id))
    ensures Sole(Slots(TearDownAll(infos, w), id))
    decreases |infos|
  {
    if infos != [] {
      ArenaFacts.OwnedOthers(w.arena.slots, infos[0].id, id);
      TearDownSole(infos[1..], TearDown(infos[0], w), id);
    }
  }

  lemma {:induction false} PruneSole(f: Forest, w: World, id: nat)
    requires Sole(Slots(w, id))
    ensures Sole(Slots(Prune(f, w), id))
  {
    if f.Tree? {
      var infos := Doomed(Tree(f.info, f.kids, Nil));
      TearDownSole(infos, w, id);
      PruneSole(f.next, TearDownAll(infos, w), id);
    }
  }

  lemma {:induction false} PruneKept(f: Forest, w: World, id: nat, h: seq<Execution>, n: nat)
    requires Kept(h, n + Count(f, id), w, id)
    ensures Kept(h, n, Prune(f, w), id)
  {
    PruneGrows(f, w);
    PruneSole(f, w, id);
    PruneBalance(f, w, id);
    if Count(f, id) == 0 {
      PruneElsewhere(f, w, id);
    }
  }

  // ------------------------------------------------------------------ what a pass keeps

  /** The steps of another group; m counts the group in the tree elsewhere. */
  lemma {:induction false} StepsKept(p: Program, snap: Snapshot, steps: seq<Step>, info: Info, offset: nat,
                                     rest: Forest, w: World,
                                     id: nat, h: seq<Execution>, m: nat)
    requires Ready(p, info.key, steps) && Sized(p) && Closed(rest) && info.id != id
             && Kept(h, m + Count(rest, id), w, id)
    ensures var r := Exec(p, snap, steps, info, offset, rest, w);
            Kept(h + StepsRuns(p, snap, steps, info, offset, rest, w, id), m + Count(r.done, id) + Count(r.rest, id),
                r.w, id)
    decreases MAX_DEPTH - |p.path(info.key)|, |steps|, 1
  {
    if steps == [] {
      assert h + [] == h;
    } else if steps[0].Call? {
      var k := steps[0].child;
      assert Emits(p, info.key, k);
      var v := Visit(p, snap, k, rest, w);
      VisitKept(p, snap, k, rest, w, id, h, m);
      VisitCleans(p, snap, k, rest, w, id);
      StepsKept(p, snap, steps[1..], info, offset, v.rest, v.w, id, h + VisitRuns(p, snap, k, rest, w, id),
          m + Count(v.done, id));
      StepsJoin(p, snap, steps, info, offset, rest, w, id, h);
    } else {
      var a := Apply(steps[0], info, offset, w);
      StepKept(steps[0], info, offset, w, id, h, m + Count(rest, id));
      StepsKept(p, snap, steps[1..], a.info, a.offset, rest, a.w, id, h, m);
    }
  }

  lemma {:induction false} StepKept(s: Step, info: Info, offset: nat, w: World, id: nat, h: seq<Execution>, n: nat)
    requires !s.Call? && info.id != id && Kept(h, n, w, id)
    ensures var a := Apply(s, info, offset, w); a.info.id == info.id && a.info.key == info.key && Kept(h, n, a.w, id)
  {
    ApplyKeeps(s, info, offset, w);
    if s.Remember? { RememberElsewhere(s.size, info, offset, w, id); }
  }

  /** A call and the steps after it. */
  lemma {:induction false} StepsJoin(p: Program, snap: Snapshot, steps: seq<Step>, info: Info, offset: nat,
                                     rest: Forest, w: World,
                                     id: nat, h: seq<Execution>)
    requires Ready(p, info.key, steps) && steps != [] && steps[0].Call? && Emits(p, info.key, steps[0].child)
    ensures var v := Visit(p, snap, steps[0].child, rest, w);
            var r, r' := Exec(p, snap, steps, info, offset, rest, w),
                Exec(p, snap, steps[1..], info, offset, v.rest, v.w);
            var first, later := VisitRuns(p, snap, steps[0].child, rest, w, id),
                StepsRuns(p, snap, steps[1..], info, offset, v.rest, v.w, id);
            && h + StepsRuns(p, snap, steps, info, offset, rest, w, id) == (h + first) + later
            && Count(r.done, id) == Count(v.done, id) + Count(r'.done, id) && r.rest == r'.rest && r.w == r'.w
  {
    var v := Visit(p, snap, steps[0].child, rest, w);
    var first, later := VisitRuns(p, snap, steps[0].child, rest, w, id),
        StepsRuns(p, snap, steps[1..], info, offset, v.rest, v.w, id);
    CountAppend(v.done, Exec(p, snap, steps[1..], info, offset, v.rest, v.w).done, id);
    assert h + (first + later) == (h + first) + later;
  }

  lemma {:induction false} VisitKept(p: Program, snap: Snapshot, k: Key, rest: Forest, w: World, id: nat,
                                     h: seq<Execution>, m: nat)
    requires WellFormed(p) && 0 < |p.path(k)| <= MAX_DEPTH && Sized(p) && Closed(rest)
             && Kept(h, m + Count(rest, id), w, id)
    ensures var v := Visit(p, snap, k, rest, w);
            Kept(h + VisitRuns(p, snap, k, rest, w, id), m + Count(v.done, id) + Count(v.rest, id), v.w, id)
    decreases MAX_DEPTH - |p.path(k)| + 1, 0
  {
    AdmitKept(k, rest, w, id, h, m);
    match Admit(k, rest, w)
    case Skip(_, _, _) =>
    case Enter(info, kids, rest', w1) =>
      if HasRoot(rest, k) {
        BodyKept(p, snap, info, kids, w, id, h, m + Count(rest', id));
      } else {
        MountKept(p, snap, k, w, w1, id, h, m + Count(rest, id));
      }
  }

  /** Entering a child loses no group. */
  lemma {:induction false} AdmitKept(k: Key, rest: Forest, w: World, id: nat, h: seq<Execution>, m: nat)
    requires Closed(rest) && Kept(h, m + Count(rest, id), w, id)
    ensures h + [] == h
    ensures match Admit(k, rest, w)
            case Skip(done, rest', w') =>
              Count(done, id) + Count(rest', id) == Count(rest, id) && Kept(h, m + Count(rest, id), w', id)
            case Enter(info, kids, rest', w') =>
              if HasRoot(rest, k) then
                && w' == w && info.key == k && !info.mount && Closed(kids)
                && (if info.id == id then 1 else 0) + Count(kids, id) + Count(rest', id) == Count(rest, id)
              else
                && info == NewGroup(k, w.next) && kids == Nil && rest' == rest
                && w'.next == w.next + 1 && w'.arena == w.arena
  {
    if HasRoot(rest, k) {
      CountPick(rest, k, id);
      PickSplits(rest, k, id);
      assert Count(Pick(rest, k).next, id) == 0;
    }
  }

  /** A new group is mounted. */
  lemma {:induction false} MountKept(p: Program, snap: Snapshot, k: Key, w: World, w1: World, id: nat,
                                     h: seq<Execution>, m: nat)
    requires WellFormed(p) && |p.path(k)| <= MAX_DEPTH && Sized(p) && Kept(h, m, w, id)
    requires w1.next == w.next + 1 && w1.arena == w.arena
    ensures var b := RunBody(p, snap, NewGroup(k, w.next), Nil, w1);
            Kept(h + BodyRuns(p, snap, NewGroup(k, w.next), Nil, w1, id), m + Count(b.done, id), b.w, id)
    decreases MAX_DEPTH - |p.path(k)|, |p.body(k, snap)| + 2
  {
    var info := NewGroup(k, w.next);
    if id == w.next {
      BodyFirst(p, snap, info, w1);
      assert h + BodyRuns(p, snap, info, Nil, w1, id) == BodyRuns(p, snap, info, Nil, w1, id);
    } else {
      BodyKept(p, snap, info, Nil, w1, id, h, m);
    }
  }

  lemma {:induction false} BodyFirst(p: Program, snap: Snapshot, info: Info, w: World)
    requires WellFormed(p) && |p.path(info.key)| <= MAX_DEPTH && Sized(p)
    requires info.mount && info.id < w.next && Slots(w, info.id) == []
    ensures var b := RunBody(p, snap, info, Nil, w);
            Kept(BodyRuns(p, snap, info, Nil, w, info.id), Count(b.done, info.id), b.w, info.id)
  {
    var steps, w1 := p.body(info.key, snap), w.(ran := w.ran + [info.id]);
    assert Nested(p, info.key, steps);
    FirstRun(p, snap, info, w1);
    BodyEnds(p, snap, info, Nil, w, [Executed(p, snap, info, Nil, w1)]);
    assert [Executed(p, snap, info, Nil, w1)] + [] == [Executed(p, snap, info, Nil, w1)];
  }

  /** When the steps of its body are done, a group exits. */
  lemma {:induction false} BodyEnds(p: Program, snap: Snapshot, info: Info, kids: Forest, w: World, h: seq<Execution>)
    requires WellFormed(p) && |p.path(info.key)| <= MAX_DEPTH && Sized(p)
    requires Count(kids, info.id) == 0 && info.id < w.next && Nested(p, info.key, p.body(info.key, snap))
    requires var r := Exec(p, snap, p.body(info.key, snap), info, 0, kids, w.(ran := w.ran + [info.id]));
             Kept(h, 1, r.w, info.id)
    ensures var b := RunBody(p, snap, info, kids, w); Count(b.done, info.id) == 1 && Kept(h, 1, b.w, info.id)
    ensures StepsRuns(p, snap, p.body(info.key, snap), info, 0, kids, w.(ran := w.ran + [info.id]), info.id) == []
  {
    var steps, w1 := p.body(info.key, snap), w.(ran := w.ran + [info.id]);
    var r := Exec(p, snap, steps, info, 0, kids, w1);
    StepsAbsent(p, snap, steps, info, 0, kids, w1, info.id);
    ExecGrows(p, snap, steps, info, 0, kids, w1);
    PruneKept(r.rest, r.w, info.id, h, 1);
    assert Count(Tree(Sealed(r.info, r.offset), r.done, Nil), info.id) == 1 + Count(r.done, info.id);
  }

  /** A group runs again. */
  lemma {:induction false} BodyAgain(p: Program, snap: Snapshot, info: Info, kids: Forest, w: World, h: seq<Execution>)
    requires WellFormed(p) && |p.path(info.key)| <= MAX_DEPTH && Sized(p)
    requires !info.mount && Count(kids, info.id) == 0 && Kept(h, 1, w, info.id)
    ensures var b := RunBody(p, snap, info, kids, w);
            Count(b.done, info.id) == 1 && Kept(h + BodyRuns(p, snap, info, kids, w, info.id), 1, b.w, info.id)
  {
    var w1 := w.(ran := w.ran + [info.id]);
    var e := Executed(p, snap, info, kids, w1);
    assert Nested(p, info.key, p.body(info.key, snap));
    NextRun(p, snap, info, kids, w1, h);
    BodyEnds(p, snap, info, kids, w, h + [e]);
    assert [e] + [] == [e];
  }

  /** The body of some group runs; m counts the group in the tree elsewhere. */
  lemma {:induction false} BodyKept(p: Program, snap: Snapshot, info: Info, kids: Forest, w: World, id: nat,
                                    h: seq<Execution>, m: nat)
    requires WellFormed(p) && |p.path(info.key)| <= MAX_DEPTH && Sized(p) && Closed(kids)
    requires info.id == id ==> !info.mount
    requires Kept(h, m + (if info.id == id then 1 else 0) + Count(kids, id), w, id)
    ensures var b := RunBody(p, snap, info, kids, w);
            Kept(h + BodyRuns(p, snap, info, kids, w, id), m + Count(b.done, id), b.w, id)
    decreases MAX_DEPTH - |p.path(info.key)|, |p.body(info.key, snap)| + 1
  {
    hide Exec, Prune, StepsRuns, Executed;
    if info.id == id {
      BodyAgain(p, snap, info, kids, w, h);
    } else if h != [] && Count(kids, id) == 0 {
      BodyAway(p, snap, info, kids, w, id);
      KeptSame(h, m, w, RunBody(p, snap, info, kids, w).w, id);
    } else {
      var steps, w1 := p.body(info.key, snap), w.(ran := w.ran + [info.id]);
      assert Nested(p, info.key, steps);
      var r := Exec(p, snap, steps, info, 0, kids, w1);
      var now := StepsRuns(p, snap, steps, info, 0, kids, w1, id);
      StepsKept(p, snap, steps, info, 0, kids, w1, id, h, m);
      PruneKept(r.rest, r.w, id, h + now, m + Count(r.done, id));
      ExecGrows(p, snap, steps, info, 0, kids, w1);
      assert Count(Tree(Sealed(r.info, r.offset), r.done, Nil), id) == Count(r.done, id);
      assert [] + now == now;
    }
  }

  /** Over a whole pass the history of a group and its slots stay in step. */
  lemma {:induction false} PassKept(p: Program, snap: Snapshot, tree: Forest, w: World, id: nat, h: seq<Execution>)
    requires WellFormed(p) && Sized(p) && Closed(tree) && (tree.Tree? ==> tree.next == Nil)
    requires Kept(h, Count(tree, id), w, id)
    ensures var b := Pass(p, snap, tree, w);
            Kept(h + PassRuns(p, snap, tree, w, id), Count(b.done, id), b.w, id)
  {
    hide Kept, RunBody, BodyRuns, Prune;
    if tree.Tree? && tree.info.key == p.root {
      assert Count(tree.next, id) == 0;
      BodyKept(p, snap, tree.info, tree.kids, w, id, h, 0);
    } else {
      var w1 := Prune(tree, w);
      PruneKept(tree, w, id, h, 0);
      MountKept(p, snap, p.root, w1, w1.(next := w1.next + 1, room := if w1.room > 0 then w1.room - 1 else 0), id, h,
          0);
    }
  }
}

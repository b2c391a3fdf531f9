/** Invalidation: marking dirty groups, skipping clean subtrees, and what a pass leaves. */
module Flags {
  import opened Basics
  import opened Trees
  import opened State
  import opened Programs
  import opened Passes

  // ------------------------------------------------------------------ marking

  predicate HasKey(f: Forest, k: Key) {
    f.Tree? && (f.info.key == k || HasKey(f.kids, k) || HasKey(f.next, k))
  }

  function MarkAll(f: Forest): Forest {
    match f
    case Nil => Nil
    case Tree(info, kids, next) => Tree(info.(inv := true), MarkAll(kids), MarkAll(next))
  }

  /** Invalidates the first group of f with key k and everything below it, and tells its
      ancestors that they contain an invalidated group. */
  function Mark(f: Forest, k: Key): Forest {
    match f
    case Nil => Nil
    case Tree(info, kids, next) =>
      if info.key == k then Tree(info.(inv := true), MarkAll(kids), next)
      else if HasKey(kids, k) then Tree(info.(cinv := true), Mark(kids, k), next)
      else Tree(info, kids, Mark(next, k))
  }

  /** Drains a queue of keys from its end. */
  function Drain(f: Forest, queue: seq<Key>): Forest
    decreases |queue|
  {
    if queue == [] then f else Drain(Mark(f, queue[|queue| - 1]), queue[..|queue| - 1])
  }

  // ------------------------------------------------------------------ upward closure

  predicate AllClean(f: Forest) {
    f.Tree? ==> !Dirty(f.info) && !f.info.mount && AllClean(f.kids) && AllClean(f.next)
  }

  /** Dirtiness is upward closed: below a clean group everything is clean.  No group is still
      mounting. */
  predicate Closed(f: Forest) {
    f.Tree? ==> !f.info.mount && (!Dirty(f.info) ==> AllClean(f.kids)) && Closed(f.kids) && Closed(f.next)
  }

  lemma {:induction false} CleanClosed(f: Forest)
    requires AllClean(f)
    ensures Closed(f)
  {
    if f.Tree? {
      CleanClosed(f.kids);
      CleanClosed(f.next);
    }
  }

  lemma {:induction false} MarkAllClosed(f: Forest)
    requires Closed(f)
    ensures Closed(MarkAll(f))
  {
    if f.Tree? {
      MarkAllClosed(f.kids);
      MarkAllClosed(f.next);
    }
  }

  lemma {:induction false} MarkClosed(f: Forest, k: Key)
    requires Closed(f)
    ensures Closed(Mark(f, k))
  {
    if f.Tree? {
      if f.info.key == k {
        MarkAllClosed(f.kids);
      } else if HasKey(f.kids, k) {
        MarkClosed(f.kids, k);
      } else {
        MarkClosed(f.next, k);
      }
    }
  }

  /** Draining keeps dirtiness upward closed, so a skipped subtree holds no dirty group. */
  lemma {:induction false} DrainClosed(f: Forest, queue: seq<Key>)
    requires Closed(f)
    ensures Closed(Drain(f, queue))
    decreases |queue|
  {
    if queue != [] {
      MarkClosed(f, queue[|queue| - 1]);
      DrainClosed(Mark(f, queue[|queue| - 1]), queue[..|queue| - 1]);
    }
  }

  // ------------------------------------------------------------------ no lost invalidation

  /** Group id is in f and dirty. */
  predicate DirtyIn(f: Forest, id: nat) {
    f.Tree? && ((f.info.id == id && Dirty(f.info)) || DirtyIn(f.kids, id) || DirtyIn(f.next, id))
  }

  predicate HasId(f: Forest, id: nat) {
    f.Tree? && (f.info.id == id || HasId(f.kids, id) || HasId(f.next, id))
  }

  lemma {:induction false} CleanNotDirty(f: Forest, id: nat)
    requires AllClean(f)
    ensures !DirtyIn(f, id)
  {
    if f.Tree? {
      CleanNotDirty(f.kids, id);
      CleanNotDirty(f.next, id);
    }
  }

  lemma {:induction false} DirtyHasId(f: Forest, id: nat)
    requires DirtyIn(f, id)
    ensures HasId(f, id)
  {
    if DirtyIn(f.kids, id) {
      DirtyHasId(f.kids, id);
    } else if DirtyIn(f.next, id) {
      DirtyHasId(f.next, id);
    }
  }

  lemma {:induction false} PickSplits(f: Forest, k: Key, id: nat)
    requires HasRoot(f, k)
    ensures DirtyIn(f, id) <==> DirtyIn(Pick(f, k), id) || DirtyIn(Drop(f, k), id)
    ensures Closed(f) ==> Closed(Pick(f, k)) && Closed(Drop(f, k))
  {
    if f.info.key != k {
      PickSplits(f.next, k, id);
    }
  }

  lemma {:induction false} AppendClean(t: Forest, g: Forest)
    requires t.Tree? ==> t.next == Nil
    requires AllClean(t) && AllClean(g)
    ensures AllClean(Append(t, g))
  {
    if t.Tree? {
      assert Append(t, g) == Tree(t.info, t.kids, g);
    }
  }

  /** id is in log, at or after index n. */
  ghost predicate Since(log: seq<nat>, n: nat, id: nat) {
    exists i :: n <= i < |log| && log[i] == id
  }

  /** On the way from w to w' the body of group id ran or the group was torn down. */
  ghost predicate Handled(w: World, w': World, id: nat) {
    Since(w'.ran, |w.ran|, id) || Since(w'.pruned, |w.pruned|, id)
  }

  lemma {:induction false} HandledWider(w0: World, w1: World, w2: World, w3: World, id: nat)
    requires Sticky(w0, w1) && Sticky(w1, w2) && Sticky(w2, w3) && Handled(w1, w2, id)
    ensures Handled(w0, w3, id)
  {
    if Since(w2.ran, |w1.ran|, id) {
      var i :| |w1.ran| <= i < |w2.ran| && w2.ran[i] == id;
      assert w3.ran[i] == id;
    } else {
      var i :| |w1.pruned| <= i < |w2.pruned| && w2.pruned[i] == id;
      assert w3.pruned[i] == id;
    }
  }

  /** What is handled in either half is handled. */
  lemma {:induction false} HandledLater(w0: World, w1: World, w2: World, id: nat)
    requires Sticky(w0, w1) && Sticky(w1, w2)
    ensures Handled(w0, w1, id) || Handled(w1, w2, id) ==> Handled(w0, w2, id)
  {
    if Handled(w0, w1, id) {
      HandledWider(w0, w0, w1, w2, id);
    } else if Handled(w1, w2, id) {
      HandledWider(w0, w1, w2, w2, id);
    }
  }

  lemma {:induction false} StickyTrans(w0: World, w1: World, w2: World)
    requires Sticky(w0, w1) && Sticky(w1, w2)
    ensures Sticky(w0, w2)
  {}

  lemma {:induction false} TearDownRecords(infos: seq<Info>, w: World, i: nat)
    requires i < |infos|
    ensures Handled(w, TearDownAll(infos, w), infos[i].id)
    decreases |infos|
  {
    var w1, w2 := TearDown(infos[0], w), TearDownAll(infos, w);
    TearDownGrows(infos[1..], w1);
    assert Sticky(w, w1);
    if i == 0 {
      assert w1.pruned[|w.pruned|] == infos[0].id;
      assert w2.pruned[|w.pruned|] == infos[0].id;
    } else {
      TearDownRecords(infos[1..], w1, i - 1);
      HandledWider(w, w1, w2, w2, infos[i].id);
    }
  }

  lemma {:induction false} DoomedHas(f: Forest, id: nat) returns (i: nat)
    requires HasId(f, id)
    ensures i < |Doomed(f)| && Doomed(f)[i].id == id
  {
    if f.info.id == id {
      i := |Doomed(f)| - 1;
    } else if HasId(f.kids, id) {
      i := DoomedHas(f.kids, id);
      i := |Doomed(f.next)| + i;
    } else {
      i := DoomedHas(f.next, id);
    }
  }

  lemma {:induction false} PruneRecords(f: Forest, w: World, id: nat)
    requires HasId(f, id)
    ensures Handled(w, Prune(f, w), id)
  {
    var t := Tree(f.info, f.kids, Nil);
    var w1, w2 := TearDownAll(Doomed(t), w), Prune(f, w);
    TearDownGrows(Doomed(t), w);
    PruneGrows(f.next, w1);
    if HasId(t, id) {
      var i := DoomedHas(t, id);
      TearDownRecords(Doomed(t), w, i);
      HandledWider(w, w, w1, w2, id);
    } else {
      PruneRecords(f.next, w1, id);
      HandledWider(w, w1, w2, w2, id);
    }
  }

  /** A pass cleans every child it visits, and every group that was dirty runs or is pruned in
      it unless it is still waiting among the children not visited yet. */
  lemma {:induction false} ExecCleans(p: Program, snap: Snapshot, steps: seq<Step>, info: Info, offset: nat,
                                      rest: Forest, w: World, id: nat)
    requires Ready(p, info.key, steps) && Closed(rest)
    ensures var r := Exec(p, snap, steps, info, offset, rest, w);
            && AllClean(r.done) && Closed(r.rest)
            && (DirtyIn(rest, id) ==> Handled(w, r.w, id) || DirtyIn(r.rest, id))
    decreases MAX_DEPTH - |p.path(info.key)|, |steps|
  {
    if steps != [] {
      var last := Exec(p, snap, steps, info, offset, rest, w).w;
      if steps[0].Call? {
        var k := steps[0].child;
        assert Emits(p, info.key, k);
        VisitCleans(p, snap, k, rest, w, id);
        VisitGrows(p, snap, k, rest, w);
        var v := Visit(p, snap, k, rest, w);
        ExecGrows(p, snap, steps[1..], info, offset, v.rest, v.w);
        ExecCleans(p, snap, steps[1..], info, offset, v.rest, v.w, id);
        AppendClean(v.done, Exec(p, snap, steps[1..], info, offset, v.rest, v.w).done);
        HandledLater(w, v.w, last, id);
      } else {
        var a := Apply(steps[0], info, offset, w);
        ApplyKeeps(steps[0], info, offset, w);
        ExecGrows(p, snap, steps[1..], a.info, a.offset, rest, a.w);
        ExecCleans(p, snap, steps[1..], a.info, a.offset, rest, a.w, id);
        HandledLater(w, a.w, last, id);
      }
    }
  }

  lemma {:induction false} VisitCleans(p: Program, snap: Snapshot, k: Key, rest: Forest, w: World, id: nat)
    requires WellFormed(p) && 0 < |p.path(k)| <= MAX_DEPTH && Closed(rest)
    ensures var v := Visit(p, snap, k, rest, w);
            && AllClean(v.done) && Closed(v.rest)
            && (DirtyIn(rest, id) ==> Handled(w, v.w, id) || DirtyIn(v.rest, id))
    decreases MAX_DEPTH - |p.path(k)| + 1, 0
  {
    if HasRoot(rest, k) {
      var t := Pick(rest, k);
      PickSplits(rest, k, id);
      if Dirty(t.info) {
        RunBodyCleans(p, snap, Cleared(t.info), t.kids, w, id);
      } else {
        CleanNotDirty(t, id);
      }
    } else if w.room > 0 {
      RunBodyCleans(p, snap, NewGroup(k, w.next), Nil, w.(next := w.next + 1, room := w.room - 1), id);
    }
  }

  lemma {:induction false} RunBodyCleans(p: Program, snap: Snapshot, info: Info, kids: Forest, w: World, id: nat)
    requires WellFormed(p) && |p.path(info.key)| <= MAX_DEPTH && Closed(kids)
    ensures var b := RunBody(p, snap, info, kids, w);
            && b.done.Tree? && b.done.next == Nil && AllClean(b.done.kids)
            && b.done.info.inv == info.inv && b.done.info.cinv == info.cinv && !b.done.info.mount
            && (DirtyIn(kids, id) || id == info.id ==> Handled(w, b.w, id))
    decreases MAX_DEPTH - |p.path(info.key)|, |p.body(info.key, snap)| + 1
  {
    var steps := p.body(info.key, snap);
    var w1 := w.(ran := w.ran + [info.id]);
    var r := Exec(p, snap, steps, info, 0, kids, w1);
    var last := Prune(r.rest, r.w);
    RunBodyGrows(p, snap, info, kids, w);
    ExecGrows(p, snap, steps, info, 0, kids, w1);
    ExecCleans(p, snap, steps, info, 0, kids, w1, id);
    PruneGrows(r.rest, r.w);
    StickyTrans(w1, r.w, last);
    assert Sticky(w, w1) && w1.ran[|w.ran|] == info.id && last.ran[|w.ran|] == info.id;
    if DirtyIn(r.rest, id) {
      DirtyHasId(r.rest, id);
      PruneRecords(r.rest, r.w, id);
    }
    HandledLater(w1, r.w, last, id);
    HandledLater(w, w1, last, id);
  }

  /** Over a whole pass no invalidation is lost: every group that was dirty runs or is pruned
      in it, and afterwards every group but the root is clean, so dirtiness is upward closed
      again. */
  lemma {:induction false} PassCleans(p: Program, snap: Snapshot, tree: Forest, w: World, id: nat)
    requires WellFormed(p) && Closed(tree) && (tree.Tree? ==> tree.next == Nil)
    ensures var b := Pass(p, snap, tree, w);
            && b.done.Tree? && AllClean(b.done.kids) && Closed(b.done)
            && (DirtyIn(tree, id) ==> Handled(w, b.w, id))
  {
    var b := Pass(p, snap, tree, w);
    if tree.Tree? && tree.info.key == p.root {
      RunBodyCleans(p, snap, tree.info, tree.kids, w, id);
      assert !DirtyIn(Nil, id);
    } else {
      var w1 := Prune(tree, w);
      var w2 := w1.(next := w1.next + 1, room := if w1.room > 0 then w1.room - 1 else 0);
      PruneGrows(tree, w);
      RunBodyCleans(p, snap, NewGroup(p.root, w1.next), Nil, w2, id);
      RunBodyGrows(p, snap, NewGroup(p.root, w1.next), Nil, w2);
      if DirtyIn(tree, id) {
        DirtyHasId(tree, id);
        PruneRecords(tree, w, id);
        HandledWider(w, w, w1, b.w, id);
      }
    }
    CleanClosed(b.done.kids);
    assert Closed(Nil);
  }

  /** So a key that is drained is never lost: when the tree has a group with the key, the first
      one runs or is pruned in the pass that follows. */
  lemma {:induction false} MarkedIsHandled(p: Program, snap: Snapshot, tree: Forest, w: World, queue: seq<Key>, k: Key)
    requires WellFormed(p) && Closed(tree) && (tree.Tree? ==> tree.next == Nil)
    requires k in queue && HasKey(tree, k)
    ensures Handled(w, Pass(p, snap, Drain(tree, queue), w).w, FirstWith(tree, k))
  {
    var t := Drain(tree, queue);
    DrainClosed(tree, queue);
    DrainRoots(tree, queue);
    DrainDirties(tree, queue, k);
    PassCleans(p, snap, t, w, FirstWith(tree, k));
  }

  /** Identity of the first group of f with key k. */
  function FirstWith(f: Forest, k: Key): nat
    requires HasKey(f, k)
  {
    if f.info.key == k then f.info.id else if HasKey(f.kids, k) then FirstWith(f.kids, k) else FirstWith(f.next, k)
  }

  lemma {:induction false} MarkAllSame(f: Forest, k: Key, id: nat)
    ensures HasKey(MarkAll(f), k) == HasKey(f, k)
    ensures HasKey(f, k) ==> FirstWith(MarkAll(f), k) == FirstWith(f, k)
    ensures DirtyIn(f, id) ==> DirtyIn(MarkAll(f), id)
  {
    if f.Tree? {
      MarkAllSame(f.kids, k, id);
      MarkAllSame(f.next, k, id);
    }
  }

  /** Marking keeps every group where it is, and every dirty group dirty. */
  lemma {:induction false} MarkSame(f: Forest, m: Key, k: Key, id: nat)
    ensures HasKey(Mark(f, m), k) == HasKey(f, k)
    ensures HasKey(f, k) ==> FirstWith(Mark(f, m), k) == FirstWith(f, k)
    ensures DirtyIn(f, id) ==> DirtyIn(Mark(f, m), id)
  {
    if f.Tree? {
      MarkAllSame(f.kids, k, id);
      MarkSame(f.kids, m, k, id);
      MarkSame(f.next, m, k, id);
    }
  }

  lemma {:induction false} MarkDirties(f: Forest, k: Key)
    requires HasKey(f, k)
    ensures DirtyIn(Mark(f, k), FirstWith(f, k))
  {
    if f.info.key != k {
      if HasKey(f.kids, k) { MarkDirties(f.kids, k); } else { MarkDirties(f.next, k); }
    }
  }

  lemma {:induction false} DrainKeepsDirt(f: Forest, queue: seq<Key>, id: nat)
    requires DirtyIn(f, id)
    ensures DirtyIn(Drain(f, queue), id)
    decreases |queue|
  {
    if queue != [] {
      MarkSame(f, queue[|queue| - 1], 0, id);
      DrainKeepsDirt(Mark(f, queue[|queue| - 1]), queue[..|queue| - 1], id);
    }
  }

  lemma {:induction false} DrainDirties(f: Forest, queue: seq<Key>, k: Key)
    requires k in queue && HasKey(f, k)
    ensures DirtyIn(Drain(f, queue), FirstWith(f, k))
    decreases |queue|
  {
    var m, before := queue[|queue| - 1], queue[..|queue| - 1];
    MarkSame(f, m, k, 0);
    if m == k {
      MarkDirties(f, k);
      DrainKeepsDirt(Mark(f, m), before, FirstWith(f, k));
    } else {
      assert queue == before + [m];
      DrainDirties(Mark(f, m), before, k);
    }
  }

  lemma {:induction false} DrainRoots(f: Forest, queue: seq<Key>)
    requires f.Tree? ==> f.next == Nil
    ensures var t := Drain(f, queue); t.Tree? ==> t.next == Nil
    decreases |queue|
  {
    if queue != [] {
      assert Mark(Nil, queue[|queue| - 1]) == Nil;
      DrainRoots(Mark(f, queue[|queue| - 1]), queue[..|queue| - 1]);
    }
  }

  // ------------------------------------------------------------------ what marking reaches

  /** Every group of f with key k is invalidated. */
  predicate AllHit(f: Forest, k: Key) {
    f.Tree? ==> (f.info.key == k ==> f.info.inv) && AllHit(f.kids, k) && AllHit(f.next, k)
  }

  /** f without the first group with key k and everything below it. */
  function Beyond(f: Forest, k: Key): Forest {
    match f
    case Nil => Nil
    case Tree(info, kids, next) =>
      if info.key == k then next
      else if HasKey(kids, k) then Tree(info, Beyond(kids, k), next)
      else Tree(info, kids, Beyond(next, k))
  }

  lemma {:induction false} MarkAllHit(f: Forest, k: Key)
    ensures AllHit(MarkAll(f), k)
  {
    if f.Tree? {
      MarkAllHit(f.kids, k);
      MarkAllHit(f.next, k);
    }
  }

  /** Draining a key invalidates every group with that key if and only if the groups with the
      key that lie beyond the first one and its subtree are invalidated already. */
  lemma {:induction false} MarkHitsAllIff(f: Forest, k: Key)
    ensures AllHit(Mark(f, k), k) <==> AllHit(Beyond(f, k), k)
  {
    if f.Tree? {
      if f.info.key == k {
        MarkAllHit(f.kids, k);
      } else if HasKey(f.kids, k) {
        MarkHitsAllIff(f.kids, k);
      } else {
        MarkHitsAllIff(f.next, k);
      }
    }
  }

  /** With two sibling groups under one key, only the first is invalidated. */
  lemma {:induction false} SecondTwinMissed()
    ensures var twin := Tree(NewGroup(5, 2), Nil, Tree(NewGroup(5, 3), Nil, Nil));
            !AllHit(Mark(Tree(NewGroup(1, 1), twin, Nil), 5), 5)
  {
    var second := Tree(NewGroup(5, 3), Nil, Nil);
    var twin := Tree(NewGroup(5, 2), Nil, second);
    assert !AllHit(second, 5);
    assert Mark(twin, 5) == Tree(NewGroup(5, 2).(inv := true), MarkAll(Nil), second);
    assert !AllHit(Mark(twin, 5), 5);
    assert HasKey(twin, 5);
  }

  // ------------------------------------------------------------------ marking reaches nothing else

  /** A group with identity top has a group with identity id somewhere below it. */
  predicate Holds(f: Forest, top: nat, id: nat) {
    f.Tree? && ((f.info.id == top && HasId(f.kids, id)) || Holds(f.kids, top, id) || Holds(f.next, top, id))
  }

  /** Group id is group x, or is below or above it. */
  predicate Related(f: Forest, x: nat, id: nat) {
    id == x || Holds(f, x, id) || Holds(f, id, x)
  }

  function Unmarked(f: Forest): Forest {
    match f
    case Nil => Nil
    case Tree(info, kids, next) => Tree(info.(inv := false, cinv := false), Unmarked(kids), Unmarked(next))
  }

  lemma {:induction false} MarkAllKeeps(f: Forest)
    ensures Unmarked(MarkAll(f)) == Unmarked(f)
  {
    if f.Tree? {
      MarkAllKeeps(f.kids);
      MarkAllKeeps(f.next);
    }
  }

  /** Marking changes marks only. */
  lemma {:induction false} MarkKeeps(f: Forest, k: Key)
    ensures Unmarked(Mark(f, k)) == Unmarked(f)
  {
    if f.Tree? {
      MarkAllKeeps(f.kids);
      MarkKeeps(f.kids, k);
      MarkKeeps(f.next, k);
    }
  }

  /** So does a drain: no group moves, comes or goes, and no other field changes. */
  lemma {:induction false} DrainKeeps(f: Forest, queue: seq<Key>)
    ensures Unmarked(Drain(f, queue)) == Unmarked(f)
    decreases |queue|
  {
    if queue != [] {
      MarkKeeps(f, queue[|queue| - 1]);
      DrainKeeps(Mark(f, queue[|queue| - 1]), queue[..|queue| - 1]);
    }
  }

  lemma {:induction false} UnmarkedHas(f: Forest, g: Forest, id: nat)
    requires Unmarked(f) == Unmarked(g)
    ensures HasId(f, id) == HasId(g, id)
  {
    if f.Tree? && g.Tree? {
      UnmarkedHas(f.kids, g.kids, id);
      UnmarkedHas(f.next, g.next, id);
    }
  }

  lemma {:induction false} UnmarkedHolds(f: Forest, g: Forest, top: nat, id: nat)
    requires Unmarked(f) == Unmarked(g)
    ensures Holds(f, top, id) == Holds(g, top, id)
  {
    if f.Tree? && g.Tree? {
      UnmarkedHas(f.kids, g.kids, id);
      UnmarkedHolds(f.kids, g.kids, top, id);
      UnmarkedHolds(f.next, g.next, top, id);
    }
  }

  lemma {:induction false} FirstHas(f: Forest, k: Key)
    requires HasKey(f, k)
    ensures HasId(f, FirstWith(f, k))
  {
    if f.info.key != k {
      if HasKey(f.kids, k) { FirstHas(f.kids, k); } else { FirstHas(f.next, k); }
    }
  }

  /** A mark dirties the first group with the key and those below and above it, and no other. */
  lemma {:induction false} MarkOnly(f: Forest, k: Key, id: nat)
    ensures DirtyIn(Mark(f, k), id) ==> DirtyIn(f, id) || (HasKey(f, k) && Related(f, FirstWith(f, k), id))
    ensures !HasKey(f, k) ==> Mark(f, k) == f
  {
    if f.Tree? {
      if f.info.key == k {
        MarkAllKeeps(f.kids);
        UnmarkedHas(MarkAll(f.kids), f.kids, id);
        if DirtyIn(MarkAll(f.kids), id) { DirtyHasId(MarkAll(f.kids), id); }
      } else if HasKey(f.kids, k) {
        MarkOnly(f.kids, k, id);
        FirstHas(f.kids, k);
      } else {
        MarkOnly(f.next, k, id);
      }
    }
  }

  /** Group id is, or is below or above, the first group with a key of the queue. */
  predicate Concerned(f: Forest, queue: seq<Key>, id: nat) {
    exists k :: k in queue && HasKey(f, k) && Related(f, FirstWith(f, k), id)
  }

  /** A drain dirties no group that has nothing to do with a queued key. */
  lemma {:induction false} DrainOnly(f: Forest, queue: seq<Key>, id: nat)
    ensures DirtyIn(Drain(f, queue), id) ==> DirtyIn(f, id) || Concerned(f, queue, id)
    decreases |queue|
  {
    if queue != [] && DirtyIn(Drain(f, queue), id) {
      hide Holds, Unmarked;
      var m, before := queue[|queue| - 1], queue[..|queue| - 1];
      var g := Mark(f, m);
      DrainOnly(g, before, id);
      MarkOnly(f, m, id);
      if Concerned(g, before, id) {
        var k :| k in before && HasKey(g, k) && Related(g, FirstWith(g, k), id);
        MarkSame(f, m, k, id);
        MarkKeeps(f, m);
        UnmarkedHolds(f, g, FirstWith(f, k), id);
        UnmarkedHolds(f, g, id, FirstWith(f, k));
        assert k in queue;
      }
    }
  }
}

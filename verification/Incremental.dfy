/** Incremental recomposition equals composition from scratch, frame after frame. */
module Incremental {
  import opened Basics
  import opened Trees
  import opened State
  import opened Programs
  import opened Passes
  import opened Flags
  import opened Scratch
  import opened Watchers
  import opened Marks
  import opened Subscriptions

  // ------------------------------------------------------------------ bodies that would not change

  /** Every clean group of f has the same body under f1 and f2. */
  ghost predicate SameBodies(p: Program, f1: Snapshot, f2: Snapshot, f: Forest) {
    f.Tree? ==>
      && (!Dirty(f.info) ==> p.body(f.info.key, f1) == p.body(f.info.key, f2))
      && SameBodies(p, f1, f2, f.kids)
      && SameBodies(p, f1, f2, f.next)
  }

  /** Every group of f has the children that its body composes from nothing. */
  ghost predicate Built(p: Program, snap: Snapshot, f: Forest)
    requires WellFormed(p)
  {
    f.Tree? ==>
      && |p.path(f.info.key)| <= MAX_DEPTH
      && ShapeOf(f.kids) == ComposeBody(p, snap, f.info.key)
      && Built(p, snap, f.kids)
      && Built(p, snap, f.next)
  }

  lemma {:induction false} ComposedIsBuilt(p: Program, snap: Snapshot, q: Key, steps: seq<Step>, f: Forest)
    requires Ready(p, q, steps) && ShapeOf(f) == Compose(p, snap, q, steps)
    ensures Built(p, snap, f)
    decreases MAX_DEPTH - |p.path(q)|, |steps|
  {
    if steps != [] {
      if steps[0].Call? {
        var k := steps[0].child;
        assert Emits(p, q, k) && Nested(p, k, p.body(k, snap));
        ComposedIsBuilt(p, snap, k, p.body(k, snap), f.kids);
        ComposedIsBuilt(p, snap, q, steps[1..], f.next);
      } else {
        ComposedIsBuilt(p, snap, q, steps[1..], f);
      }
    }
  }

  /** Below a clean group nothing that composes it has changed. */
  lemma {:induction false} ComposeSame(p: Program, f1: Snapshot, f2: Snapshot, q: Key, steps: seq<Step>, f: Forest)
    requires Ready(p, q, steps) && ShapeOf(f) == Compose(p, f1, q, steps)
    requires AllClean(f) && SameBodies(p, f1, f2, f)
    ensures Compose(p, f2, q, steps) == Compose(p, f1, q, steps)
    decreases MAX_DEPTH - |p.path(q)|, |steps|
  {
    if steps != [] {
      if steps[0].Call? {
        var k := steps[0].child;
        assert Emits(p, q, k) && Nested(p, k, p.body(k, f1));
        ComposeSame(p, f1, f2, k, p.body(k, f1), f.kids);
        ComposeSame(p, f1, f2, q, steps[1..], f.next);
      } else {
        ComposeSame(p, f1, f2, q, steps[1..], f);
      }
    }
  }

  lemma {:induction false} BuiltIsCurrent(p: Program, f1: Snapshot, f2: Snapshot, f: Forest)
    requires Keyed(p) && Built(p, f1, f) && SameBodies(p, f1, f2, f) && Closed(f)
    ensures Current(p, f2, f)
  {
    if f.Tree? {
      var k := f.info.key;
      if !Dirty(f.info) {
        assert Nested(p, k, p.body(k, f1));
        ComposeSame(p, f1, f2, k, p.body(k, f1), f.kids);
      }
      BuiltIsCurrent(p, f1, f2, f.kids);
      BuiltIsCurrent(p, f1, f2, f.next);
    }
  }

  // ------------------------------------------------------------------ marks keep shapes

  lemma {:induction false} MarkShape(f: Forest, k: Key)
    ensures ShapeOf(Mark(f, k)) == ShapeOf(f) && ShapeOf(MarkAll(f)) == ShapeOf(f)
  {
    if f.Tree? {
      MarkShape(f.kids, k);
      MarkShape(f.next, k);
    }
  }

  lemma {:induction false} DrainShape(f: Forest, queue: seq<Key>)
    ensures ShapeOf(Drain(f, queue)) == ShapeOf(f)
    decreases |queue|
  {
    if queue != [] {
      MarkShape(f, queue[|queue| - 1]);
      DrainShape(Mark(f, queue[|queue| - 1]), queue[..|queue| - 1]);
    }
  }

  lemma {:induction false} SubscribedShape(p: Program, snap: Snapshot, f: Forest, g: Forest, cells: seq<Cell>)
    requires ShapeOf(f) == ShapeOf(g) && AllSubscribed(p, snap, f, cells)
    ensures AllSubscribed(p, snap, g, cells)
  {
    if f.Tree? {
      SubscribedShape(p, snap, f.kids, g.kids, cells);
      SubscribedShape(p, snap, f.next, g.next, cells);
    }
  }

  lemma {:induction false} SubscribedAt(p: Program, snap: Snapshot, f: Forest, cells: seq<Cell>, k: Key)
    requires AllSubscribed(p, snap, f, cells) && HasKey(f, k)
    ensures SubscribedTo(p.body(k, snap), cells, k)
  {
    if f.info.key != k {
      if HasKey(f.kids, k) {
        SubscribedAt(p, snap, f.kids, cells, k);
      } else {
        SubscribedAt(p, snap, f.next, cells, k);
      }
    }
  }

  // ------------------------------------------------------------------ frames

  /** The tree is what composing from nothing under snap gives, and every body is
      subscribed to what it reads.  Only the root may carry marks. */
  ghost predicate Settled(p: Program, snap: Snapshot, tree: Forest, cells: seq<Cell>)
    requires WellFormed(p)
  {
    && Rooted(p, tree)
    && ShapeOf(tree.kids) == ComposeBody(p, snap, p.root)
    && AllClean(tree.kids)
    && AllSubscribed(p, snap, tree, cells)
  }

  /** Every watcher of a cell with a pending mutation is queued. */
  ghost predicate Scheduled(cells: seq<Cell>, queue: seq<Key>) {
    forall c, k :: Watching(cells, c, k) && cells[Find(cells, c)].dirty ==> k in queue
  }

  lemma {:induction false} PublishNames(cells: seq<Cell>)
    ensures SameNames(cells, Publish(cells))
  {}

  /** A cell with no pending mutation reads the same before and after publication. */
  lemma {:induction false} PublishCell(cells: seq<Cell>, c: CellId)
    requires Find(cells, c) < |cells| ==> !cells[Find(cells, c)].dirty
    ensures SameCell(Snap(cells), Snap(Publish(cells)), c)
  {
    var next := Publish(cells);
    PublishNames(cells);
    NamesOnly(cells, next, c);
    SnapAt(cells, c);
    SnapAt(next, c);
  }

  /** Publication keeps every subscription. */
  lemma {:induction false} PublishWatching(cells: seq<Cell>, c: CellId, k: Key)
    ensures Watching(Publish(cells), c, k) <==> Watching(cells, c, k)
  {
    PublishNames(cells);
    NamesOnly(cells, Publish(cells), c);
  }

  lemma {:induction false} SubscribedPublish(p: Program, snap: Snapshot, f: Forest, cells: seq<Cell>)
    requires AllSubscribed(p, snap, f, cells)
    ensures AllSubscribed(p, snap, f, Publish(cells))
  {
    if f.Tree? {
      var steps := p.body(f.info.key, snap);
      forall i | 0 <= i < |steps| && steps[i].Watch? && Find(Publish(cells), steps[i].cell) < |Publish(cells)|
        ensures Watching(Publish(cells), steps[i].cell, f.info.key)
      {
        PublishNames(cells);
        NamesOnly(cells, Publish(cells), steps[i].cell);
        PublishWatching(cells, steps[i].cell, f.info.key);
      }
      SubscribedPublish(p, snap, f.kids, cells);
      SubscribedPublish(p, snap, f.next, cells);
    }
  }

  /** A subscribed group that is not queued reads no changed cell. */
  lemma {:induction false} UnqueuedAgrees(p: Program, cells: seq<Cell>, queue: seq<Key>, a: Key)
    requires Scheduled(cells, queue) && a !in queue
    requires SubscribedTo(p.body(a, Snap(cells)), cells, a)
    ensures AgreeOn(p.body(a, Snap(cells)), Snap(cells), Snap(Publish(cells)))
  {
    var steps := p.body(a, Snap(cells));
    forall i | 0 <= i < |steps| && steps[i].Watch?
      ensures SameCell(Snap(cells), Snap(Publish(cells)), steps[i].cell)
    {
      var c := steps[i].cell;
      if Find(cells, c) < |cells| { assert Watching(cells, c, a); }
      PublishCell(cells, c);
    }
  }

  lemma {:induction false} PathInTree(p: Program, tree: Forest, x: Key, i: nat)
    requires Keyed(p) && Rooted(p, tree) && HasKey(tree.kids, x) && i < |p.path(x)|
    ensures HasKey(tree, p.path(x)[i])
  {
    KeyHasBranch(p, p.root, tree.kids, x);
    if i == 0 {
      assert p.path(x)[..1][0] == p.root;
    } else if !HasKey(tree.kids, p.path(x)[i]) {
      AbsentAvoided(p, p.root, tree.kids, p.path(x)[i], x);
    }
  }

  /** A group whose path holds no queued key has the same body after publication. */
  lemma {:induction false} UntouchedBody(p: Program, tree: Forest, cells: seq<Cell>, queue: seq<Key>, x: Key)
    requires Keyed(p) && Reactive(p) && Rooted(p, tree) && HasKey(tree.kids, x)
    requires AllSubscribed(p, Snap(cells), tree, cells) && Scheduled(cells, queue)
    requires forall i :: 0 <= i < |queue| ==> Avoids(p, x, queue[i], 0)
    ensures p.body(x, Snap(cells)) == p.body(x, Snap(Publish(cells)))
  {
    var path := p.path(x);
    forall i | 0 <= i < |path| ensures AgreeOn(p.body(path[i], Snap(cells)), Snap(cells), Snap(Publish(cells))) {
      PathInTree(p, tree, x, i);
      SubscribedAt(p, Snap(cells), tree, cells, path[i]);
      UnqueuedAgrees(p, cells, queue, path[i]);
    }
    assert AgreeAlong(p, path, Snap(cells), Snap(Publish(cells)));
  }

  lemma {:induction false} UntouchedBodies(p: Program, tree: Forest, cells: seq<Cell>, queue: seq<Key>, f: Forest)
    requires Keyed(p) && Reactive(p) && Rooted(p, tree)
    requires forall x :: HasKey(f, x) ==> HasKey(tree.kids, x)
    requires AllSubscribed(p, Snap(cells), tree, cells) && Scheduled(cells, queue)
    requires Untouched(p, f, queue)
    ensures SameBodies(p, Snap(cells), Snap(Publish(cells)), f)
  {
    if f.Tree? {
      assert HasKey(f, f.info.key);
      if !Dirty(f.info) {
        UntouchedBody(p, tree, cells, queue, f.info.key);
      }
      UntouchedBodies(p, tree, cells, queue, f.kids);
      UntouchedBodies(p, tree, cells, queue, f.next);
    }
  }

  // ------------------------------------------------------------------ one pass

  /** What a pass needs of the drained tree to rebuild the composition under snap. */
  ghost predicate Prepared(p: Program, snap: Snapshot, kids: Forest, cells: seq<Cell>)
    requires WellFormed(p)
  {
    Conform(p, p.root, kids) && Closed(kids) && Current(p, snap, kids) && CleanSubscribed(p, snap, kids, cells)
  }

  lemma {:induction false} PreparedSettles(p: Program, snap: Snapshot, info: Info, kids: Forest, w: World)
    requires Keyed(p) && info.key == p.root && Prepared(p, snap, kids, w.cells)
    requires var b := RunBody(p, snap, info, kids, w); !b.w.full && !b.w.missed
    ensures var b := RunBody(p, snap, info, kids, w);
            Settled(p, snap, b.done, b.w.cells) && OnlyWatchers(w.cells, b.w.cells)
  {
    RunBodyGrows(p, snap, info, kids, w);
    RunBodyComposes(p, snap, info, kids, w);
    RunBodyCleans(p, snap, info, kids, w, 0);
    RunBodyConforms(p, snap, info, kids, w);
    RunBodySubscribes(p, snap, info, kids, w);
    RunBodyKeepsWatch(p, snap, info, kids, w, 0, p.root);
  }

  lemma {:induction false} CleanSubscribedSame(p: Program, f1: Snapshot, f2: Snapshot, f: Forest, cells: seq<Cell>)
    requires AllSubscribed(p, f1, f, cells) && SameBodies(p, f1, f2, f)
    ensures CleanSubscribed(p, f2, f, cells)
  {
    if f.Tree? {
      CleanSubscribedSame(p, f1, f2, f.kids, cells);
      CleanSubscribedSame(p, f1, f2, f.next, cells);
    }
  }

  lemma {:induction false} UntouchedNone(p: Program, f: Forest)
    ensures Untouched(p, f, [])
  {
    if f.Tree? {
      UntouchedNone(p, f.kids);
      UntouchedNone(p, f.next);
    }
  }

  lemma {:induction false} ShapeKeys(f: Forest, g: Forest, x: Key)
    requires ShapeOf(f) == ShapeOf(g)
    ensures HasKey(f, x) <==> HasKey(g, x)
  {
    if f.Tree? {
      ShapeKeys(f.kids, g.kids, x);
      ShapeKeys(f.next, g.next, x);
    }
  }

  /** Publishing and draining prepare a settled tree for the pass. */
  lemma {:induction false} DrainPrepares(p: Program, tree: Forest, cells: seq<Cell>, queue: seq<Key>)
    requires Keyed(p) && Reactive(p)
    requires Settled(p, Snap(cells), tree, cells) && Scheduled(cells, queue)
    ensures var t := Drain(tree, queue);
            Rooted(p, t) && Prepared(p, Snap(Publish(cells)), t.kids, Publish(cells))
  {
    var t := Drain(tree, queue);
    var f1, f2 := Snap(cells), Snap(Publish(cells));
    UntouchedNone(p, tree.kids);
    DrainSilences(p, tree, queue, []);
    assert queue + [] == queue;
    DrainShape(tree, queue);
    assert SameBodies(p, f1, f2, t.kids) by {
      forall x | HasKey(t.kids, x) ensures HasKey(tree.kids, x) { ShapeKeys(t.kids, tree.kids, x); }
      UntouchedBodies(p, tree, cells, queue, t.kids);
    }
    assert Closed(t) by {
      CleanClosed(tree.kids);
      DrainClosed(tree, queue);
    }
    assert Current(p, f2, t.kids) by {
      assert Nested(p, p.root, p.body(p.root, f1));
      ComposedIsBuilt(p, f1, p.root, p.body(p.root, f1), t.kids);
      BuiltIsCurrent(p, f1, f2, t.kids);
    }
    assert CleanSubscribed(p, f2, t.kids, Publish(cells)) by {
      SubscribedShape(p, f1, tree, t, cells);
      SubscribedPublish(p, f1, t.kids, cells);
      CleanSubscribedSame(p, f1, f2, t.kids, Publish(cells));
    }
  }

  /** The tree is settled for the published values, or nothing has been composed yet. */
  ghost predicate SettledOrEmpty(p: Program, tree: Forest, cells: seq<Cell>)
    requires WellFormed(p)
  {
    tree == Nil || Settled(p, Snap(cells), tree, cells)
  }

  /** One drain of a pass: publish, mark, run. */
  ghost function DrainOnce(p: Program, tree: Forest, w: World): Visited
    requires WellFormed(p)
  {
    var w1 := w.(cells := Publish(w.cells), queue := []);
    Pass(p, Snap(w1.cells), Drain(tree, w.queue), w1)
  }

  lemma {:induction false} DrainNil(queue: seq<Key>)
    ensures Drain(Nil, queue) == Nil
    decreases |queue|
  {
    if queue != [] {
      DrainNil(queue[..|queue| - 1]);
    }
  }

  /** One drain rebuilds, under the newly published values, what composing from nothing gives. */
  lemma {:induction false} DrainOnceSettles(p: Program, tree: Forest, w: World)
    requires Keyed(p) && Reactive(p)
    requires SettledOrEmpty(p, tree, w.cells) && Scheduled(w.cells, w.queue)
    requires !DrainOnce(p, tree, w).w.full && !DrainOnce(p, tree, w).w.missed
    ensures var r := DrainOnce(p, tree, w);
            Settled(p, Snap(Publish(w.cells)), r.done, r.w.cells) && OnlyWatchers(Publish(w.cells), r.w.cells)
  {
    var w1 := w.(cells := Publish(w.cells), queue := []);
    var snap := Snap(w1.cells);
    if tree == Nil {
      DrainNil(w.queue);
      var w2 := w1.(next := w1.next + 1, room := if w1.room > 0 then w1.room - 1 else 0);
      PreparedSettles(p, snap, NewGroup(p.root, w1.next), Nil, w2);
    } else {
      DrainPrepares(p, tree, w.cells, w.queue);
      var t := Drain(tree, w.queue);
      PreparedSettles(p, snap, t.info, t.kids, w1);
    }
  }
}

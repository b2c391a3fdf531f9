/** Runs of frames: mutations between frames, then a recomposition that drains until it
    settles or gives up. */
module Frames {
  import opened Basics
  import opened Trees
  import opened State
  import opened Programs
  import opened Passes
  import opened Flags
  import opened Scratch
  import opened Subscriptions
  import opened Incremental

  datatype Mutation = Mutation(cell: CellId, value: Payload)

  predicate Covers(queue: seq<Key>, keys: seq<Key>) {
    forall i :: 0 <= i < |keys| ==> keys[i] in queue
  }

  /** A mutation: stage the value and queue every watcher of the cell. */
  function Mutate(w: World, m: Mutation): World {
    var keys := WatchersOf(w.cells, m.cell);
    var queue := Enqueue(w.queue, keys);
    w.(cells := Stage(w.cells, m.cell, m.value), queue := queue, missed := w.missed || !Covers(queue, keys))
  }

  lemma {:induction false} EnqueueKeeps(queue: seq<Key>, keys: seq<Key>, k: Key)
    ensures k in queue ==> k in Enqueue(queue, keys)
    decreases |keys|
  {
    if keys != [] {
      EnqueueKeeps(queue, keys[..|keys| - 1], k);
    }
  }

  lemma {:induction false} StageNames(cells: seq<Cell>, id: CellId, v: Payload, c: CellId)
    ensures SameNames(cells, Stage(cells, id, v)) && Find(Stage(cells, id, v), c) == Find(cells, c)
  {
    NamesOnly(cells, Stage(cells, id, v), c);
  }

  /** Staging shows in no snapshot and in no watcher list. */
  lemma {:induction false} StageHidden(cells: seq<Cell>, id: CellId, v: Payload)
    ensures Snap(Stage(cells, id, v)) == Snap(cells)
    ensures forall c, k :: Watching(Stage(cells, id, v), c, k) <==> Watching(cells, c, k)
  {
    var next := Stage(cells, id, v);
    forall c ensures SameCell(Snap(cells), Snap(next), c) {
      StageNames(cells, id, v, c);
      SnapAt(cells, c);
      SnapAt(next, c);
    }
    SnapshotsEqual(Snap(cells), Snap(next));
    forall c, k ensures Watching(next, c, k) <==> Watching(cells, c, k) {
      StageNames(cells, id, v, c);
    }
  }

  lemma {:induction false} StageSubscribed(p: Program, snap: Snapshot, f: Forest, cells: seq<Cell>, id: CellId,
                                           v: Payload)
    requires AllSubscribed(p, snap, f, cells)
    ensures AllSubscribed(p, snap, f, Stage(cells, id, v))
  {
    if f.Tree? {
      var steps, next := p.body(f.info.key, snap), Stage(cells, id, v);
      StageHidden(cells, id, v);
      forall i | 0 <= i < |steps| && steps[i].Watch? && Find(next, steps[i].cell) < |next|
        ensures Watching(next, steps[i].cell, f.info.key)
      {
        StageNames(cells, id, v, steps[i].cell);
        assert Watching(cells, steps[i].cell, f.info.key);
      }
      StageSubscribed(p, snap, f.kids, cells, id, v);
      StageSubscribed(p, snap, f.next, cells, id, v);
    }
  }

  /** Between frames: the tree matches the published values and nothing pending is
      unscheduled. */
  ghost predicate Between(p: Program, tree: Forest, w: World)
    requires WellFormed(p)
  {
    SettledOrEmpty(p, tree, w.cells) && Scheduled(w.cells, w.queue)
  }

  lemma {:induction false} MutateScheduled(w: World, m: Mutation)
    requires Scheduled(w.cells, w.queue) && !Mutate(w, m).missed
    ensures Scheduled(Mutate(w, m).cells, Mutate(w, m).queue)
  {
    var w' := Mutate(w, m);
    var keys := WatchersOf(w.cells, m.cell);
    forall c, k | Watching(w'.cells, c, k) && w'.cells[Find(w'.cells, c)].dirty ensures k in w'.queue {
      StageNames(w.cells, m.cell, m.value, c);
      StageHidden(w.cells, m.cell, m.value);
      assert Watching(w.cells, c, k);
      EnqueueKeeps(w.queue, keys, k);
      if Find(w.cells, c) == Find(w.cells, m.cell) {
        assert c == m.cell && k in keys;
      }
    }
  }

  lemma {:induction false} MutateKeeps(p: Program, tree: Forest, w: World, m: Mutation)
    requires WellFormed(p) && Between(p, tree, w) && !Mutate(w, m).missed
    ensures Between(p, tree, Mutate(w, m))
  {
    MutateScheduled(w, m);
    StageHidden(w.cells, m.cell, m.value);
    if tree != Nil {
      StageSubscribed(p, Snap(w.cells), tree, w.cells, m.cell, m.value);
    }
  }

  // ------------------------------------------------------------------ draining until settled

  /** How a recomposition ends: the last drain scheduled nothing more, or the drain limit was
      reached, or the table was full, so that not even the root could be entered and leaving it
      failed an assertion. */
  datatype Verdict = Done | NotConverged | Broken

  datatype Outcome = Outcome(verdict: Verdict, tree: Forest, w: World)

  /** At most n drains. */
  ghost function Settle(p: Program, tree: Forest, w: World, n: nat): Outcome
    requires WellFormed(p)
    decreases n
  {
    if n == 0 then Outcome(NotConverged, tree, w)
    else if w.room == 0 then Outcome(Broken, Drain(tree, w.queue), w.(cells := Publish(w.cells), queue := []))
    else
      var r := DrainOnce(p, tree, w);
      if r.w.queue == [] then Outcome(Done, r.done, r.w) else Settle(p, r.done, r.w, n - 1)
  }

  predicate AllPublished(cells: seq<Cell>) {
    forall i :: 0 <= i < |cells| && cells[i].inUse ==> !cells[i].dirty
  }

  lemma {:induction false} PublishPublished(cells: seq<Cell>)
    ensures AllPublished(Publish(cells))
    ensures AllPublished(cells) ==> Publish(cells) == cells
  {}

  lemma {:induction false} PublishedScheduled(cells: seq<Cell>, queue: seq<Key>)
    requires AllPublished(cells)
    ensures Scheduled(cells, queue)
  {}

  lemma {:induction false} PublishedWatchers(a: seq<Cell>, b: seq<Cell>)
    requires AllPublished(a) && OnlyWatchers(a, b)
    ensures AllPublished(b)
  {
    forall i | 0 <= i < |b| && b[i].inUse ensures !b[i].dirty {
      assert b[i] == a[i].(watchers := b[i].watchers);
    }
  }

  lemma {:induction false} DrainOnceGrows(p: Program, tree: Forest, w: World)
    requires WellFormed(p)
    ensures Sticky(w, DrainOnce(p, tree, w).w)
    ensures OnlyWatchers(Publish(w.cells), DrainOnce(p, tree, w).w.cells)
    ensures DrainOnce(p, tree, w).done.Tree? && DrainOnce(p, tree, w).done.next == Nil
  {
    var w1 := w.(cells := Publish(w.cells), queue := []);
    PassGrows(p, Snap(w1.cells), Drain(tree, w.queue), w1);
  }

  lemma {:induction false} SettleGrows(p: Program, tree: Forest, w: World, n: nat)
    requires WellFormed(p)
    ensures Sticky(w, Settle(p, tree, w, n).w)
    ensures Settle(p, tree, w, n).verdict == Done ==> AllPublished(Settle(p, tree, w, n).w.cells)
    decreases n
  {
    if n > 0 && w.room > 0 {
      DrainOnceGrows(p, tree, w);
      var r := DrainOnce(p, tree, w);
      PublishPublished(w.cells);
      PublishedWatchers(Publish(w.cells), r.w.cells);
      if r.w.queue != [] {
        SettleGrows(p, r.done, r.w, n - 1);
      }
    }
  }

  /** However many drains there are, and whether or not the last one scheduled nothing more,
      they leave the tree that composing the newly published values from nothing would give. */
  lemma {:induction false} SettleComposes(p: Program, tree: Forest, w: World, n: nat)
    requires Keyed(p) && Reactive(p) && Between(p, tree, w) && n > 0
    requires var o := Settle(p, tree, w, n); o.verdict != Broken && !o.w.full && !o.w.missed
    ensures var o := Settle(p, tree, w, n);
            && Settled(p, Snap(Publish(w.cells)), o.tree, o.w.cells)
            && Snap(o.w.cells) == Snap(Publish(w.cells))
            && AllPublished(o.w.cells)
    decreases n
  {
    var r := DrainOnce(p, tree, w);
    if r.w.queue != [] { SettleGrows(p, r.done, r.w, n - 1); }
    DrainOnceSettles(p, tree, w);
    SnapSame(Publish(w.cells), r.w.cells);
    PublishPublished(w.cells);
    PublishedWatchers(Publish(w.cells), r.w.cells);
    if r.w.queue != [] && n > 1 {
      PublishedScheduled(r.w.cells, r.w.queue);
      PublishPublished(r.w.cells);
      SettleComposes(p, r.done, r.w, n - 1);
    }
  }

  /** One turn of the drain loop. */
  lemma {:induction false} SettleTurn(p: Program, tree: Forest, w: World, n: nat)
    requires WellFormed(p)
    ensures var r := DrainOnce(p, tree, w);
            Settle(p, tree, w, n + 1) ==
              if w.room == 0 then Outcome(Broken, Drain(tree, w.queue), w.(cells := Publish(w.cells), queue := []))
              else if r.w.queue == [] then Outcome(Done, r.done, r.w)
              else Settle(p, r.done, r.w, n)
    ensures DrainOnce(p, tree, w).done != Nil
  {
    DrainOnceGrows(p, tree, w);
  }

  /** The keys due now, and those that had to wait. */
  datatype Queues = Queues(now: seq<Key>, later: seq<Key>)

  /** Keys move from the end of one queue to the end of another while there is room. */
  function Transfer(queue: seq<Key>, later: seq<Key>): (r: Queues)
    ensures queue <= r.now && r.later <= later
    decreases |later|
  {
    if later == [] || |queue| >= MAX_QUEUE then Queues(queue, later)
    else Transfer(queue + [later[|later| - 1]], later[..|later| - 1])
  }

  /** Drains until settled; what was scheduled for the next frame is then due. */
  ghost function SettleFrame(p: Program, tree: Forest, w: World, later: seq<Key>, n: nat): Outcome
    requires WellFormed(p)
  {
    var o := Settle(p, tree, w, n);
    if o.verdict == Done then o.(w := o.w.(queue := Transfer([], later).now)) else o
  }

  /** A session between two recompositions; composed says whether one has succeeded before. */
  datatype Status = Status(tree: Forest, w: World, later: seq<Key>, composed: bool)

  datatype Recomposed = Recomposed(verdict: Verdict, after: Status)

  ghost function Recomposition(p: Program, s: Status, n: nat): Recomposed
    requires WellFormed(p)
  {
    var Queues(queue, rest) := Transfer(s.w.queue, s.later);
    var w := s.w.(queue := queue);
    if s.composed && queue == [] && AllPublished(w.cells) then Recomposed(Done, Status(s.tree, w, rest, true))
    else
      var o := SettleFrame(p, s.tree, w, rest, n);
      Recomposed(o.verdict, Status(o.tree, o.w, if o.verdict == Done then Transfer([], rest).later else rest,
                                    s.composed || o.verdict == Done))
  }

  lemma {:induction false} TransferAll(queue: seq<Key>, later: seq<Key>)
    ensures |Transfer(queue, later).now| < MAX_QUEUE ==> Transfer(queue, later).later == []
    decreases |later|
  {
    if later != [] && |queue| < MAX_QUEUE {
      TransferAll(queue + [later[|later| - 1]], later[..|later| - 1]);
    }
  }

  /** Scheduling more keys leaves nothing unscheduled. */
  lemma {:induction false} TransferKeeps(p: Program, tree: Forest, w: World, later: seq<Key>)
    requires WellFormed(p) && Between(p, tree, w)
    ensures Between(p, tree, w.(queue := Transfer(w.queue, later).now))
  {
    var r := Transfer(w.queue, later).now;
    forall k | k in w.queue ensures k in r {
      var i :| 0 <= i < |w.queue| && w.queue[i] == k;
      assert r[i] == k;
    }
  }

  // ------------------------------------------------------------------ runs

  /** What can happen between two recompositions. */
  datatype Act = Assign(m: Mutation) | Poke(key: Key)

  function Perform(s: Status, act: Act): Status {
    match act
    case Assign(m) => s.(w := Mutate(s.w, m))
    case Poke(k) => s.(later := EnqueueOne(s.later, k))
  }

  function PerformAll(s: Status, acts: seq<Act>): Status
    decreases |acts|
  {
    if acts == [] then s else PerformAll(Perform(s, acts[0]), acts[1..])
  }

  /** What each frame of a run leaves: its acts, then a recomposition.  The run goes on after a
      recomposition that reached the drain limit. */
  ghost function Run(p: Program, s: Status, frames: seq<seq<Act>>, n: nat): (r: seq<Recomposed>)
    requires WellFormed(p)
    ensures |r| <= |frames|
    decreases |frames|
  {
    if frames == [] then []
    else
      var r := Recomposition(p, PerformAll(s, frames[0]), n);
      [r] + if r.verdict == Broken then [] else Run(p, r.after, frames[1..], n)
  }

  predicate Failed(w: World) {
    w.full || w.missed
  }

  /** A session that may go on: see Between. */
  ghost predicate Steady(p: Program, s: Status)
    requires WellFormed(p)
  {
    Between(p, s.tree, s.w) && (s.composed ==> s.tree != Nil)
  }

  /** A session that has composed nothing yet may start, whatever cells there are. */
  lemma {:induction false} StartIsSteady(p: Program, w: World)
    requires WellFormed(p) && forall i :: 0 <= i < |w.cells| ==> w.cells[i].watchers == []
    ensures Steady(p, Status(Nil, w, [], false))
  {
    forall c, k ensures !Watching(w.cells, c, k) {}
  }

  lemma {:induction false} PerformAllKeeps(p: Program, s: Status, acts: seq<Act>)
    requires WellFormed(p)
    ensures Failed(s.w) ==> Failed(PerformAll(s, acts).w)
    ensures Steady(p, s) && !Failed(PerformAll(s, acts).w) ==> Steady(p, PerformAll(s, acts))
    decreases |acts|
  {
    if acts != [] {
      var s1 := Perform(s, acts[0]);
      PerformAllKeeps(p, s1, acts[1..]);
      if Steady(p, s) && !Failed(PerformAll(s, acts).w) && acts[0].Assign? {
        MutateKeeps(p, s.tree, s.w, acts[0].m);
      }
    }
  }

  lemma {:induction false} RecompositionGrows(p: Program, s: Status, n: nat)
    requires WellFormed(p) && Failed(s.w)
    ensures Failed(Recomposition(p, s, n).after.w)
  {
    SettleGrows(p, s.tree, s.w.(queue := Transfer(s.w.queue, s.later).now), n);
  }

  /** The tree of keys is the one that composing the published values from nothing gives. */
  ghost predicate Composed(p: Program, s: Status)
    requires WellFormed(p)
  {
    ShapeOf(s.tree) == Limb(p.root, ComposeBody(p, Snap(s.w.cells), p.root), Bare)
  }

  /** A recomposition within the capacities composes the published values, even when it stops
      at the drain limit, as long as it may drain at all. */
  lemma {:induction false} RecompositionComposes(p: Program, s: Status, n: nat)
    requires Keyed(p) && Reactive(p) && Steady(p, s)
    requires var r := Recomposition(p, s, n); r.verdict != Broken && !Failed(r.after.w)
    ensures var r := Recomposition(p, s, n);
            && Steady(p, r.after)
            && (n > 0 || r.verdict == Done ==>
                  Settled(p, Snap(r.after.w.cells), r.after.tree, r.after.w.cells) && Composed(p, r.after))
  {
    var w := s.w.(queue := Transfer(s.w.queue, s.later).now);
    var s' := Recomposition(p, s, n).after;
    TransferKeeps(p, s.tree, s.w, s.later);
    if !(s.composed && w.queue == [] && AllPublished(w.cells)) && n > 0 {
      SettleComposes(p, s.tree, w, n);
      PublishedScheduled(s'.w.cells, s'.w.queue);
    }
  }

  lemma {:induction false} RunGrows(p: Program, s: Status, frames: seq<seq<Act>>, n: nat, i: nat)
    requires WellFormed(p) && Failed(s.w) && i < |Run(p, s, frames, n)|
    ensures Failed(Run(p, s, frames, n)[i].after.w)
    decreases |frames|
  {
    var s1 := PerformAll(s, frames[0]);
    PerformAllKeeps(p, s, frames[0]);
    RecompositionGrows(p, s1, n);
    RunAt(p, s, frames, n, i);
    if i > 0 { RunGrows(p, Recomposition(p, s1, n).after, frames[1..], n, i - 1); }
  }

  /** The frames of a run, from the second on, are a run. */
  lemma {:induction false} RunAt(p: Program, s: Status, frames: seq<seq<Act>>, n: nat, i: nat)
    requires WellFormed(p) && i < |Run(p, s, frames, n)|
    ensures frames != []
    ensures var r := Recomposition(p, PerformAll(s, frames[0]), n);
            if i == 0 then Run(p, s, frames, n)[i] == r
            else r.verdict != Broken && i - 1 < |Run(p, r.after, frames[1..], n)|
                 && Run(p, s, frames, n)[i] == Run(p, r.after, frames[1..], n)[i - 1]
  {
    hide Recomposition, PerformAll;
  }

  /** Over any run of frames within the capacities, after every recomposition that drained or
      succeeded the tree of keys is the one composed from an empty table with the same
      published values, whatever earlier recompositions stopped at the drain limit. */
  lemma {:induction false} RunComposes(p: Program, s: Status, frames: seq<seq<Act>>, n: nat, i: nat)
    requires Keyed(p) && Reactive(p) && Steady(p, s) && i < |Run(p, s, frames, n)|
    requires var r := Run(p, s, frames, n)[i]; r.verdict != Broken && !Failed(r.after.w)
    ensures var r := Run(p, s, frames, n)[i];
            && Steady(p, r.after)
            && (n > 0 || r.verdict == Done ==> Composed(p, r.after))
    decreases |frames|
  {
    var r := Recomposition(p, PerformAll(s, frames[0]), n);
    RunAt(p, s, frames, n, i);
    if i > 0 && Failed(r.after.w) { RunGrows(p, r.after, frames[1..], n, i - 1); }
    FrameComposes(p, s, frames[0], n);
    if i > 0 { RunComposes(p, r.after, frames[1..], n, i - 1); }
  }

  /** One frame. */
  lemma {:induction false} FrameComposes(p: Program, s: Status, acts: seq<Act>, n: nat)
    requires Keyed(p) && Reactive(p) && Steady(p, s)
    requires var r := Recomposition(p, PerformAll(s, acts), n); r.verdict != Broken && !Failed(r.after.w)
    ensures var r := Recomposition(p, PerformAll(s, acts), n);
            Steady(p, r.after) && (n > 0 || r.verdict == Done ==> Composed(p, r.after))
  {
    var s1 := PerformAll(s, acts);
    if Failed(s1.w) { RecompositionGrows(p, s1, n); }
    PerformAllKeeps(p, s, acts);
    RecompositionComposes(p, s1, n);
  }
}

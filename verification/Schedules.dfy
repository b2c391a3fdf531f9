/** A scheduled key reaches a drain: transfers between the queues, keys that bodies schedule, and
    how a recomposition ends. */
module Schedules {
  import opened Basics
  import opened Trees
  import opened State
  import opened Programs
  import opened Passes
  import opened Flags
  import opened Incremental
  import opened Frames
  import opened Census
  import Snapshots
  import X = Executions

  // ------------------------------------------------------------------ queues

  /** A transfer loses and invents no key, and stops only when there is no key or no room left. */
  lemma {:induction false} TransferConserves(queue: seq<Key>, later: seq<Key>)
    ensures var r := Transfer(queue, later);
            && multiset(r.now) + multiset(r.later) == multiset(queue) + multiset(later)
            && (r.later == [] || |r.now| >= MAX_QUEUE)
            && (|queue| <= MAX_QUEUE ==> |r.now| <= MAX_QUEUE)
    decreases |later|
  {
    if later != [] && |queue| < MAX_QUEUE {
      var last, front := later[|later| - 1], later[..|later| - 1];
      assert later == front + [last];
      TransferConserves(queue + [last], front);
    }
  }

  /** A key of either queue is current afterwards, unless it still waits behind a full queue. */
  lemma {:induction false} TransferTakes(queue: seq<Key>, later: seq<Key>, k: Key)
    requires k in queue || k in later
    ensures var r := Transfer(queue, later);
            && (k in r.now || (k in r.later && |r.now| >= MAX_QUEUE))
            && (|queue| + |later| <= MAX_QUEUE ==> k in r.now)
  {
    var r := Transfer(queue, later);
    TransferConserves(queue, later);
    assert k in multiset(r.now) + multiset(r.later);
    assert |multiset(r.now) + multiset(r.later)| == |multiset(queue) + multiset(later)|;
  }

  // ------------------------------------------------------------------ queued keys are handled

  /** The first group with a queued key runs, or is pruned, when the queue is drained. */
  lemma {:induction false} SettleHandles(p: Program, tree: Forest, w: World, n: nat, k: Key)
    requires WellFormed(p) && Closed(tree) && (tree.Tree? ==> tree.next == Nil) && n > 0 && w.room > 0
    requires k in w.queue && HasKey(tree, k)
    ensures Handled(w, Settle(p, tree, w, n).w, FirstWith(tree, k))
  {
    var w1 := w.(cells := Publish(w.cells), queue := []);
    var r := DrainOnce(p, tree, w);
    MarkedIsHandled(p, Snap(w1.cells), tree, w1, w.queue, k);
    DrainOnceGrows(p, tree, w);
    assert Handled(w, r.w, FirstWith(tree, k));
    if r.w.queue != [] {
      SettleGrows(p, r.done, r.w, n - 1);
      HandledLater(w, r.w, Settle(p, r.done, r.w, n - 1).w, FirstWith(tree, k));
    }
  }

  /** A key that is scheduled when a recomposition begins has its group run, or pruned, in it. */
  lemma {:induction false} ScheduledIsHandled(p: Program, s: Status, n: nat, k: Key)
    requires WellFormed(p) && Closed(s.tree) && (s.tree.Tree? ==> s.tree.next == Nil) && n > 0 && s.w.room > 0
    requires HasKey(s.tree, k) && k in Transfer(s.w.queue, s.later).now
    ensures Handled(s.w, Recomposition(p, s, n).after.w, FirstWith(s.tree, k))
  {
    SettleHandles(p, s.tree, s.w.(queue := Transfer(s.w.queue, s.later).now), n, k);
  }

  /** In particular a key of either queue, when both fit into one. */
  lemma {:induction false} QueuedIsHandled(p: Program, s: Status, n: nat, k: Key)
    requires WellFormed(p) && Closed(s.tree) && (s.tree.Tree? ==> s.tree.next == Nil) && n > 0 && s.w.room > 0
    requires HasKey(s.tree, k) && (k in s.w.queue || k in s.later) && |s.w.queue| + |s.later| <= MAX_QUEUE
    ensures Handled(s.w, Recomposition(p, s, n).after.w, FirstWith(s.tree, k))
  {
    TransferTakes(s.w.queue, s.later, k);
    ScheduledIsHandled(p, s, n, k);
  }

  /** An invalidation between frames runs the group in the next recomposition. */
  lemma {:induction false} PokedIsHandled(p: Program, s: Status, n: nat, k: Key)
    requires WellFormed(p) && Closed(s.tree) && (s.tree.Tree? ==> s.tree.next == Nil) && n > 0 && s.w.room > 0
    requires HasKey(s.tree, k) && |s.w.queue| + |s.later| < MAX_QUEUE
    ensures Handled(s.w, Recomposition(p, Perform(s, Poke(k)), n).after.w, FirstWith(s.tree, k))
  {
    QueuedIsHandled(p, Perform(s, Poke(k)), n, k);
  }

  /** A mutation between frames runs every group that watches the cell in the next recomposition, when the
      watchers that are not queued yet fit. */
  lemma {:induction false} MutatedIsHandled(p: Program, s: Status, n: nat, m: Mutation, k: Key)
    requires WellFormed(p) && Closed(s.tree) && (s.tree.Tree? ==> s.tree.next == Nil) && n > 0 && s.w.room > 0
    requires HasKey(s.tree, k) && Watching(s.w.cells, m.cell, k)
    requires |s.w.queue| + |Snapshots.New(s.w.queue, WatchersOf(s.w.cells, m.cell))| + |s.later| <= MAX_QUEUE
    ensures Handled(s.w, Recomposition(p, Perform(s, Assign(m)), n).after.w, FirstWith(s.tree, k))
  {
    var keys, s1 := WatchersOf(s.w.cells, m.cell), Perform(s, Assign(m));
    Snapshots.EnqueueFits(s.w.queue, keys);
    QueuedIsHandled(p, s1, n, k);
  }

  /** Whatever the capacities, a key of either queue is drained or still waits afterwards. */
  lemma {:induction false} KeyIsHandledOrWaits(p: Program, s: Status, n: nat, k: Key)
    requires WellFormed(p) && Closed(s.tree) && (s.tree.Tree? ==> s.tree.next == Nil) && n > 0 && s.w.room > 0
    requires HasKey(s.tree, k) && (k in s.w.queue || k in s.later)
    ensures var after := Recomposition(p, s, n).after;
            Handled(s.w, after.w, FirstWith(s.tree, k)) || k in after.w.queue || k in after.later
  {
    var r, after := Transfer(s.w.queue, s.later), Recomposition(p, s, n).after;
    TransferTakes(s.w.queue, s.later, k);
    if k in r.now {
      ScheduledIsHandled(p, s, n, k);
    } else {
      TransferTakes([], r.later, k);
    }
  }

  // ------------------------------------------------------------------ keys that bodies schedule

  /** The keys that the bodies run by these steps invalidate. */
  ghost function StepsAsk(p: Program, snap: Snapshot, steps: seq<Step>, info: Info, offset: nat, rest: Forest,
                          w: World): set<Key>
    requires Ready(p, info.key, steps)
    decreases MAX_DEPTH - |p.path(info.key)|, |steps|
  {
    if steps == [] then {}
    else if steps[0].Call? then
      assert Emits(p, info.key, steps[0].child);
      var v := Visit(p, snap, steps[0].child, rest, w);
      VisitAsks(p, snap, steps[0].child, rest, w) + StepsAsk(p, snap, steps[1..], info, offset, v.rest, v.w)
    else
      var a := Apply(steps[0], info, offset, w);
      assert a.info.key == info.key by { ApplyKeeps(steps[0], info, offset, w); }
      (if steps[0].Invalidate? then {steps[0].target} else {})
          + StepsAsk(p, snap, steps[1..], a.info, a.offset, rest, a.w)
  }

  ghost function VisitAsks(p: Program, snap: Snapshot, c: Key, rest: Forest, w: World): set<Key>
    requires WellFormed(p) && 0 < |p.path(c)| <= MAX_DEPTH
    decreases MAX_DEPTH - |p.path(c)| + 1, 0
  {
    match Admit(c, rest, w)
    case Skip(_, _, _) => {}
    case Enter(info, kids, _, w') => BodyAsks(p, snap, info, kids, w')
  }

  ghost function BodyAsks(p: Program, snap: Snapshot, info: Info, kids: Forest, w: World): set<Key>
    requires WellFormed(p) && |p.path(info.key)| <= MAX_DEPTH
    decreases MAX_DEPTH - |p.path(info.key)|, |p.body(info.key, snap)| + 1
  {
    assert Nested(p, info.key, p.body(info.key, snap));
    StepsAsk(p, snap, p.body(info.key, snap), info, 0, kids, w.(ran := w.ran + [info.id]))
  }

  ghost function PassAsks(p: Program, snap: Snapshot, tree: Forest, w: World): set<Key>
    requires WellFormed(p)
  {
    if tree.Tree? && tree.info.key == p.root then BodyAsks(p, snap, tree.info, tree.kids, w)
    else
      var w1 := Prune(tree, w);
      BodyAsks(p, snap, NewGroup(p.root, w1.next), Nil,
               w1.(next := w1.next + 1, room := if w1.room > 0 then w1.room - 1 else 0))
  }

  /** The queue grows by the keys asked for, and by no others, as far as there is room. */
  ghost predicate Scheduling(before: seq<Key>, after: seq<Key>, asked: set<Key>) {
    && before <= after
    && (forall k :: k in after ==> k in before || k in asked)
    && (|after| < MAX_QUEUE ==> forall k :: k in asked ==> k in after)
  }

  lemma {:induction false} SchedulingJoins(a: seq<Key>, b: seq<Key>, c: seq<Key>, one: set<Key>, two: set<Key>)
    requires Scheduling(a, b, one) && Scheduling(b, c, two)
    ensures Scheduling(a, c, one + two)
  {
    forall k | k in b ensures k in c {
      var i :| 0 <= i < |b| && b[i] == k;
      assert c[i] == k;
    }
  }

  lemma {:induction false} ApplySchedules(s: Step, info: Info, offset: nat, w: World)
    requires !s.Call?
    ensures Scheduling(w.queue, Apply(s, info, offset, w).w.queue, if s.Invalidate? then {s.target} else {})
  {
    hide Arenas.Lookup, Arenas.Allocate;
    if s.Invalidate? {
      var after := Apply(s, info, offset, w).w.queue;
      assert after == w.queue || after == w.queue + [s.target];
      if after == w.queue + [s.target] { assert after[|w.queue|] == s.target; }
    }
  }

  lemma {:induction false} StepsSchedule(p: Program, snap: Snapshot, steps: seq<Step>, info: Info, offset: nat,
                                         rest: Forest, w: World)
    requires Ready(p, info.key, steps)
    ensures Scheduling(w.queue, Exec(p, snap, steps, info, offset, rest, w).w.queue,
                       StepsAsk(p, snap, steps, info, offset, rest, w))
    decreases MAX_DEPTH - |p.path(info.key)|, |steps|
  {
    hide Visit, VisitAsks, Apply, Scheduling;
    if steps == [] {
      SchedulesNothing(w.queue);
    } else if steps[0].Call? {
      assert Emits(p, info.key, steps[0].child);
      var v := Visit(p, snap, steps[0].child, rest, w);
      VisitSchedules(p, snap, steps[0].child, rest, w);
      StepsSchedule(p, snap, steps[1..], info, offset, v.rest, v.w);
      SchedulingJoins(w.queue, v.w.queue, Exec(p, snap, steps[1..], info, offset, v.rest, v.w).w.queue,
                      VisitAsks(p, snap, steps[0].child, rest, w),
                          StepsAsk(p, snap, steps[1..], info, offset, v.rest, v.w));
    } else {
      var a := Apply(steps[0], info, offset, w);
      ApplyKeeps(steps[0], info, offset, w);
      ApplySchedules(steps[0], info, offset, w);
      StepsSchedule(p, snap, steps[1..], a.info, a.offset, rest, a.w);
      SchedulingJoins(w.queue, a.w.queue, Exec(p, snap, steps[1..], a.info, a.offset, rest, a.w).w.queue,
                      if steps[0].Invalidate? then {steps[0].target} else {},
                      StepsAsk(p, snap, steps[1..], a.info, a.offset, rest, a.w));
    }
  }

  lemma {:induction false} SchedulesNothing(queue: seq<Key>)
    ensures Scheduling(queue, queue, {})
  {}

  lemma {:induction false} VisitSchedules(p: Program, snap: Snapshot, c: Key, rest: Forest, w: World)
    requires WellFormed(p) && 0 < |p.path(c)| <= MAX_DEPTH
    ensures Scheduling(w.queue, Visit(p, snap, c, rest, w).w.queue, VisitAsks(p, snap, c, rest, w))
    decreases MAX_DEPTH - |p.path(c)| + 1, 0
  {
    hide RunBody, BodyAsks, Scheduling;
    match Admit(c, rest, w)
    case Skip(_, _, w1) => SchedulesNothing(w.queue);
    case Enter(info, kids, _, w1) => BodySchedules(p, snap, info, kids, w1);
  }

  lemma {:induction false} BodySchedules(p: Program, snap: Snapshot, info: Info, kids: Forest, w: World)
    requires WellFormed(p) && |p.path(info.key)| <= MAX_DEPTH
    ensures Scheduling(w.queue, RunBody(p, snap, info, kids, w).w.queue, BodyAsks(p, snap, info, kids, w))
    decreases MAX_DEPTH - |p.path(info.key)|, |p.body(info.key, snap)| + 1
  {
    hide Exec, StepsAsk, Scheduling;
    var steps, w1 := p.body(info.key, snap), w.(ran := w.ran + [info.id]);
    assert Nested(p, info.key, steps);
    StepsSchedule(p, snap, steps, info, 0, kids, w1);
    var r := Exec(p, snap, steps, info, 0, kids, w1);
    PruneGrows(r.rest, r.w);
  }

  /** Over a pass the queue grows by exactly the keys that bodies invalidate, while there is room. */
  lemma {:induction false} PassSchedules(p: Program, snap: Snapshot, tree: Forest, w: World)
    requires WellFormed(p)
    ensures Scheduling(w.queue, Pass(p, snap, tree, w).w.queue, PassAsks(p, snap, tree, w))
  {
    hide RunBody, BodyAsks, Scheduling;
    if tree.Tree? && tree.info.key == p.root {
      BodySchedules(p, snap, tree.info, tree.kids, w);
    } else {
      var w1 := Prune(tree, w);
      PruneGrows(tree, w);
      BodySchedules(p, snap, NewGroup(p.root, w1.next), Nil,
                    w1.(next := w1.next + 1, room := if w1.room > 0 then w1.room - 1 else 0));
    }
  }

  /** The keys that the bodies of one drain invalidate. */
  ghost function DrainAsks(p: Program, tree: Forest, w: World): set<Key>
    requires WellFormed(p)
  {
    var w1 := w.(cells := Publish(w.cells), queue := []);
    PassAsks(p, Snap(w1.cells), Drain(tree, w.queue), w1)
  }

  /** A drain leaves queued exactly the keys that its bodies invalidated, while there is room. */
  lemma {:induction false} DrainSchedules(p: Program, tree: Forest, w: World, k: Key)
    requires WellFormed(p)
    ensures var after := DrainOnce(p, tree, w).w.queue;
            && (k in after ==> k in DrainAsks(p, tree, w))
            && (|after| < MAX_QUEUE ==> (k in after <==> k in DrainAsks(p, tree, w)))
  {
    var w1 := w.(cells := Publish(w.cells), queue := []);
    PassSchedules(p, Snap(w1.cells), Drain(tree, w.queue), w1);
  }

  /** A key that a body invalidates has its group run, or pruned, in the next drain of the same
      recomposition, when there is a next one. */
  lemma {:induction false} AskedIsHandled(p: Program, tree: Forest, w: World, n: nat, k: Key)
    requires WellFormed(p) && Closed(tree) && (tree.Tree? ==> tree.next == Nil) && n > 1 && w.room > 0
    requires var r := DrainOnce(p, tree, w);
             k in DrainAsks(p, tree, w) && |r.w.queue| < MAX_QUEUE && HasKey(r.done, k) && r.w.room > 0
    ensures var r := DrainOnce(p, tree, w); Handled(r.w, Settle(p, tree, w, n).w, FirstWith(r.done, k))
  {
    var r, w1 := DrainOnce(p, tree, w), w.(cells := Publish(w.cells), queue := []);
    DrainSchedules(p, tree, w, k);
    DrainClosed(tree, w.queue);
    DrainRoots(tree, w.queue);
    PassCleans(p, Snap(w1.cells), Drain(tree, w.queue), w1, 0);
    DrainOnceGrows(p, tree, w);
    SettleHandles(p, r.done, r.w, n - 1, k);
  }

  // ------------------------------------------------------------------ how a recomposition ends

  datatype Point = Point(tree: Forest, w: World)

  /** The session after i drains. */
  ghost function After(p: Program, tree: Forest, w: World, i: nat): Point
    requires WellFormed(p)
    decreases i
  {
    if i == 0 then Point(tree, w)
    else
      var r := DrainOnce(p, tree, w);
      After(p, r.done, r.w, i - 1)
  }

  /** Before drain i there is room for a group. */
  ghost predicate Open(p: Program, tree: Forest, w: World, i: nat)
    requires WellFormed(p)
  {
    After(p, tree, w, i).w.room > 0
  }

  /** Drain i schedules more keys. */
  ghost predicate Again(p: Program, tree: Forest, w: World, i: nat)
    requires WellFormed(p)
  {
    After(p, tree, w, i + 1).w.queue != []
  }

  /** The first i drains had room, and each of them scheduled more keys. */
  ghost predicate Busy(p: Program, tree: Forest, w: World, i: nat)
    requires WellFormed(p)
  {
    forall j: nat :: j < i ==> Open(p, tree, w, j) && Again(p, tree, w, j)
  }

  lemma {:induction false} BusyShift(p: Program, tree: Forest, w: World, i: nat)
    requires WellFormed(p)
    ensures var r := DrainOnce(p, tree, w);
            Busy(p, tree, w, i + 1) <==> w.room > 0 && r.w.queue != [] && Busy(p, r.done, r.w, i)
  {
    var r := DrainOnce(p, tree, w);
    assert After(p, tree, w, 0) == Point(tree, w)
        && After(p, tree, w, 1) == After(p, r.done, r.w, 0) == Point(r.done, r.w);
    if Busy(p, tree, w, i + 1) {
      assert Open(p, tree, w, 0) && Again(p, tree, w, 0);
      forall j: nat | j < i ensures Open(p, r.done, r.w, j) && Again(p, r.done, r.w, j) {
        Shift(p, tree, w, j);
        assert Open(p, tree, w, j + 1) && Again(p, tree, w, j + 1);
      }
    }
    if w.room > 0 && r.w.queue != [] && Busy(p, r.done, r.w, i) {
      forall j: nat | j < i + 1 ensures Open(p, tree, w, j) && Again(p, tree, w, j) {
        if j > 0 { Shift(p, tree, w, j - 1); }
      }
    }
  }

  lemma {:induction false} Shift(p: Program, tree: Forest, w: World, i: nat)
    requires WellFormed(p)
    ensures var r := DrainOnce(p, tree, w);
            && After(p, tree, w, i + 1) == After(p, r.done, r.w, i)
            && Open(p, tree, w, i + 1) == Open(p, r.done, r.w, i)
            && Again(p, tree, w, i + 1) == Again(p, r.done, r.w, i)
  {}

  /** Where a drain loop of at most n drains stops: the number of drains that scheduled more keys. */
  ghost predicate StopsAt(p: Program, tree: Forest, w: World, n: nat, i: nat)
    requires WellFormed(p)
  {
    i <= n && Busy(p, tree, w, i) && (i < n ==> !(Open(p, tree, w, i) && Again(p, tree, w, i)))
  }

  lemma {:induction false} SettleStops(p: Program, tree: Forest, w: World, n: nat) returns (i: nat)
    requires WellFormed(p)
    ensures StopsAt(p, tree, w, n, i)
    ensures var o := Settle(p, tree, w, n);
            if i == n then o.verdict == NotConverged && Point(o.tree, o.w) == After(p, tree, w, n)
            else if Open(p, tree, w, i) then o.verdict == Done && Point(o.tree, o.w) == After(p, tree, w, i + 1)
            else o.verdict == Broken
    decreases n
  {
    i := 0;
    var r := DrainOnce(p, tree, w);
    if n > 0 {
      assert After(p, tree, w, 0) == Point(tree, w)
          && After(p, tree, w, 1) == After(p, r.done, r.w, 0) == Point(r.done, r.w);
      if w.room > 0 && r.w.queue != [] {
        i := SettleStops(p, r.done, r.w, n - 1);
        BusyShift(p, tree, w, i);
        Shift(p, tree, w, i);
        i := i + 1;
      }
    }
  }

  lemma {:induction false} StopsOnce(p: Program, tree: Forest, w: World, n: nat, i: nat, j: nat)
    requires WellFormed(p) && StopsAt(p, tree, w, n, i) && StopsAt(p, tree, w, n, j)
    ensures i == j
  {}

  /** A drain loop gives up exactly when each of its n drains had room and scheduled more keys.  It
      breaks exactly when the table is full before one of the drains it comes to, and is done exactly
      when one of them schedules nothing more. */
  lemma {:induction false} VerdictIff(p: Program, tree: Forest, w: World, n: nat)
    requires WellFormed(p)
    ensures var v := Settle(p, tree, w, n).verdict;
            && (v == NotConverged <==> Busy(p, tree, w, n))
            && (v == Broken <==> exists i: nat :: i < n && Busy(p, tree, w, i) && !Open(p, tree, w, i))
            && (v == Done <==>
                  exists i: nat :: i < n && Busy(p, tree, w, i) && Open(p, tree, w, i) && !Again(p, tree, w, i))
  {
    var i := SettleStops(p, tree, w, n);
    forall j: nat | j < n && Busy(p, tree, w, j) && !(Open(p, tree, w, j) && Again(p, tree, w, j)) ensures j == i {
      StopsOnce(p, tree, w, n, i, j);
    }
    if Busy(p, tree, w, n) { StopsOnce(p, tree, w, n, i, n); }
  }

  // ------------------------------------------------------------------ when a recomposition runs bodies

  predicate Idle(s: Status) {
    s.composed && s.w.queue == [] && s.later == [] && forall i :: 0 <= i < |s.w.cells| && s.w.cells[i].inUse ==>
        !s.w.cells[i].dirty
  }

  lemma {:induction false} PassRuns(p: Program, snap: Snapshot, tree: Forest, w: World)
    requires WellFormed(p)
    ensures |Pass(p, snap, tree, w).w.ran| > |w.ran|
  {
    hide Exec, Prune;
    if tree.Tree? && tree.info.key == p.root {
      BodyRuns(p, snap, tree.info, tree.kids, w);
    } else {
      var w1 := Prune(tree, w);
      PruneGrows(tree, w);
      BodyRuns(p, snap, NewGroup(p.root, w1.next), Nil,
               w1.(next := w1.next + 1, room := if w1.room > 0 then w1.room - 1 else 0));
    }
  }

  lemma {:induction false} BodyRuns(p: Program, snap: Snapshot, info: Info, kids: Forest, w: World)
    requires WellFormed(p) && |p.path(info.key)| <= MAX_DEPTH
    ensures |RunBody(p, snap, info, kids, w).w.ran| > |w.ran|
  {
    var steps, w1 := p.body(info.key, snap), w.(ran := w.ran + [info.id]);
    assert Nested(p, info.key, steps);
    ExecGrows(p, snap, steps, info, 0, kids, w1);
    var r := Exec(p, snap, steps, info, 0, kids, w1);
    PruneGrows(r.rest, r.w);
  }

  lemma {:induction false} SettleRuns(p: Program, tree: Forest, w: World, n: nat)
    requires WellFormed(p)
    ensures Settle(p, tree, w, n).w.ran == w.ran <==> n == 0 || w.room == 0
  {
    hide Pass, Drain;
    if n > 0 && w.room > 0 {
      var w1 := w.(cells := Publish(w.cells), queue := []);
      var r := DrainOnce(p, tree, w);
      PassRuns(p, Snap(w1.cells), Drain(tree, w.queue), w1);
      DrainOnceGrows(p, tree, w);
      if r.w.queue != [] { SettleGrows(p, r.done, r.w, n - 1); }
    }
  }

  lemma {:induction false} NothingToTake(queue: seq<Key>, later: seq<Key>)
    ensures Transfer(queue, later).now == [] <==> queue == [] && later == []
  {
    TransferConserves(queue, later);
    if Transfer(queue, later).now == [] {
      assert |multiset(queue) + multiset(later)| == |queue| + |later|;
    }
  }

  /** An idle session is left as it is; any other session runs the root, unless the table is full or no
      drain is allowed. */
  lemma {:induction false} RunsUnlessIdle(p: Program, s: Status, n: nat)
    requires WellFormed(p)
    ensures Idle(s) ==> Recomposition(p, s, n) == Recomposed(Done, s)
    ensures Recomposition(p, s, n).after.w.ran == s.w.ran <==> Idle(s) || n == 0 || s.w.room == 0
  {
    hide Settle;
    NothingToTake(s.w.queue, s.later);
    SettleRuns(p, s.tree, s.w.(queue := Transfer(s.w.queue, s.later).now), n);
  }

  /** A group whose body runs in a drain is the root, was dirty before, is new, or is, or is below or above,
      the first group with a queued key. */
  lemma {:induction false} DrainRunsOnly(p: Program, tree: Forest, w: World, id: nat)
    requires WellFormed(p) && (tree.Tree? ==> tree.next == Nil)
    ensures var r := DrainOnce(p, tree, w);
            Times(r.w.ran, id) > Times(w.ran, id) ==>
              || (tree.Tree? && tree.info.id == id) || DirtyIn(tree, id) || Concerned(tree, w.queue, id)
              || w.next <= id < r.w.next
  {
    hide Pass, Drain, X.PassRuns, DirtyIn, Concerned, Times;
    var w1, t := w.(cells := Publish(w.cells), queue := []), Drain(tree, w.queue);
    DrainRoots(tree, w.queue);
    DrainKeeps(tree, w.queue);
    X.PassCounted(p, Snap(w1.cells), t, w1, id);
    X.PassNeeded(p, Snap(w1.cells), t, w1, id);
    DrainOnly(tree, w.queue, id);
  }

  /** A recomposition that gives up leaves the keys of its last drain queued, so that the next one goes on. */
  lemma {:induction false} UnfinishedKeeps(p: Program, s: Status, n: nat)
    requires WellFormed(p) && n > 0 && Recomposition(p, s, n).verdict == NotConverged
    ensures var r, w := Recomposition(p, s, n), s.w.(queue := Transfer(s.w.queue, s.later).now);
            && r.after.w == After(p, s.tree, w, n).w && r.after.w.queue != []
            && r.after.later == Transfer(s.w.queue, s.later).later && !Idle(r.after)
  {
    hide DrainOnce, After;
    var w := s.w.(queue := Transfer(s.w.queue, s.later).now);
    var i := SettleStops(p, s.tree, w, n);
    assert Again(p, s.tree, w, n - 1);
  }

  // ------------------------------------------------------------------ publication

  lemma {:induction false} SettlePublishes(p: Program, tree: Forest, w: World, n: nat)
    requires WellFormed(p) && n > 0
    ensures OnlyWatchers(Publish(w.cells), Settle(p, tree, w, n).w.cells)
    decreases n
  {
    if w.room > 0 {
      var r := DrainOnce(p, tree, w);
      DrainOnceGrows(p, tree, w);
      if r.w.queue != [] && n > 1 {
        PublishPublished(w.cells);
        PublishedWatchers(Publish(w.cells), r.w.cells);
        PublishPublished(r.w.cells);
        SettlePublishes(p, r.done, r.w, n - 1);
      }
    }
  }

  /** Whatever becomes of it, a recomposition that may drain at all shows, for every cell, the value
      staged last. */
  lemma {:induction false} RecompositionPublishes(p: Program, s: Status, n: nat, c: CellId)
    requires WellFormed(p) && n > 0 && Find(s.w.cells, c) < |s.w.cells|
    ensures var cell, after := s.w.cells[Find(s.w.cells, c)], Recomposition(p, s, n).after.w.cells;
            && AllPublished(after)
            && c in Snap(after) && Snap(after)[c] == (if cell.dirty then cell.back else cell.front)
  {
    var w, after := s.w.(queue := Transfer(s.w.queue, s.later).now), Recomposition(p, s, n).after.w.cells;
    PublishPublished(s.w.cells);
    if !(s.composed && w.queue == [] && AllPublished(w.cells)) {
      SettlePublishes(p, s.tree, w, n);
      PublishedWatchers(Publish(s.w.cells), after);
    }
    NamesOnly(s.w.cells, Publish(s.w.cells), c);
    WatchersOnly(Publish(s.w.cells), after, c);
    SnapAt(after, c);
  }
}

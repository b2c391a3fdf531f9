/** Destructors over whole runs of frames: every one that was attached is on record or called,
    or was refused or displaced, and none is displaced when a body attaches one instance only. */
module Accounts {
  import opened Basics
  import opened Trees
  import opened State
  import opened Programs
  import opened Passes
  import opened Flags
  import opened Census
  import opened Incremental
  import opened Frames
  import opened Ledgers
  import opened Attachments
  import Hooks
  import Lifetimes
  import Marks
  import Pinning
  import Watchers

  /** The tree is where the program says, identities are distinct, and the hooks under k are those
      in the ledger and belong to the group that has k. */
  ghost predicate Recorded(p: Program, tree: Forest, w: World, k: Key, l: Ledger) {
    Placed(p, tree) && Apart(tree, w) && Sane(w, k, Holder(tree, k)) && On(w, k, l)
  }

  /** A session that has composed nothing has no destructors. */
  lemma {:induction false} StartIsRecorded(p: Program, w: World, k: Key)
    requires w.hooks == [] && w.destroyed == []
    ensures Recorded(p, Nil, w, k, Ledger([], [], [], [], []))
  {}

  lemma {:induction false} RecordedSame(p: Program, tree: Forest, w: World, w': World, k: Key, l: Ledger)
    requires Recorded(p, tree, w, k, l)
    requires w'.hooks == w.hooks && w'.destroyed == w.destroyed && w'.next == w.next
    ensures Recorded(p, tree, w', k, l)
  {
    SaneSame(w, w', k, Holder(tree, k), l);
    forall id: nat ensures Count(tree, id) <= if id < w'.next then 1 else 0 {
      assert Count(tree, id) <= if id < w.next then 1 else 0;
    }
  }

  // ------------------------------------------------------------------ one drain

  lemma {:induction false} HolderMark(f: Forest, m: Key, k: Key)
    ensures Holder(Mark(f, m), k) == Holder(f, k) && Holder(MarkAll(f), k) == Holder(f, k)
  {
    if f.Tree? {
      HolderMark(f.kids, m, k);
      HolderMark(f.next, m, k);
    }
  }

  lemma {:induction false} HolderDrain(f: Forest, queue: seq<Key>, k: Key)
    ensures Holder(Drain(f, queue), k) == Holder(f, k)
    decreases |queue|
  {
    if queue != [] {
      HolderMark(f, queue[|queue| - 1], k);
      HolderDrain(Mark(f, queue[|queue| - 1]), queue[..|queue| - 1], k);
    }
  }

  lemma {:induction false} PlacedDrain(p: Program, f: Forest, queue: seq<Key>)
    requires Keyed(p) && Placed(p, f)
    ensures Placed(p, Drain(f, queue))
  {
    if f == Nil {
      DrainNil(queue);
    } else {
      UntouchedNone(p, f.kids);
      Marks.DrainSilences(p, f, queue, []);
    }
  }

  /** Marking moves no group. */
  lemma {:induction false} DrainRecorded(p: Program, tree: Forest, w: World, queue: seq<Key>, k: Key, l: Ledger)
    requires Keyed(p) && Recorded(p, tree, w, k, l)
    ensures Recorded(p, Drain(tree, queue), w, k, l)
  {
    PlacedDrain(p, tree, queue);
    HolderDrain(tree, queue, k);
    forall id: nat ensures Count(Drain(tree, queue), id) <= if id < w.next then 1 else 0 {
      Lifetimes.CountDrain(tree, queue, id);
      assert Count(tree, id) <= if id < w.next then 1 else 0;
    }
  }

  lemma {:induction false} ApartPass(p: Program, snap: Snapshot, tree: Forest, w: World)
    requires WellFormed(p) && Placed(p, tree) && Apart(tree, w)
    ensures var b := Pass(p, snap, tree, w); Apart(b.done, b.w)
  {
    var b := Pass(p, snap, tree, w);
    PassGrows(p, snap, tree, w);
    forall id: nat ensures Count(b.done, id) <= if id < b.w.next then 1 else 0 {
      PassBalance(p, snap, tree, w, id);
      Pinning.TimesGrow(w.pruned, b.w.pruned, id);
      assert Count(tree, id) <= if id < w.next then 1 else 0;
    }
  }

  ghost function DrainLedger(p: Program, tree: Forest, w: World, k: Key, l: Ledger): Ledger
    requires WellFormed(p)
  {
    var w1 := w.(cells := Publish(w.cells), queue := []);
    PassLedger(p, Snap(w1.cells), Drain(tree, w.queue), w1, k, l)
  }

  lemma {:induction false} DrainAccounts(p: Program, tree: Forest, w: World, k: Key, l: Ledger)
    requires Keyed(p) && Recorded(p, tree, w, k, l)
    ensures var r := DrainOnce(p, tree, w); Recorded(p, r.done, r.w, k, DrainLedger(p, tree, w, k, l))
  {
    var t, w1 := Drain(tree, w.queue), w.(cells := Publish(w.cells), queue := []);
    DrainRecorded(p, tree, w, w.queue, k, l);
    RecordedSame(p, t, w, w1, k, l);
    PassHooked(p, Snap(w1.cells), t, w1, k, l);
    ApartPass(p, Snap(w1.cells), t, w1);
  }

  // ------------------------------------------------------------------ frames

  ghost function SettleLedger(p: Program, tree: Forest, w: World, n: nat, k: Key, l: Ledger): Ledger
    requires WellFormed(p)
    decreases n
  {
    if n == 0 || w.room == 0 then l
    else
      var r := DrainOnce(p, tree, w);
      var now := DrainLedger(p, tree, w, k, l);
      if r.w.queue == [] then now else SettleLedger(p, r.done, r.w, n - 1, k, now)
  }

  lemma {:induction false} SettleAccounts(p: Program, tree: Forest, w: World, n: nat, k: Key, l: Ledger)
    requires Keyed(p) && Recorded(p, tree, w, k, l)
    ensures var o := Settle(p, tree, w, n); Recorded(p, o.tree, o.w, k, SettleLedger(p, tree, w, n, k, l))
    decreases n
  {
    if n > 0 && w.room == 0 {
      DrainRecorded(p, tree, w, w.queue, k, l);
      RecordedSame(p, Drain(tree, w.queue), w, w.(cells := Publish(w.cells), queue := []), k, l);
    } else if n > 0 {
      var r := DrainOnce(p, tree, w);
      DrainAccounts(p, tree, w, k, l);
      if r.w.queue != [] { SettleAccounts(p, r.done, r.w, n - 1, k, DrainLedger(p, tree, w, k, l)); }
    }
  }

  ghost function RecompositionLedger(p: Program, s: Status, n: nat, k: Key, l: Ledger): Ledger
    requires WellFormed(p)
  {
    var w := s.w.(queue := Transfer(s.w.queue, s.later).now);
    if s.composed && w.queue == [] && AllPublished(w.cells) then l else SettleLedger(p, s.tree, w, n, k, l)
  }

  lemma {:induction false} RecompositionAccounts(p: Program, s: Status, n: nat, k: Key, l: Ledger)
    requires Keyed(p) && Recorded(p, s.tree, s.w, k, l)
    ensures var s' := Recomposition(p, s, n).after; Recorded(p, s'.tree, s'.w, k, RecompositionLedger(p, s, n, k, l))
  {
    var w, s' := s.w.(queue := Transfer(s.w.queue, s.later).now), Recomposition(p, s, n).after;
    RecordedSame(p, s.tree, s.w, w, k, l);
    if !(s.composed && w.queue == [] && AllPublished(w.cells)) {
      SettleAccounts(p, s.tree, w, n, k, l);
      RecordedSame(p, s'.tree, Settle(p, s.tree, w, n).w, s'.w, k, RecompositionLedger(p, s, n, k, l));
    }
  }

  lemma {:induction false} ActsLeaveHooks(s: Status, acts: seq<Act>)
    ensures var s' := PerformAll(s, acts);
            s'.tree == s.tree && s'.w.hooks == s.w.hooks && s'.w.destroyed == s.w.destroyed && s'.w.next == s.w.next
    decreases |acts|
  {
    if acts != [] {
      ActsLeaveHooks(Perform(s, acts[0]), acts[1..]);
    }
  }

  /** What a run of frames does to the destructors of a key. */
  ghost function RunLedger(p: Program, s: Status, frames: seq<seq<Act>>, n: nat, k: Key, l: Ledger): Ledger
    requires WellFormed(p)
    decreases |frames|
  {
    if frames == [] then l
    else
      var s1 := PerformAll(s, frames[0]);
      var r := Recomposition(p, s1, n);
      var now := RecompositionLedger(p, s1, n, k, l);
      if r.verdict == Broken then now else RunLedger(p, r.after, frames[1..], n, k, now)
  }

  /** Over any run of frames the hooks under a key, and the destructor calls made for it, are those
      that the ledger of its executions and prunes gives, and every destructor that was attached is on
      record, called, refused or displaced, exactly one of these. */
  lemma {:induction false} RunAccounts(p: Program, s: Status, frames: seq<seq<Act>>, n: nat, k: Key, l: Ledger)
    requires Keyed(p) && Recorded(p, s.tree, s.w, k, l)
    ensures var s' := Lifetimes.End(p, s, frames, n); Recorded(p, s'.tree, s'.w, k, RunLedger(p, s, frames, n, k, l))
    decreases |frames|
  {
    if frames != [] {
      var s1 := PerformAll(s, frames[0]);
      var r := Recomposition(p, s1, n);
      ActsLeaveHooks(s, frames[0]);
      RecordedSame(p, s.tree, s.w, s1.w, k, l);
      RecompositionAccounts(p, s1, n, k, l);
      if r.verdict != Broken {
        RunAccounts(p, r.after, frames[1..], n, k, RecompositionLedger(p, s1, n, k, l));
        Lifetimes.EndOn(p, s, frames, n);
      }
    }
  }

  // ------------------------------------------------------------------ bodies that attach one instance

  /** The instances that the steps of a body attach, in order. */
  function Owns(steps: seq<Step>): seq<nat> {
    if steps == [] then []
    else if steps[0].Own? then [steps[0].instance] + Owns(steps[1..])
    else Owns(steps[1..])
  }

  predicate Alike(xs: seq<nat>, x: nat) {
    forall i :: 0 <= i < |xs| ==> xs[i] == x
  }

  /** Whatever group k reads, its body attaches instance x, if anything. */
  ghost predicate Lone(p: Program, k: Key, x: nat) {
    forall f {:trigger p.body(k, f)} :: Alike(Owns(p.body(k, f)), x)
  }

  predicate Bears(l: Ledger, x: nat) {
    forall i {:trigger l.on[i]} :: 0 <= i < |l.on| ==> l.on[i].instance == x
  }

  /** Nothing was displaced from l to l'. */
  predicate Spared(l: Ledger, l': Ledger, x: nat) {
    Bears(l', x) && l'.displaced == l.displaced
  }

  lemma {:induction false} AlikeTail(steps: seq<Step>, x: nat)
    requires steps != [] && Alike(Owns(steps), x)
    ensures Alike(Owns(steps[1..]), x) && (steps[0].Own? ==> steps[0].instance == x)
  {
    if steps[0].Own? {
      assert Owns(steps)[0] == steps[0].instance;
      assert Owns(steps)[1..] == Owns(steps[1..]);
    }
  }

  lemma {:induction false} KeptBears(hooks: seq<Hooks.Hook>, id: nat, x: nat)
    requires forall i {:trigger hooks[i]} :: 0 <= i < |hooks| ==> hooks[i].instance == x
    ensures forall i {:trigger Hooks.Kept(hooks, id)[i]} :: 0 <= i < |Hooks.Kept(hooks, id)| ==>
            Hooks.Kept(hooks, id)[i].instance == x
    decreases |hooks|
  {
    if hooks != [] {
      assert hooks[|hooks| - 1].instance == x;
      KeptBears(hooks[..|hooks| - 1], id, x);
    }
  }

  lemma {:induction false} StepSpares(s: Step, info: Info, offset: nat, w: World, l: Ledger, x: nat)
    requires Bears(l, x) && (s.Own? ==> s.instance == x)
    ensures Spared(l, StepLedger(s, info, offset, w, l), x)
  {
    hide Pinning.Resizes;
    if s.Remember? { KeptBears(l.on, info.id, x); }
    if s.Own? && !info.mount && l.on != [] { assert l.on[0].instance == x; }
  }

  lemma {:induction false} StepsSpare(p: Program, snap: Snapshot, steps: seq<Step>, info: Info, offset: nat,
                                      rest: Forest, w: World,
                                      k: Key, l: Ledger, x: nat)
    requires Ready(p, info.key, steps) && Lone(p, k, x) && Bears(l, x) && (info.key == k ==> Alike(Owns(steps), x))
    ensures Spared(l, StepsLedger(p, snap, steps, info, offset, rest, w, k, l), x)
    decreases MAX_DEPTH - |p.path(info.key)|, |steps|
  {
    hide Visit, Apply, VisitLedger, StepLedger;
    if steps != [] {
      if info.key == k { AlikeTail(steps, x); }
      if steps[0].Call? {
        assert Emits(p, info.key, steps[0].child);
        var v := Visit(p, snap, steps[0].child, rest, w);
        VisitSpares(p, snap, steps[0].child, rest, w, k, l, x);
        StepsSpare(p, snap, steps[1..], info, offset, v.rest, v.w, k,
            VisitLedger(p, snap, steps[0].child, rest, w, k, l), x);
      } else {
        var a := Apply(steps[0], info, offset, w);
        ApplyKeeps(steps[0], info, offset, w);
        if info.key == k { StepSpares(steps[0], info, offset, w, l, x); }
        StepsSpare(p, snap, steps[1..], a.info, a.offset, rest, a.w, k,
                   if info.key == k then StepLedger(steps[0], info, offset, w, l) else l, x);
      }
    }
  }

  lemma {:induction false} VisitSpares(p: Program, snap: Snapshot, c: Key, rest: Forest, w: World, k: Key, l: Ledger,
                                       x: nat)
    requires WellFormed(p) && 0 < |p.path(c)| <= MAX_DEPTH && Lone(p, k, x) && Bears(l, x)
    ensures Spared(l, VisitLedger(p, snap, c, rest, w, k, l), x)
    decreases MAX_DEPTH - |p.path(c)| + 1, 0
  {
    hide BodyLedger;
    match Admit(c, rest, w)
    case Skip(_, _, _) =>
    case Enter(info, kids, _, w1) => BodySpares(p, snap, info, kids, w1, k, l, x);
  }

  lemma {:induction false} BodySpares(p: Program, snap: Snapshot, info: Info, kids: Forest, w: World, k: Key,
                                      l: Ledger, x: nat)
    requires WellFormed(p) && |p.path(info.key)| <= MAX_DEPTH && Lone(p, k, x) && Bears(l, x)
    ensures Spared(l, BodyLedger(p, snap, info, kids, w, k, l), x)
    decreases MAX_DEPTH - |p.path(info.key)|, |p.body(info.key, snap)| + 1
  {
    hide StepsLedger, Exec;
    var steps, w1 := p.body(info.key, snap), w.(ran := w.ran + [info.id]);
    StepsSpare(p, snap, steps, info, 0, kids, w1, k, l, x);
    PruneSpares(Exec(p, snap, steps, info, 0, kids, w1).rest, k, StepsLedger(p, snap, steps, info, 0, kids, w1, k, l),
        x);
  }

  lemma {:induction false} PruneSpares(f: Forest, k: Key, l: Ledger, x: nat)
    requires Bears(l, x)
    ensures Spared(l, Pruned(f, k, l), x)
  {
    match Holder(f, k)
    case None =>
    case Some(id) => KeptBears(l.on, id, x);
  }

  lemma {:induction false} DrainSpares(p: Program, tree: Forest, w: World, k: Key, l: Ledger, x: nat)
    requires WellFormed(p) && Lone(p, k, x) && Bears(l, x)
    ensures Spared(l, DrainLedger(p, tree, w, k, l), x)
  {
    hide BodyLedger, Pruned;
    var t, w1 := Drain(tree, w.queue), w.(cells := Publish(w.cells), queue := []);
    if t.Tree? && t.info.key == p.root {
      BodySpares(p, Snap(w1.cells), t.info, t.kids, w1, k, l, x);
    } else {
      var w2 := Prune(t, w1);
      PruneSpares(t, k, l, x);
      BodySpares(p, Snap(w1.cells), NewGroup(p.root, w2.next), Nil,
                 w2.(next := w2.next + 1, room := if w2.room > 0 then w2.room - 1 else 0), k, Pruned(t, k, l), x);
    }
  }

  lemma {:induction false} SettleSpares(p: Program, tree: Forest, w: World, n: nat, k: Key, l: Ledger, x: nat)
    requires WellFormed(p) && Lone(p, k, x) && Bears(l, x)
    ensures Spared(l, SettleLedger(p, tree, w, n, k, l), x)
    decreases n
  {
    hide DrainLedger, DrainOnce;
    if n > 0 && w.room > 0 {
      var r := DrainOnce(p, tree, w);
      DrainSpares(p, tree, w, k, l, x);
      if r.w.queue != [] { SettleSpares(p, r.done, r.w, n - 1, k, DrainLedger(p, tree, w, k, l), x); }
    }
  }

  lemma {:induction false} RunSpares(p: Program, s: Status, frames: seq<seq<Act>>, n: nat, k: Key, l: Ledger, x: nat)
    requires WellFormed(p) && Lone(p, k, x) && Bears(l, x)
    ensures Spared(l, RunLedger(p, s, frames, n, k, l), x)
    decreases |frames|
  {
    hide SettleLedger, Recomposition;
    if frames != [] {
      var s1 := PerformAll(s, frames[0]);
      var r := Recomposition(p, s1, n);
      SettleSpares(p, s1.tree, s1.w.(queue := Transfer(s1.w.queue, s1.later).now), n, k, l, x);
      if r.verdict != Broken { RunSpares(p, r.after, frames[1..], n, k, RecompositionLedger(p, s1, n, k, l), x); }
    }
  }

  /** A composable that attaches one instance: over any run from an empty session every destructor
      that it attached is on record for the group that has its key, or was called, or was refused for
      want of room, and exactly one of these. */
  lemma {:induction false} AttachedIsCalledOnce(p: Program, w: World, frames: seq<seq<Act>>, n: nat, k: Key, x: nat)
    requires Keyed(p) && Lone(p, k, x) && w.hooks == [] && w.destroyed == []
    ensures var l := RunLedger(p, Status(Nil, w, [], false), frames, n, k, Ledger([], [], [], [], []));
            var s' := Lifetimes.End(p, Status(Nil, w, [], false), frames, n);
            && multiset(l.made) == multiset(HooksOf(s'.w.hooks, k)) + multiset(HooksOf(s'.w.destroyed, k))
                  + multiset(l.refused)
            && Private(s'.w.hooks, k, Holder(s'.tree, k))
  {
    var s, empty := Status(Nil, w, [], false), Ledger([], [], [], [], []);
    StartIsRecorded(p, w, k);
    RunAccounts(p, s, frames, n, k, empty);
    RunSpares(p, s, frames, n, k, empty, x);
  }

  // ------------------------------------------------------------------ bodies that attach several

  /** The ledger after a group that runs again has refreshed the instances xs. */
  function Refreshes(l: Ledger, k: Key, id: nat, xs: seq<nat>): Ledger
    requires l.on != []
    decreases |xs|
  {
    if xs == [] then l else Refreshes(Rewritten(l, Hooks.Hook(k, id, xs[0], true)), k, id, xs[1..])
  }

  /** A body that runs again and does not start over refreshes its instances one by one, whatever it
      calls in between. */
  lemma {:induction false} RerunRefreshes(p: Program, snap: Snapshot, steps: seq<Step>, info: Info, offset: nat,
                                          rest: Forest, w: World,
                                          l: Ledger)
    requires Watchers.Proper(p, info.key, steps) && Watchers.Conform(p, info.key, rest)
    requires info.id < w.next && Apart(rest, w) && Count(rest, info.id) == 0
    requires Sane(w, info.key, Some(info.id)) && On(w, info.key, l)
    requires l.on != [] && !Exec(p, snap, steps, info, offset, rest, w).info.mount
    ensures StepsLedger(p, snap, steps, info, offset, rest, w, info.key, l) ==
            Refreshes(l, info.key, info.id, Owns(steps))
    decreases |steps|
  {
    hide Visit, Apply, VisitLedger, On, Sane, StepLedger, Rewritten;
    if steps != [] {
      if steps[0].Call? {
        var c := steps[0].child;
        assert Emits(p, info.key, c);
        ChildBeside(p, snap, info, c, rest, w, l);
        var v := Visit(p, snap, c, rest, w);
        RerunRefreshes(p, snap, steps[1..], info, offset, v.rest, v.w, l);
      } else {
        var a := Apply(steps[0], info, offset, w);
        ApplyKeeps(steps[0], info, offset, w);
        if a.info.mount { MountLasts(p, snap, steps[1..], a.info, a.offset, rest, a.w); }
        OwnStep(steps[0], info, offset, w, l);
        RerunStep(steps[0], info, offset, w, l);
        RerunRefreshes(p, snap, steps[1..], a.info, a.offset, rest, a.w, StepLedger(steps[0], info, offset, w, l));
        if steps[0].Own? { assert Owns(steps)[1..] == Owns(steps[1..]); }
      }
    }
  }

  /** A group that mounts, or starts over, is mounting until its body ends. */
  lemma {:induction false} MountLasts(p: Program, snap: Snapshot, steps: seq<Step>, info: Info, offset: nat,
                                      rest: Forest, w: World)
    requires Ready(p, info.key, steps) && info.mount
    ensures Exec(p, snap, steps, info, offset, rest, w).info.mount
    decreases |steps|
  {
    hide Visit, Apply;
    if steps != [] {
      if steps[0].Call? {
        assert Emits(p, info.key, steps[0].child);
        var v := Visit(p, snap, steps[0].child, rest, w);
        MountLasts(p, snap, steps[1..], info, offset, v.rest, v.w);
      } else {
        var a := Apply(steps[0], info, offset, w);
        ApplyKeeps(steps[0], info, offset, w);
        StaysMounting(steps[0], info, offset, w);
        MountLasts(p, snap, steps[1..], a.info, a.offset, rest, a.w);
      }
    }
  }

  lemma {:induction false} StaysMounting(s: Step, info: Info, offset: nat, w: World)
    requires !s.Call? && info.mount
    ensures Apply(s, info, offset, w).info.mount
  {}

  lemma {:induction false} RerunStep(s: Step, info: Info, offset: nat, w: World, l: Ledger)
    requires !s.Call? && l.on != [] && !Apply(s, info, offset, w).info.mount
    ensures StepLedger(s, info, offset, w, l).on != []
    ensures StepLedger(s, info, offset, w, l) ==
            if s.Own? then Rewritten(l, Hooks.Hook(info.key, info.id, s.instance, true)) else l
  {
    if info.mount { StaysMounting(s, info, offset, w); }
  }

  lemma {:induction false} RefreshesIff(l: Ledger, k: Key, id: nat, xs: seq<nat>)
    requires l.on != []
    ensures |Refreshes(l, k, id, xs).displaced| >= |l.displaced|
    ensures Refreshes(l, k, id, xs).displaced == l.displaced <==> Alike(xs, l.on[0].instance)
    decreases |xs|
  {
    if xs != [] {
      var l1 := Rewritten(l, Hooks.Hook(k, id, xs[0], true));
      RefreshesIff(l1, k, id, xs[1..]);
      if xs[0] == l.on[0].instance {
        assert Alike(xs[1..], xs[0]) ==> Alike(xs, xs[0]) by {
          if Alike(xs[1..], xs[0]) { assert forall i :: 0 < i < |xs| ==> xs[i] == xs[1..][i - 1]; }
        }
      } else {
        assert |l1.displaced| == |l.displaced| + 1;
      }
    }
  }

  /** A group has the instances of its body on record and runs again without starting over.  No
      destructor is displaced if and only if all those instances are one and the same; of distinct
      ones there may be only one. */
  lemma {:induction false} RerunKeepsIff(p: Program, snap: Snapshot, info: Info, kids: Forest, w: World, l: Ledger)
    requires Keyed(p) && |p.path(info.key)| <= MAX_DEPTH && Watchers.Conform(p, info.key, kids)
    requires info.id < w.next && Apart(kids, w) && Count(kids, info.id) == 0
    requires Sane(w, info.key, Some(info.id)) && On(w, info.key, l)
    requires Instances(l.on, info.id) == Owns(p.body(info.key, snap)) != []
    requires !Exec(p, snap, p.body(info.key, snap), info, 0, kids, w).info.mount
    ensures var xs, l' := Owns(p.body(info.key, snap)),
            StepsLedger(p, snap, p.body(info.key, snap), info, 0, kids, w, info.key, l);
            && (l'.displaced == l.displaced <==> Alike(xs, xs[0]))
            && (NoTwice(xs) ==> (l'.displaced == l.displaced <==> |xs| == 1))
  {
    var steps := p.body(info.key, snap);
    var xs := Owns(steps);
    RerunRefreshes(p, snap, steps, info, 0, kids, w, l);
    HooksOfHolder(w.hooks, info.key, info.id);
    FirstInstance(l.on, info.id);
    RefreshesIff(l, info.key, info.id, xs);
    if |xs| > 1 { assert NoTwice(xs) ==> xs[0] != xs[1]; }
  }

  lemma {:induction false} FirstInstance(hooks: seq<Hooks.Hook>, id: nat)
    requires forall i {:trigger hooks[i]} :: 0 <= i < |hooks| ==> hooks[i].groupId == id
    ensures |Instances(hooks, id)| == |hooks|
    ensures hooks != [] ==> Instances(hooks, id)[0] == hooks[0].instance
    decreases |hooks|
  {
    if hooks != [] {
      assert hooks[|hooks| - 1].groupId == id;
      FirstInstance(hooks[..|hooks| - 1], id);
    }
  }
}

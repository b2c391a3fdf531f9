/** The executions of one group over a pass: what its body asked for and what it got. */
module Executions {
  import opened Basics
  import opened Trees
  import opened State
  import opened Programs
  import opened Passes
  import opened Flags
  import opened Census

  /** One run of a body: the sizes of its slot requests and the addresses they returned, whether
      the group was mounting when it ended, and if so from which slot offset on. */
  datatype Execution = Execution(sizes: seq<nat>, at: seq<Option<nat>>, mounting: bool, start: nat)

  /** The sizes that the steps of a body ask for, in order. */
  function Sizes(steps: seq<Step>): seq<nat> {
    if steps == [] then []
    else if steps[0].Remember? then [steps[0].size] + Sizes(steps[1..])
    else Sizes(steps[1..])
  }

  predicate Granted(at: seq<Option<nat>>) {
    forall i :: 0 <= i < |at| ==> at[i].Some?
  }

  predicate Denied(at: seq<Option<nat>>) {
    forall i :: 0 <= i < |at| ==> at[i].None?
  }

  /** What the slot requests among the steps return, whatever the children called in between do. */
  ghost function Answers(p: Program, snap: Snapshot, steps: seq<Step>, info: Info, offset: nat, rest: Forest,
                         w: World): seq<Option<nat>>
    requires Ready(p, info.key, steps)
    decreases |steps|
  {
    if steps == [] then []
    else if steps[0].Call? then
      assert Emits(p, info.key, steps[0].child);
      var v := Visit(p, snap, steps[0].child, rest, w);
      Answers(p, snap, steps[1..], info, offset, v.rest, v.w)
    else
      var a := Apply(steps[0], info, offset, w);
      assert a.info.key == info.key by { ApplyKeeps(steps[0], info, offset, w); }
      var later := Answers(p, snap, steps[1..], a.info, a.offset, rest, a.w);
      if steps[0].Remember? then [a.at] + later else later
  }

  /** The slot offset at which the group began to mount, if it did. */
  ghost function Began(p: Program, snap: Snapshot, steps: seq<Step>, info: Info, offset: nat, rest: Forest,
                       w: World): nat
    requires Ready(p, info.key, steps)
    decreases |steps|
  {
    if info.mount || steps == [] then offset
    else if steps[0].Call? then
      assert Emits(p, info.key, steps[0].child);
      var v := Visit(p, snap, steps[0].child, rest, w);
      Began(p, snap, steps[1..], info, offset, v.rest, v.w)
    else
      var a := Apply(steps[0], info, offset, w);
      assert a.info.key == info.key by { ApplyKeeps(steps[0], info, offset, w); }
      if a.info.mount then offset else Began(p, snap, steps[1..], a.info, a.offset, rest, a.w)
  }

  // ------------------------------------------------------------------ all executions of a group

  /** The executions of group id in the children that the steps call, in order. */
  ghost function StepsRuns(p: Program, snap: Snapshot, steps: seq<Step>, info: Info, offset: nat, rest: Forest,
                           w: World, id: nat): seq<Execution>
    requires Ready(p, info.key, steps)
    decreases MAX_DEPTH - |p.path(info.key)|, |steps|
  {
    if steps == [] then []
    else if steps[0].Call? then
      assert Emits(p, info.key, steps[0].child);
      var v := Visit(p, snap, steps[0].child, rest, w);
      VisitRuns(p, snap, steps[0].child, rest, w, id) + StepsRuns(p, snap, steps[1..], info, offset, v.rest, v.w, id)
    else
      var a := Apply(steps[0], info, offset, w);
      assert a.info.key == info.key by { ApplyKeeps(steps[0], info, offset, w); }
      StepsRuns(p, snap, steps[1..], a.info, a.offset, rest, a.w, id)
  }

  ghost function VisitRuns(p: Program, snap: Snapshot, k: Key, rest: Forest, w: World, id: nat): seq<Execution>
    requires WellFormed(p) && 0 < |p.path(k)| <= MAX_DEPTH
    decreases MAX_DEPTH - |p.path(k)| + 1, 0
  {
    match Admit(k, rest, w)
    case Skip(_, _, _) => []
    case Enter(info, kids, _, w') => BodyRuns(p, snap, info, kids, w', id)
  }

  /** The executions of group id when the body of the group of info runs. */
  ghost function BodyRuns(p: Program, snap: Snapshot, info: Info, kids: Forest, w: World, id: nat): seq<Execution>
    requires WellFormed(p) && |p.path(info.key)| <= MAX_DEPTH
    decreases MAX_DEPTH - |p.path(info.key)|, |p.body(info.key, snap)| + 1
  {
    assert Nested(p, info.key, p.body(info.key, snap));
    var w1 := w.(ran := w.ran + [info.id]);
    (if info.id == id then [Executed(p, snap, info, kids, w1)] else [])
      + StepsRuns(p, snap, p.body(info.key, snap), info, 0, kids, w1, id)
  }

  /** This execution of the body of the group of info. */
  ghost function Executed(p: Program, snap: Snapshot, info: Info, kids: Forest, w: World): Execution
    requires Ready(p, info.key, p.body(info.key, snap))
  {
    var steps := p.body(info.key, snap);
    Execution(Sizes(steps),
              Answers(p, snap, steps, info, 0, kids, w),
              Exec(p, snap, steps, info, 0, kids, w).info.mount,
              Began(p, snap, steps, info, 0, kids, w))
  }

  ghost function PassRuns(p: Program, snap: Snapshot, tree: Forest, w: World, id: nat): seq<Execution>
    requires WellFormed(p)
  {
    if tree.Tree? && tree.info.key == p.root then BodyRuns(p, snap, tree.info, tree.kids, w, id)
    else
      var w1 := Prune(tree, w);
      var w2 := w1.(next := w1.next + 1, room := if w1.room > 0 then w1.room - 1 else 0);
      BodyRuns(p, snap, NewGroup(p.root, w1.next), Nil, w2, id)
  }

  // ------------------------------------------------------------------ the executions are those on record

  lemma {:induction false} TimesMore(log: seq<nat>, x: nat, id: nat)
    ensures Times(log + [x], id) == Times(log, id) + (if x == id then 1 else 0)
  {
    assert (log + [x])[..|log|] == log;
  }

  lemma {:induction false} StepsCounted(p: Program, snap: Snapshot, steps: seq<Step>, info: Info, offset: nat,
                                        rest: Forest, w: World, id: nat)
    requires Ready(p, info.key, steps)
    ensures Times(Exec(p, snap, steps, info, offset, rest, w).w.ran, id) ==
            Times(w.ran, id) + |StepsRuns(p, snap, steps, info, offset, rest, w, id)|
    decreases MAX_DEPTH - |p.path(info.key)|, |steps|
  {
    if steps != [] {
      if steps[0].Call? {
        assert Emits(p, info.key, steps[0].child);
        var v := Visit(p, snap, steps[0].child, rest, w);
        VisitCounted(p, snap, steps[0].child, rest, w, id);
        StepsCounted(p, snap, steps[1..], info, offset, v.rest, v.w, id);
      } else {
        var a := Apply(steps[0], info, offset, w);
        ApplyKeeps(steps[0], info, offset, w);
        StepsCounted(p, snap, steps[1..], a.info, a.offset, rest, a.w, id);
      }
    }
  }

  lemma {:induction false} VisitCounted(p: Program, snap: Snapshot, k: Key, rest: Forest, w: World, id: nat)
    requires WellFormed(p) && 0 < |p.path(k)| <= MAX_DEPTH
    ensures Times(Visit(p, snap, k, rest, w).w.ran, id) == Times(w.ran, id) + |VisitRuns(p, snap, k, rest, w, id)|
    decreases MAX_DEPTH - |p.path(k)| + 1, 0
  {
    match Admit(k, rest, w)
    case Skip(_, _, _) =>
    case Enter(info, kids, _, w1) => BodyCounted(p, snap, info, kids, w1, id);
  }

  lemma {:induction false} BodyCounted(p: Program, snap: Snapshot, info: Info, kids: Forest, w: World, id: nat)
    requires WellFormed(p) && |p.path(info.key)| <= MAX_DEPTH
    ensures Times(RunBody(p, snap, info, kids, w).w.ran, id) ==
            Times(w.ran, id) + |BodyRuns(p, snap, info, kids, w, id)|
    decreases MAX_DEPTH - |p.path(info.key)|, |p.body(info.key, snap)| + 1
  {
    var w1 := w.(ran := w.ran + [info.id]);
    var steps := p.body(info.key, snap);
    TimesMore(w.ran, info.id, id);
    StepsCounted(p, snap, steps, info, 0, kids, w1, id);
    var r := Exec(p, snap, steps, info, 0, kids, w1);
    PruneGrows(r.rest, r.w);
  }

  /** The executions of a group in a pass are as many as the pass recorded. */
  lemma {:induction false} PassCounted(p: Program, snap: Snapshot, tree: Forest, w: World, id: nat)
    requires WellFormed(p)
    ensures Times(Pass(p, snap, tree, w).w.ran, id) == Times(w.ran, id) + |PassRuns(p, snap, tree, w, id)|
  {
    hide RunBody, BodyRuns, Prune;
    if tree.Tree? && tree.info.key == p.root {
      BodyCounted(p, snap, tree.info, tree.kids, w, id);
    } else {
      var w1 := Prune(tree, w);
      PruneGrows(tree, w);
      BodyCounted(p, snap, NewGroup(p.root, w1.next), Nil,
                  w1.(next := w1.next + 1, room := if w1.room > 0 then w1.room - 1 else 0), id);
    }
  }

  // ------------------------------------------------------------------ groups that are not there

  /** A group that is not among the children, and is not new, does not run in any of them. */
  lemma {:induction false} StepsAbsent(p: Program, snap: Snapshot, steps: seq<Step>, info: Info, offset: nat,
                                       rest: Forest, w: World, id: nat)
    requires Ready(p, info.key, steps) && Count(rest, id) == 0 && id < w.next
    ensures StepsRuns(p, snap, steps, info, offset, rest, w, id) == []
    ensures var r := Exec(p, snap, steps, info, offset, rest, w); Count(r.done, id) == 0 && Count(r.rest, id) == 0
    decreases MAX_DEPTH - |p.path(info.key)|, |steps|
  {
    if steps != [] {
      if steps[0].Call? {
        assert Emits(p, info.key, steps[0].child);
        var v := Visit(p, snap, steps[0].child, rest, w);
        VisitAbsent(p, snap, steps[0].child, rest, w, id);
        VisitGrows(p, snap, steps[0].child, rest, w);
        StepsAbsent(p, snap, steps[1..], info, offset, v.rest, v.w, id);
        CountAppend(v.done, Exec(p, snap, steps[1..], info, offset, v.rest, v.w).done, id);
      } else {
        var a := Apply(steps[0], info, offset, w);
        ApplyKeeps(steps[0], info, offset, w);
        StepsAbsent(p, snap, steps[1..], a.info, a.offset, rest, a.w, id);
      }
    }
  }

  lemma {:induction false} VisitAbsent(p: Program, snap: Snapshot, k: Key, rest: Forest, w: World, id: nat)
    requires WellFormed(p) && 0 < |p.path(k)| <= MAX_DEPTH && Count(rest, id) == 0 && id < w.next
    ensures VisitRuns(p, snap, k, rest, w, id) == []
    ensures var v := Visit(p, snap, k, rest, w); Count(v.done, id) == 0 && Count(v.rest, id) == 0
    decreases MAX_DEPTH - |p.path(k)| + 1, 0
  {
    if HasRoot(rest, k) { CountPick(rest, k, id); }
    match Admit(k, rest, w)
    case Skip(_, _, _) =>
    case Enter(info, kids, _, w1) => BodyAbsent(p, snap, info, kids, w1, id);
  }

  lemma {:induction false} BodyAbsent(p: Program, snap: Snapshot, info: Info, kids: Forest, w: World, id: nat)
    requires WellFormed(p) && |p.path(info.key)| <= MAX_DEPTH && info.id != id && Count(kids, id) == 0 && id < w.next
    ensures BodyRuns(p, snap, info, kids, w, id) == []
    ensures Count(RunBody(p, snap, info, kids, w).done, id) == 0
    decreases MAX_DEPTH - |p.path(info.key)|, |p.body(info.key, snap)| + 1
  {
    var steps, w1 := p.body(info.key, snap), w.(ran := w.ran + [info.id]);
    StepsAbsent(p, snap, steps, info, 0, kids, w1, id);
    ExecGrows(p, snap, steps, info, 0, kids, w1);
    var r := Exec(p, snap, steps, info, 0, kids, w1);
    assert Count(Tree(Sealed(r.info, r.offset), r.done, Nil), id) == Count(r.done, id);
  }

  // ------------------------------------------------------------------ no group runs without need

  /** How many dirty groups of f have identity id. */
  function DirtyCount(f: Forest, id: nat): nat {
    match f
    case Nil => 0
    case Tree(info, kids, next) =>
      (if info.id == id && Dirty(info) then 1 else 0) + DirtyCount(kids, id) + DirtyCount(next, id)
  }

  lemma {:induction false} DirtyCounted(f: Forest, id: nat)
    ensures DirtyCount(f, id) <= Count(f, id)
    ensures DirtyCount(f, id) > 0 <==> DirtyIn(f, id)
  {
    if f.Tree? {
      DirtyCounted(f.kids, id);
      DirtyCounted(f.next, id);
    }
  }

  lemma {:induction false} DirtyPick(f: Forest, k: Key, id: nat)
    requires HasRoot(f, k)
    ensures DirtyCount(f, id) == DirtyCount(Pick(f, k), id) + DirtyCount(Drop(f, k), id)
  {
    if f.info.key != k {
      DirtyPick(f.next, k, id);
    }
  }

  /** Whatever runs among the children was dirty and waits no more, or is new. */
  lemma {:induction false} StepsNeeded(p: Program, snap: Snapshot, steps: seq<Step>, info: Info, offset: nat,
                                       rest: Forest, w: World, id: nat)
    requires Ready(p, info.key, steps)
    ensures var r := Exec(p, snap, steps, info, offset, rest, w);
            && w.next <= r.w.next
            && |StepsRuns(p, snap, steps, info, offset, rest, w, id)| + DirtyCount(r.rest, id) <=
                 DirtyCount(rest, id) + Minted(w.next, r.w.next, id)
    decreases MAX_DEPTH - |p.path(info.key)|, |steps|
  {
    hide Visit, VisitRuns, Apply;
    if steps != [] {
      if steps[0].Call? {
        assert Emits(p, info.key, steps[0].child);
        var v := Visit(p, snap, steps[0].child, rest, w);
        VisitNeeded(p, snap, steps[0].child, rest, w, id);
        StepsNeeded(p, snap, steps[1..], info, offset, v.rest, v.w, id);
      } else {
        var a := Apply(steps[0], info, offset, w);
        ApplyKeeps(steps[0], info, offset, w);
        StepsNeeded(p, snap, steps[1..], a.info, a.offset, rest, a.w, id);
      }
    }
  }

  lemma {:induction false} VisitNeeded(p: Program, snap: Snapshot, k: Key, rest: Forest, w: World, id: nat)
    requires WellFormed(p) && 0 < |p.path(k)| <= MAX_DEPTH
    ensures var v := Visit(p, snap, k, rest, w);
            && w.next <= v.w.next
            && |VisitRuns(p, snap, k, rest, w, id)| + DirtyCount(v.rest, id) <= DirtyCount(rest, id)
                  + Minted(w.next, v.w.next, id)
    decreases MAX_DEPTH - |p.path(k)| + 1, 0
  {
    hide RunBody, BodyRuns;
    if HasRoot(rest, k) {
      var t := Pick(rest, k);
      DirtyPick(rest, k, id);
      assert DirtyCount(t.next, id) == 0;
      if Dirty(t.info) { BodyNeeded(p, snap, Cleared(t.info), t.kids, w, id); }
    } else if w.room > 0 {
      BodyNeeded(p, snap, NewGroup(k, w.next), Nil, w.(next := w.next + 1, room := w.room - 1), id);
    }
  }

  lemma {:induction false} BodyNeeded(p: Program, snap: Snapshot, info: Info, kids: Forest, w: World, id: nat)
    requires WellFormed(p) && |p.path(info.key)| <= MAX_DEPTH
    ensures var b := RunBody(p, snap, info, kids, w);
            && w.next <= b.w.next
            && |BodyRuns(p, snap, info, kids, w, id)| <=
                 (if info.id == id then 1 else 0) + DirtyCount(kids, id) + Minted(w.next, b.w.next, id)
    decreases MAX_DEPTH - |p.path(info.key)|, |p.body(info.key, snap)| + 1
  {
    hide Exec, StepsRuns, Executed;
    var w1 := w.(ran := w.ran + [info.id]);
    var steps := p.body(info.key, snap);
    assert Nested(p, info.key, steps);
    StepsNeeded(p, snap, steps, info, 0, kids, w1, id);
    var r := Exec(p, snap, steps, info, 0, kids, w1);
    PruneGrows(r.rest, r.w);
  }

  /** A group that runs in a pass is the root, was dirty or is new. */
  lemma {:induction false} PassNeeded(p: Program, snap: Snapshot, tree: Forest, w: World, id: nat)
    requires WellFormed(p) && (tree.Tree? ==> tree.next == Nil)
    ensures var b := Pass(p, snap, tree, w);
            && |PassRuns(p, snap, tree, w, id)| <=
                 (if tree.Tree? && tree.info.id == id && !Dirty(tree.info) then 1 else 0) + DirtyCount(tree, id)
                 + Minted(w.next, b.w.next, id)
            && (PassRuns(p, snap, tree, w, id) != [] ==>
                  (tree.Tree? && tree.info.id == id) || DirtyIn(tree, id) || w.next <= id < b.w.next)
  {
    hide RunBody, BodyRuns, Prune;
    DirtyCounted(tree, id);
    if tree.Tree? && tree.info.key == p.root {
      BodyNeeded(p, snap, tree.info, tree.kids, w, id);
      assert DirtyCount(tree.next, id) == 0;
    } else {
      var w1 := Prune(tree, w);
      PruneGrows(tree, w);
      BodyNeeded(p, snap, NewGroup(p.root, w1.next), Nil,
                 w1.(next := w1.next + 1, room := if w1.room > 0 then w1.room - 1 else 0), id);
    }
  }

  /** No group runs twice in one pass when identities are distinct. */
  lemma {:induction false} PassRunsOnce(p: Program, snap: Snapshot, tree: Forest, w: World, id: nat)
    requires WellFormed(p) && (tree.Tree? ==> tree.next == Nil) && Distinguished(tree, w)
    ensures |PassRuns(p, snap, tree, w, id)| <= 1
  {
    PassNeeded(p, snap, tree, w, id);
    DirtyCounted(tree, id);
    assert Count(tree, id) <= if id < w.next then 1 else 0;
    if tree.Tree? && tree.info.id == id {
      DirtyCounted(tree.kids, id);
      DirtyCounted(tree.next, id);
    }
  }

  // ------------------------------------------------------------------ the law of pinned memory

  /** The last execution before the j-th in which the group mounted or started over. */
  function Base(h: seq<Execution>, j: nat): (m: nat)
    requires 0 < j <= |h|
    ensures m < j
  {
    if j == 1 || h[j - 1].mounting then j - 1 else Base(h, j - 1)
  }

  /** What execution e gets after b, the last one that mounted.  When b began at its first slot
      and got all it asked for, the same requests get the same addresses in the same order;
      when b began at a later slot, no request is ever answered again. */
  predicate Follows(b: Execution, e: Execution) {
    && (b.start == 0 && Granted(b.at) && e.sizes == b.sizes ==> e.at == b.at && !e.mounting)
    && (b.start > 0 ==> Denied(e.at) && !e.mounting)
  }

  /** A history begins with the mount, and every execution follows the last one that mounted. */
  ghost predicate Lawful(h: seq<Execution>) {
    && (forall j :: 0 <= j < |h| ==> |h[j].at| == |h[j].sizes|)
    && (h != [] ==> h[0].mounting && h[0].start == 0)
    && (forall j :: 0 < j < |h| ==> Follows(h[Base(h, j)], h[j]))
  }

  lemma {:induction false} BasePrefix(h: seq<Execution>, e: Execution, j: nat)
    requires 0 < j <= |h|
    ensures Base(h + [e], j) == Base(h, j)
  {
    if j > 1 {
      BasePrefix(h, e, j - 1);
    }
  }

  lemma {:induction false} LawfulMore(h: seq<Execution>, e: Execution)
    requires Lawful(h) && |e.at| == |e.sizes|
    requires if h == [] then e.mounting && e.start == 0 else Follows(h[Base(h, |h|)], e)
    ensures Lawful(h + [e])
  {
    forall j | 0 < j < |h + [e]| ensures Follows((h + [e])[Base(h + [e], j)], (h + [e])[j]) {
      BasePrefix(h, e, j);
    }
  }

  lemma {:induction false} AnswersSize(p: Program, snap: Snapshot, steps: seq<Step>, info: Info, offset: nat,
                                       rest: Forest, w: World)
    requires Ready(p, info.key, steps)
    ensures |Answers(p, snap, steps, info, offset, rest, w)| == |Sizes(steps)|
    decreases |steps|
  {
    if steps != [] {
      if steps[0].Call? {
        assert Emits(p, info.key, steps[0].child);
        var v := Visit(p, snap, steps[0].child, rest, w);
        AnswersSize(p, snap, steps[1..], info, offset, v.rest, v.w);
      } else {
        var a := Apply(steps[0], info, offset, w);
        ApplyKeeps(steps[0], info, offset, w);
        AnswersSize(p, snap, steps[1..], a.info, a.offset, rest, a.w);
      }
    }
  }

  /** A group whose mount got all its memory gets the same addresses in the same order for as
      long as it makes the same requests. */
  lemma {:induction false} SameForLife(h: seq<Execution>, j: nat)
    requires Lawful(h) && j < |h| && Granted(h[0].at)
    requires forall i :: 0 <= i <= j ==> h[i].sizes == h[0].sizes
    ensures h[j].at == h[0].at
    ensures j > 0 ==> !h[j].mounting && Base(h, j) == 0
  {
    if j > 0 {
      SameForLife(h, j - 1);
      assert Follows(h[Base(h, j)], h[j]);
    }
  }

  /** When a size has changed and the group has started over, the same requests are answered
      again if and only if the change was at the first slot. */
  lemma {:induction false} AnsweredAgainIff(h: seq<Execution>, j: nat)
    requires Lawful(h) && 0 < j < |h|
    requires var b := h[Base(h, j)]; Granted(b.at) && h[j].sizes == b.sizes != []
    ensures var b := h[Base(h, j)]; Granted(h[j].at) <==> b.start == 0
    ensures var b := h[Base(h, j)]; b.start == 0 ==> h[j].at == b.at
  {
    assert Follows(h[Base(h, j)], h[j]);
    if h[Base(h, j)].start > 0 { assert h[j].at[0].None?; }
  }
}

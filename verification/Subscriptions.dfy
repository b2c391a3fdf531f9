/** After a pass every group of the tree is subscribed to the cells its body watches. */
module Subscriptions {
  import opened Basics
  import opened Trees
  import opened State
  import opened Programs
  import opened Passes
  import opened Flags
  import opened Watchers

  /** Key k is subscribed to every existing cell that the steps watch. */
  predicate SubscribedTo(steps: seq<Step>, cells: seq<Cell>, k: Key) {
    forall i :: 0 <= i < |steps| && steps[i].Watch? && Find(cells, steps[i].cell) < |cells| ==>
        Watching(cells, steps[i].cell, k)
  }

  ghost predicate AllSubscribed(p: Program, snap: Snapshot, f: Forest, cells: seq<Cell>) {
    f.Tree? ==>
      && SubscribedTo(p.body(f.info.key, snap), cells, f.info.key)
      && AllSubscribed(p, snap, f.kids, cells)
      && AllSubscribed(p, snap, f.next, cells)
  }

  ghost predicate CleanSubscribed(p: Program, snap: Snapshot, f: Forest, cells: seq<Cell>) {
    f.Tree? ==>
      && (!Dirty(f.info) ==> SubscribedTo(p.body(f.info.key, snap), cells, f.info.key))
      && CleanSubscribed(p, snap, f.kids, cells)
      && CleanSubscribed(p, snap, f.next, cells)
  }

  lemma {:induction false} SubscribedKept(steps: seq<Step>, a: seq<Cell>, b: seq<Cell>, k: Key)
    requires SubscribedTo(steps, a, k)
    requires forall c :: KeepsWatch(a, b, c, k)
    ensures SubscribedTo(steps, b, k)
  {
    forall i | 0 <= i < |steps| && steps[i].Watch? && Find(b, steps[i].cell) < |b|
      ensures Watching(b, steps[i].cell, k)
    {
      assert KeepsWatch(a, b, steps[i].cell, k);
      WatchersOnly(a, b, steps[i].cell);
    }
  }

  ghost predicate KeepsAll(a: seq<Cell>, b: seq<Cell>, f: Forest) {
    forall c, x :: HasKey(f, x) ==> KeepsWatch(a, b, c, x)
  }

  lemma {:induction false} AllSubscribedKept(p: Program, snap: Snapshot, f: Forest, a: seq<Cell>, b: seq<Cell>)
    requires KeepsAll(a, b, f)
    ensures AllSubscribed(p, snap, f, a) ==> AllSubscribed(p, snap, f, b)
    ensures CleanSubscribed(p, snap, f, a) ==> CleanSubscribed(p, snap, f, b)
  {
    if f.Tree? {
      assert HasKey(f, f.info.key);
      if SubscribedTo(p.body(f.info.key, snap), a, f.info.key) {
        SubscribedKept(p.body(f.info.key, snap), a, b, f.info.key);
      }
      AllSubscribedKept(p, snap, f.kids, a, b);
      AllSubscribedKept(p, snap, f.next, a, b);
    }
  }

  lemma {:induction false} CleanMeansAll(p: Program, snap: Snapshot, f: Forest, cells: seq<Cell>)
    requires AllClean(f) && CleanSubscribed(p, snap, f, cells)
    ensures AllSubscribed(p, snap, f, cells)
  {
    if f.Tree? {
      CleanMeansAll(p, snap, f.kids, cells);
      CleanMeansAll(p, snap, f.next, cells);
    }
  }

  lemma {:induction false} PickSubscribed(p: Program, snap: Snapshot, f: Forest, k: Key, cells: seq<Cell>)
    requires HasRoot(f, k) && CleanSubscribed(p, snap, f, cells)
    ensures CleanSubscribed(p, snap, Pick(f, k), cells) && CleanSubscribed(p, snap, Drop(f, k), cells)
  {
    if f.info.key != k {
      PickSubscribed(p, snap, f.next, k, cells);
    }
  }

  lemma {:induction false} ExecSubscribes(p: Program, snap: Snapshot, steps: seq<Step>, info: Info, offset: nat,
                                          rest: Forest, w: World)
    requires Proper(p, info.key, steps) && Conform(p, info.key, rest) && Closed(rest)
    requires CleanSubscribed(p, snap, rest, w.cells)
    requires !Exec(p, snap, steps, info, offset, rest, w).w.missed
    ensures var r := Exec(p, snap, steps, info, offset, rest, w);
            && AllSubscribed(p, snap, r.done, r.w.cells)
            && SubscribedTo(steps, r.w.cells, info.key)
    decreases MAX_DEPTH - |p.path(info.key)|, |steps|
  {
    if steps != [] {
      if steps[0].Call? {
        ExecSubscribesCall(p, snap, steps, info, offset, rest, w);
      } else {
        ExecSubscribesStep(p, snap, steps, info, offset, rest, w);
      }
    }
  }

  lemma {:induction false} ExecSubscribesStep(p: Program, snap: Snapshot, steps: seq<Step>, info: Info, offset: nat,
                                              rest: Forest, w: World)
    requires Proper(p, info.key, steps) && Conform(p, info.key, rest) && Closed(rest)
    requires CleanSubscribed(p, snap, rest, w.cells)
    requires !Exec(p, snap, steps, info, offset, rest, w).w.missed
    requires steps != [] && !steps[0].Call?
    ensures var r := Exec(p, snap, steps, info, offset, rest, w);
            && AllSubscribed(p, snap, r.done, r.w.cells)
            && SubscribedTo(steps, r.w.cells, info.key)
    decreases MAX_DEPTH - |p.path(info.key)|, |steps|, 0
  {
    hide ApplyRemember, Visit;
    var s, tail, q := steps[0], steps[1..], info.key;
    var a := Apply(s, info, offset, w);
    ApplyKeeps(s, info, offset, w);
    var r := Exec(p, snap, tail, a.info, a.offset, rest, a.w);
    ExecGrows(p, snap, tail, a.info, a.offset, rest, a.w);
    forall c, x ensures KeepsWatch(w.cells, a.w.cells, c, x) { ApplyKeepsWatch(s, info, offset, w, c, x); }
    AllSubscribedKept(p, snap, rest, w.cells, a.w.cells);
    ExecSubscribes(p, snap, tail, a.info, a.offset, rest, a.w);
    if s.Watch? {
      ExecKeepsWatch(p, snap, tail, a.info, a.offset, rest, a.w, s.cell, q);
      WatchersOnly(a.w.cells, r.w.cells, s.cell);
      ApplyKeepsWatch(s, info, offset, w, s.cell, q);
      WatchersOnly(w.cells, a.w.cells, s.cell);
    }
    assert forall i :: 0 < i < |steps| ==> steps[i] == tail[i - 1];
  }

  lemma {:induction false} ExecSubscribesCall(p: Program, snap: Snapshot, steps: seq<Step>, info: Info, offset: nat,
                                              rest: Forest, w: World)
    requires Proper(p, info.key, steps) && Conform(p, info.key, rest) && Closed(rest)
    requires CleanSubscribed(p, snap, rest, w.cells)
    requires !Exec(p, snap, steps, info, offset, rest, w).w.missed
    requires steps != [] && steps[0].Call?
    ensures var r := Exec(p, snap, steps, info, offset, rest, w);
            && AllSubscribed(p, snap, r.done, r.w.cells)
            && SubscribedTo(steps, r.w.cells, info.key)
    decreases MAX_DEPTH - |p.path(info.key)|, |steps|, 0
  {
    var k, tail, q := steps[0].child, steps[1..], info.key;
    assert Emits(p, q, k);
    var v := Visit(p, snap, k, rest, w);
    var r := Exec(p, snap, tail, info, offset, v.rest, v.w);
    ExecGrows(p, snap, tail, info, offset, v.rest, v.w);
    VisitSubscribes(p, snap, q, k, rest, w);
    VisitConforms(p, snap, q, k, rest, w);
    VisitCleans(p, snap, k, rest, w, 0);
    ExecSubscribes(p, snap, tail, info, offset, v.rest, v.w);
    forall c, x | HasKey(v.done, x) ensures KeepsWatch(v.w.cells, r.w.cells, c, x) {
      KeyHasBranch(p, q, v.done, x);
      assert Branch(p, q, x) == k && !Called(tail, k);
      ExecKeepsWatch(p, snap, tail, info, offset, v.rest, v.w, c, x);
    }
    AllSubscribedKept(p, snap, v.done, v.w.cells, r.w.cells);
    assert v.done.Tree? ==> Append(v.done, r.done) == Tree(v.done.info, v.done.kids, r.done);
    assert forall i :: 0 < i < |steps| ==> steps[i] == tail[i - 1];
  }

  lemma {:induction false} VisitSubscribes(p: Program, snap: Snapshot, q: Key, k: Key, rest: Forest, w: World)
    requires Keyed(p) && Emits(p, q, k) && Conform(p, q, rest) && Closed(rest)
    requires CleanSubscribed(p, snap, rest, w.cells)
    requires !Visit(p, snap, k, rest, w).w.missed
    ensures var v := Visit(p, snap, k, rest, w);
            && AllSubscribed(p, snap, v.done, v.w.cells)
            && CleanSubscribed(p, snap, v.rest, v.w.cells)
    decreases MAX_DEPTH - |p.path(k)| + 1, 0
  {
    hide RunBody, Prune;
    var v := Visit(p, snap, k, rest, w);
    VisitConforms(p, snap, q, k, rest, w);
    if HasRoot(rest, k) {
      var t := Pick(rest, k);
      ConformPick(p, q, rest, k);
      PickSplits(rest, k, 0);
      PickSubscribed(p, snap, rest, k, w.cells);
      if Dirty(t.info) {
        RunBodySubscribes(p, snap, Cleared(t.info), t.kids, w);
      } else {
        CleanMeansAll(p, snap, t, w.cells);
      }
    } else if w.room > 0 {
      RunBodySubscribes(p, snap, NewGroup(k, w.next), Nil, w.(next := w.next + 1, room := w.room - 1));
    }
    forall c, x | HasKey(v.rest, x) ensures KeepsWatch(w.cells, v.w.cells, c, x) {
      KeyHasBranch(p, q, v.rest, x);
      UnderChild(p, q, k, x);
      VisitKeepsWatch(p, snap, q, k, rest, w, c, x);
    }
    AllSubscribedKept(p, snap, v.rest, w.cells, v.w.cells);
  }

  lemma {:induction false} RunBodySubscribes(p: Program, snap: Snapshot, info: Info, kids: Forest, w: World)
    requires Keyed(p) && |p.path(info.key)| <= MAX_DEPTH && Conform(p, info.key, kids) && Closed(kids)
    requires CleanSubscribed(p, snap, kids, w.cells)
    requires !RunBody(p, snap, info, kids, w).w.missed
    ensures var b := RunBody(p, snap, info, kids, w);
            && b.done.Tree? && b.done.next == Nil
            && AllSubscribed(p, snap, b.done, b.w.cells)
    decreases MAX_DEPTH - |p.path(info.key)|, |p.body(info.key, snap)| + 1
  {
    var steps, q := p.body(info.key, snap), info.key;
    var w1 := w.(ran := w.ran + [info.id]);
    var r := Exec(p, snap, steps, info, 0, kids, w1);
    var w2 := Prune(r.rest, r.w);
    PruneGrows(r.rest, r.w);
    ExecGrows(p, snap, steps, info, 0, kids, w1);
    ExecConforms(p, snap, steps, info, 0, kids, w1);
    ExecSubscribes(p, snap, steps, info, 0, kids, w1);
    forall c, x | x == q || HasKey(r.done, x) ensures KeepsWatch(r.w.cells, w2.cells, c, x) {
      if HasKey(r.rest, x) { KeyHasBranch(p, q, r.rest, x); }
      if x != q { KeyHasBranch(p, q, r.done, x); }
      PruneKeepsWatch(p, q, r.rest, r.w, c, x);
    }
    AllSubscribedKept(p, snap, r.done, r.w.cells, w2.cells);
    SubscribedKept(steps, r.w.cells, w2.cells, q);
  }
}

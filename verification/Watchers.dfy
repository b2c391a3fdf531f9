/** Subscriptions over a pass: every group left in the tree stays subscribed to the cells
    its body watches. */
module Watchers {
  import opened Basics
  import opened Trees
  import opened State
  import opened Programs
  import opened Passes
  import opened Flags

  // ------------------------------------------------------------------ where keys live

  /** x is a strict descendant of q. */
  predicate Under(p: Program, q: Key, x: Key) {
    |p.path(q)| < |p.path(x)| && p.path(x)[..|p.path(q)|] == p.path(q)
  }

  /** The child of q on the way to x. */
  function Branch(p: Program, q: Key, x: Key): Key
    requires Under(p, q, x)
  {
    p.path(x)[|p.path(q)|]
  }

  /** f holds children of group q, each where its path says, no two roots with one key. */
  ghost predicate Conform(p: Program, q: Key, f: Forest)
    decreases f
  {
    f.Tree? ==>
      && Emits(p, q, f.info.key)
      && !HasRoot(f.next, f.info.key)
      && Conform(p, f.info.key, f.kids)
      && Conform(p, q, f.next)
  }

  lemma {:induction false} UnderChild(p: Program, q: Key, k: Key, x: Key)
    requires Emits(p, q, k)
    ensures Under(p, q, k) && Branch(p, q, k) == k && !Under(p, k, q) && q != k
    ensures Under(p, k, x) ==> Under(p, q, x) && Branch(p, q, x) == k
  {
    if Under(p, k, x) {
      assert p.path(x)[..|p.path(k)|][..|p.path(q)|] == p.path(x)[..|p.path(q)|];
      assert p.path(x)[..|p.path(k)|][|p.path(q)|] == k;
    }
  }

  /** A key occurs in a conforming forest only below the root that its path names. */
  lemma {:induction false} KeyHasBranch(p: Program, q: Key, f: Forest, x: Key)
    requires Conform(p, q, f) && HasKey(f, x)
    ensures Under(p, q, x) && HasRoot(f, Branch(p, q, x))
    decreases f
  {
    UnderChild(p, q, f.info.key, x);
    if f.info.key != x {
      if HasKey(f.kids, x) {
        KeyHasBranch(p, f.info.key, f.kids, x);
      } else {
        KeyHasBranch(p, q, f.next, x);
      }
    }
  }

  lemma {:induction false} ConformPick(p: Program, q: Key, f: Forest, k: Key)
    requires Conform(p, q, f) && HasRoot(f, k)
    ensures Conform(p, q, Pick(f, k)) && Conform(p, q, Drop(f, k))
    ensures !HasRoot(Drop(f, k), k)
    ensures forall j :: HasRoot(Drop(f, k), j) ==> HasRoot(f, j)
  {
    if f.info.key != k {
      ConformPick(p, q, f.next, k);
    }
  }

  /** Child b is called by one of the steps. */
  predicate Called(steps: seq<Step>, b: Key) {
    exists i :: 0 <= i < |steps| && steps[i] == Call(b)
  }

  lemma {:induction false} CalledTail(steps: seq<Step>, b: Key)
    requires steps != []
    ensures Called(steps, b) <==> steps[0] == Call(b) || Called(steps[1..], b)
  {
    if Called(steps, b) && steps[0] != Call(b) {
      var i :| 0 <= i < |steps| && steps[i] == Call(b);
      assert steps[1..][i - 1] == Call(b);
    }
  }

  ghost predicate Proper(p: Program, q: Key, steps: seq<Step>) {
    Ready(p, q, steps) && Keyed(p) && Distinct(steps)
  }

  /** The visited children are the called ones, the waiting ones were not called. */
  lemma {:induction false} ExecConforms(p: Program, snap: Snapshot, steps: seq<Step>, info: Info, offset: nat,
                                        rest: Forest, w: World)
    requires Proper(p, info.key, steps) && Conform(p, info.key, rest)
    ensures var r := Exec(p, snap, steps, info, offset, rest, w);
            && Conform(p, info.key, r.done) && Conform(p, info.key, r.rest)
            && (forall j :: HasRoot(r.done, j) ==> Called(steps, j))
            && (forall j :: HasRoot(r.rest, j) ==> HasRoot(rest, j) && !Called(steps, j))
    decreases MAX_DEPTH - |p.path(info.key)|, |steps|
  {
    if steps != [] {
      var tail := steps[1..];
      forall j { CalledTail(steps, j); }
      if steps[0].Call? {
        var k := steps[0].child;
        assert Emits(p, info.key, k);
        VisitConforms(p, snap, info.key, k, rest, w);
        var v := Visit(p, snap, k, rest, w);
        ExecConforms(p, snap, tail, info, offset, v.rest, v.w);
        var r := Exec(p, snap, tail, info, offset, v.rest, v.w);
        assert !Called(tail, k);
        assert v.done.Tree? ==> Append(v.done, r.done) == Tree(v.done.info, v.done.kids, r.done);
      } else {
        var a := Apply(steps[0], info, offset, w);
        ApplyKeeps(steps[0], info, offset, w);
        ExecConforms(p, snap, tail, a.info, a.offset, rest, a.w);
      }
    }
  }

  lemma {:induction false} VisitConforms(p: Program, snap: Snapshot, q: Key, k: Key, rest: Forest, w: World)
    requires Keyed(p) && Emits(p, q, k) && Conform(p, q, rest)
    ensures var v := Visit(p, snap, k, rest, w);
            && (v.done.Tree? ==> v.done.next == Nil && v.done.info.key == k)
            && Conform(p, q, v.done) && Conform(p, q, v.rest)
            && (forall j :: HasRoot(v.rest, j) ==> HasRoot(rest, j) && j != k)
    decreases MAX_DEPTH - |p.path(k)| + 1, 0
  {
    if HasRoot(rest, k) {
      var t := Pick(rest, k);
      ConformPick(p, q, rest, k);
      if Dirty(t.info) {
        RunBodyConforms(p, snap, Cleared(t.info), t.kids, w);
      }
    } else if w.room > 0 {
      RunBodyConforms(p, snap, NewGroup(k, w.next), Nil, w.(next := w.next + 1, room := w.room - 1));
    }
  }

  lemma {:induction false} RunBodyConforms(p: Program, snap: Snapshot, info: Info, kids: Forest, w: World)
    requires Keyed(p) && |p.path(info.key)| <= MAX_DEPTH && Conform(p, info.key, kids)
    ensures var b := RunBody(p, snap, info, kids, w);
            && b.done.Tree? && b.done.next == Nil && b.done.info.key == info.key
            && Conform(p, info.key, b.done.kids)
    decreases MAX_DEPTH - |p.path(info.key)|, |p.body(info.key, snap)| + 1
  {
    var w1 := w.(ran := w.ran + [info.id]);
    ExecGrows(p, snap, p.body(info.key, snap), info, 0, kids, w1);
    ExecConforms(p, snap, p.body(info.key, snap), info, 0, kids, w1);
  }

  // ------------------------------------------------------------------ subscriptions kept

  /** Key x keeps its subscriptions while group q runs the steps: it is q itself, or not
      below q, or below a child that the steps do not call. */
  predicate Safe(p: Program, q: Key, steps: seq<Step>, x: Key) {
    x == q || !Under(p, q, x) || !Called(steps, Branch(p, q, x))
  }

  /** No subscription of x to c is lost, and lookups and values stay the same. */
  ghost predicate KeepsWatch(a: seq<Cell>, b: seq<Cell>, c: CellId, x: Key) {
    OnlyWatchers(a, b) && (Watching(a, c, x) ==> Watching(b, c, x))
  }

  lemma {:induction false} KeepsWatchTrans(a: seq<Cell>, b: seq<Cell>, d: seq<Cell>, c: CellId, x: Key)
    requires KeepsWatch(a, b, c, x) && KeepsWatch(b, d, c, x)
    ensures KeepsWatch(a, d, c, x)
  {}

  lemma {:induction false} TearDownKeeps(infos: seq<Info>, w: World, c: CellId, x: Key)
    requires forall i :: 0 <= i < |infos| ==> infos[i].key != 0 && infos[i].key != x
    ensures KeepsWatch(w.cells, TearDownAll(infos, w).cells, c, x)
    decreases |infos|
  {
    if infos != [] {
      UnsubscribeRemoves(w.cells, infos[0].key, c, x);
      TearDownKeeps(infos[1..], TearDown(infos[0], w), c, x);
      KeepsWatchTrans(w.cells, TearDown(infos[0], w).cells, TearDownAll(infos, w).cells, c, x);
    }
  }

  lemma {:induction false} DoomedKeys(p: Program, q: Key, f: Forest, x: Key)
    requires Conform(p, q, f) && !HasKey(f, x)
    ensures forall i :: 0 <= i < |Doomed(f)| ==> Doomed(f)[i].key != 0 && Doomed(f)[i].key != x
    decreases f
  {
    if f.Tree? {
      DoomedKeys(p, f.info.key, f.kids, x);
      DoomedKeys(p, q, f.next, x);
    }
  }

  lemma {:induction false} PruneKeepsWatch(p: Program, q: Key, f: Forest, w: World, c: CellId, x: Key)
    requires Conform(p, q, f) && !HasKey(f, x)
    ensures KeepsWatch(w.cells, Prune(f, w).cells, c, x)
    decreases f
  {
    if f.Tree? {
      var t := Tree(f.info, f.kids, Nil);
      var w1 := TearDownAll(Doomed(t), w);
      DoomedKeys(p, q, t, x);
      TearDownKeeps(Doomed(t), w, c, x);
      PruneKeepsWatch(p, q, f.next, w1, c, x);
      KeepsWatchTrans(w.cells, w1.cells, Prune(f, w).cells, c, x);
    }
  }

  lemma {:induction false} ApplyKeepsWatch(s: Step, info: Info, offset: nat, w: World, c: CellId, x: Key)
    requires !s.Call?
    ensures KeepsWatch(w.cells, Apply(s, info, offset, w).w.cells, c, x)
  {
    if s.Watch? {
      SubscribeAdds(w.cells, s.cell, info.key, c, x);
    }
  }

  lemma {:induction false} ExecKeepsWatch(p: Program, snap: Snapshot, steps: seq<Step>, info: Info, offset: nat,
                                          rest: Forest, w: World, c: CellId, x: Key)
    requires Proper(p, info.key, steps) && Conform(p, info.key, rest) && Safe(p, info.key, steps, x)
    ensures KeepsWatch(w.cells, Exec(p, snap, steps, info, offset, rest, w).w.cells, c, x)
    decreases MAX_DEPTH - |p.path(info.key)|, |steps|
  {
    if steps != [] {
      var r := Exec(p, snap, steps, info, offset, rest, w);
      if Under(p, info.key, x) { CalledTail(steps, Branch(p, info.key, x)); }
      if steps[0].Call? {
        var k := steps[0].child;
        assert Emits(p, info.key, k) && Called(steps, k);
        UnderChild(p, info.key, k, x);
        VisitKeepsWatch(p, snap, info.key, k, rest, w, c, x);
        VisitConforms(p, snap, info.key, k, rest, w);
        var v := Visit(p, snap, k, rest, w);
        ExecKeepsWatch(p, snap, steps[1..], info, offset, v.rest, v.w, c, x);
        KeepsWatchTrans(w.cells, v.w.cells, r.w.cells, c, x);
      } else {
        var a := Apply(steps[0], info, offset, w);
        ApplyKeeps(steps[0], info, offset, w);
        ApplyKeepsWatch(steps[0], info, offset, w, c, x);
        ExecKeepsWatch(p, snap, steps[1..], a.info, a.offset, rest, a.w, c, x);
        KeepsWatchTrans(w.cells, a.w.cells, r.w.cells, c, x);
      }
    }
  }

  /** A visit to child k leaves the subscriptions of every key outside k alone. */
  lemma {:induction false} VisitKeepsWatch(p: Program, snap: Snapshot, q: Key, k: Key, rest: Forest, w: World,
                                           c: CellId, x: Key)
    requires Keyed(p) && Emits(p, q, k) && Conform(p, q, rest) && x != k && !Under(p, k, x)
    ensures KeepsWatch(w.cells, Visit(p, snap, k, rest, w).w.cells, c, x)
    decreases MAX_DEPTH - |p.path(k)| + 1, 0
  {
    if HasRoot(rest, k) {
      var t := Pick(rest, k);
      ConformPick(p, q, rest, k);
      if Dirty(t.info) {
        RunBodyKeepsWatch(p, snap, Cleared(t.info), t.kids, w, c, x);
      }
    } else if w.room > 0 {
      RunBodyKeepsWatch(p, snap, NewGroup(k, w.next), Nil, w.(next := w.next + 1, room := w.room - 1), c, x);
    }
  }

  lemma {:induction false} RunBodyKeepsWatch(p: Program, snap: Snapshot, info: Info, kids: Forest, w: World, c: CellId,
                                             x: Key)
    requires Keyed(p) && |p.path(info.key)| <= MAX_DEPTH && Conform(p, info.key, kids)
    requires !Under(p, info.key, x)
    ensures KeepsWatch(w.cells, RunBody(p, snap, info, kids, w).w.cells, c, x)
    decreases MAX_DEPTH - |p.path(info.key)|, |p.body(info.key, snap)| + 1
  {
    var w1 := w.(ran := w.ran + [info.id]);
    var r := Exec(p, snap, p.body(info.key, snap), info, 0, kids, w1);
    ExecKeepsWatch(p, snap, p.body(info.key, snap), info, 0, kids, w1, c, x);
    ExecConforms(p, snap, p.body(info.key, snap), info, 0, kids, w1);
    ExecGrows(p, snap, p.body(info.key, snap), info, 0, kids, w1);
    if HasKey(r.rest, x) { KeyHasBranch(p, info.key, r.rest, x); }
    PruneKeepsWatch(p, info.key, r.rest, r.w, c, x);
    KeepsWatchTrans(w.cells, r.w.cells, Prune(r.rest, r.w).cells, c, x);
  }
}

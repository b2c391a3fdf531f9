/** Identities are conserved: over a pass every group of the old tree is still there or has
    been pruned, exactly once, and every new group has an identity never used before. */
module Census {
  import opened Basics
  import opened Trees
  import opened State
  import opened Programs
  import opened Passes
  import opened Removal

  /** How many groups of f have identity id. */
  function Count(f: Forest, id: nat): nat {
    match f
    case Nil => 0
    case Tree(info, kids, next) => (if info.id == id then 1 else 0) + Count(kids, id) + Count(next, id)
  }

  function CountList(infos: seq<Info>, id: nat): nat {
    if infos == [] then 0 else (if infos[0].id == id then 1 else 0) + CountList(infos[1..], id)
  }

  /** How often id occurs in a log. */
  function Times(log: seq<nat>, id: nat): nat {
    if log == [] then 0 else Times(log[..|log| - 1], id) + (if log[|log| - 1] == id then 1 else 0)
  }

  /** Whether identity id was handed out while the counter went from a to b. */
  function Minted(a: nat, b: nat, id: nat): nat {
    if a <= id < b then 1 else 0
  }

  lemma {:induction false} CountAppend(f: Forest, g: Forest, id: nat)
    ensures Count(Append(f, g), id) == Count(f, id) + Count(g, id)
  {
    if f.Tree? {
      CountAppend(f.next, g, id);
    }
  }

  lemma {:induction false} CountPick(f: Forest, k: Key, id: nat)
    requires HasRoot(f, k)
    ensures Count(f, id) == Count(Pick(f, k), id) + Count(Drop(f, k), id)
  {
    if f.info.key != k {
      CountPick(f.next, k, id);
    }
  }

  lemma {:induction false} CountListJoins(a: seq<Info>, b: seq<Info>, id: nat)
    ensures CountList(a + b, id) == CountList(a, id) + CountList(b, id)
    decreases |a|
  {
    if a == [] {
      assert a + b == b;
    } else {
      assert (a + b)[1..] == a[1..] + b;
      CountListJoins(a[1..], b, id);
    }
  }

  lemma {:induction false} CountDoomed(f: Forest, id: nat)
    ensures CountList(Doomed(f), id) == Count(f, id)
  {
    if f.Tree? {
      CountDoomed(f.kids, id);
      CountDoomed(f.next, id);
      CountListJoins(Doomed(f.next) + Doomed(f.kids), [f.info], id);
      CountListJoins(Doomed(f.next), Doomed(f.kids), id);
      assert CountList([f.info], id) == (if f.info.id == id then 1 else 0) + CountList([f.info][1..], id);
    }
  }

  lemma {:induction false} TearDownCounts(infos: seq<Info>, w: World, id: nat)
    ensures Times(TearDownAll(infos, w).pruned, id) == Times(w.pruned, id) + CountList(infos, id)
    decreases |infos|
  {
    if infos != [] {
      var w1 := TearDown(infos[0], w);
      assert w1.pruned[..|w.pruned|] == w.pruned;
      TearDownCounts(infos[1..], w1, id);
    }
  }

  lemma {:induction false} PruneBalance(f: Forest, w: World, id: nat)
    ensures Times(Prune(f, w).pruned, id) == Times(w.pruned, id) + Count(f, id)
  {
    if f.Tree? {
      var t := Tree(f.info, f.kids, Nil);
      CountDoomed(t, id);
      TearDownCounts(Doomed(t), w, id);
      PruneBalance(f.next, TearDownAll(Doomed(t), w), id);
      assert Count(t, id) + Count(f.next, id) == Count(f, id);
    }
  }

  // ------------------------------------------------------------------ conservation

  /** The visited and the waiting children, with what was pruned, are the old children and
      what was pruned before, with the identities handed out in between. */
  lemma {:induction false} ExecBalance(p: Program, snap: Snapshot, steps: seq<Step>, info: Info, offset: nat,
                                       rest: Forest, w: World, id: nat)
    requires Ready(p, info.key, steps)
    ensures var r := Exec(p, snap, steps, info, offset, rest, w);
            Count(r.done, id) + Count(r.rest, id) + Times(r.w.pruned, id) ==
              Count(rest, id) + Times(w.pruned, id) + Minted(w.next, r.w.next, id)
    decreases MAX_DEPTH - |p.path(info.key)|, |steps|
  {
    if steps != [] {
      if steps[0].Call? {
        var k := steps[0].child;
        assert Emits(p, info.key, k);
        var v := Visit(p, snap, k, rest, w);
        var r := Exec(p, snap, steps[1..], info, offset, v.rest, v.w);
        VisitBalance(p, snap, k, rest, w, id);
        ExecBalance(p, snap, steps[1..], info, offset, v.rest, v.w, id);
        VisitGrows(p, snap, k, rest, w);
        ExecGrows(p, snap, steps[1..], info, offset, v.rest, v.w);
        CountAppend(v.done, r.done, id);
      } else {
        var a := Apply(steps[0], info, offset, w);
        ApplyKeeps(steps[0], info, offset, w);
        ExecBalance(p, snap, steps[1..], a.info, a.offset, rest, a.w, id);
      }
    }
  }

  lemma {:induction false} VisitBalance(p: Program, snap: Snapshot, k: Key, rest: Forest, w: World, id: nat)
    requires WellFormed(p) && 0 < |p.path(k)| <= MAX_DEPTH
    ensures var v := Visit(p, snap, k, rest, w);
            Count(v.done, id) + Count(v.rest, id) + Times(v.w.pruned, id) ==
              Count(rest, id) + Times(w.pruned, id) + Minted(w.next, v.w.next, id)
    decreases MAX_DEPTH - |p.path(k)| + 1, 0
  {
    hide RunBody, Prune;
    if HasRoot(rest, k) {
      var t := Pick(rest, k);
      CountPick(rest, k, id);
      if Dirty(t.info) {
        RunBodyBalance(p, snap, Cleared(t.info), t.kids, w, id);
      }
    } else if w.room > 0 {
      var w1 := w.(next := w.next + 1, room := w.room - 1);
      RunBodyBalance(p, snap, NewGroup(k, w.next), Nil, w1, id);
      RunBodyGrows(p, snap, NewGroup(k, w.next), Nil, w1);
    }
  }

  lemma {:induction false} RunBodyBalance(p: Program, snap: Snapshot, info: Info, kids: Forest, w: World, id: nat)
    requires WellFormed(p) && |p.path(info.key)| <= MAX_DEPTH
    ensures var b := RunBody(p, snap, info, kids, w);
            Count(b.done, id) + Times(b.w.pruned, id) ==
              (if info.id == id then 1 else 0) + Count(kids, id) + Times(w.pruned, id) + Minted(w.next, b.w.next, id)
    decreases MAX_DEPTH - |p.path(info.key)|, |p.body(info.key, snap)| + 1
  {
    var steps := p.body(info.key, snap);
    var w1 := w.(ran := w.ran + [info.id]);
    var r := Exec(p, snap, steps, info, 0, kids, w1);
    ExecBalance(p, snap, steps, info, 0, kids, w1, id);
    ExecGrows(p, snap, steps, info, 0, kids, w1);
    PruneBalance(r.rest, r.w, id);
    PruneGrows(r.rest, r.w);
    assert Count(Tree(Sealed(r.info, r.offset), r.done, Nil), id) ==
        (if info.id == id then 1 else 0) + Count(r.done, id);
  }

  /** A pass conserves identities. */
  lemma {:induction false} PassBalance(p: Program, snap: Snapshot, tree: Forest, w: World, id: nat)
    requires WellFormed(p) && (tree.Tree? ==> tree.next == Nil)
    ensures var b := Pass(p, snap, tree, w);
            && w.next <= b.w.next
            && Count(b.done, id) + Times(b.w.pruned, id) ==
                  Count(tree, id) + Times(w.pruned, id) + Minted(w.next, b.w.next, id)
  {
    if tree.Tree? && tree.info.key == p.root {
      RunBodyBalance(p, snap, tree.info, tree.kids, w, id);
      RunBodyGrows(p, snap, tree.info, tree.kids, w);
      assert Count(tree.next, id) == 0;
      assert Count(tree, id) == (if tree.info.id == id then 1 else 0) + Count(tree.kids, id);
    } else {
      PruneBalance(tree, w, id);
      PruneGrows(tree, w);
      RootBalance(p, snap, Prune(tree, w), id);
    }
  }

  /** A new root. */
  lemma {:induction false} RootBalance(p: Program, snap: Snapshot, w: World, id: nat)
    requires WellFormed(p)
    ensures var b := RunBody(p, snap, NewGroup(p.root, w.next), Nil,
            w.(next := w.next + 1, room := if w.room > 0 then w.room - 1 else 0));
            && w.next <= b.w.next
            && Count(b.done, id) + Times(b.w.pruned, id) == Times(w.pruned, id) + Minted(w.next, b.w.next, id)
  {
    var w1 := w.(next := w.next + 1, room := if w.room > 0 then w.room - 1 else 0);
    RunBodyBalance(p, snap, NewGroup(p.root, w.next), Nil, w1, id);
    RunBodyGrows(p, snap, NewGroup(p.root, w.next), Nil, w1);
  }

  // ------------------------------------------------------------------ no identity is shared or reused

  /** No identity of f or of a pruned group occurs twice, and none is still to be handed out. */
  ghost predicate Distinguished(f: Forest, w: World) {
    forall id: nat {:trigger Count(f, id)} :: Count(f, id) + Times(w.pruned, id) <= if id < w.next then 1 else 0
  }

  /** A pass keeps identities distinct: no two groups of the tree share one, and no group
      ever gets the identity of a pruned one. */
  lemma {:induction false} PassDistinguishes(p: Program, snap: Snapshot, tree: Forest, w: World)
    requires WellFormed(p) && (tree.Tree? ==> tree.next == Nil) && Distinguished(tree, w)
    ensures var b := Pass(p, snap, tree, w); Distinguished(b.done, b.w)
  {
    var b := Pass(p, snap, tree, w);
    forall id: nat ensures Count(b.done, id) + Times(b.w.pruned, id) <= if id < b.w.next then 1 else 0 {
      PassBalance(p, snap, tree, w, id);
    }
  }

  lemma {:induction false} CountVictims(f: Forest, id: nat)
    ensures CountList(Victims(f), id) == Count(f, id)
  {
    if f.Tree? {
      var t := Tree(f.info, f.kids, Nil);
      CountDoomed(t, id);
      CountVictims(f.next, id);
      CountListJoins(Doomed(t), Victims(f.next), id);
      assert Count(t, id) + Count(f.next, id) == Count(f, id);
    }
  }

  lemma {:induction false} Listed(infos: seq<Info>, id: nat)
    ensures id in IdsOf(infos) <==> CountList(infos, id) > 0
    decreases |infos|
  {
    if infos != [] {
      Listed(infos[1..], id);
    }
  }

  lemma {:induction false} CountedOnce(infos: seq<Info>)
    requires forall id: nat :: CountList(infos, id) <= 1
    ensures OneId(infos)
    decreases |infos|
  {
    if infos != [] {
      Listed(infos[1..], infos[0].id);
      assert CountList(infos, infos[0].id) <= 1;
      forall id: nat ensures CountList(infos[1..], id) <= 1 {
        assert CountList(infos, id) <= 1;
      }
      CountedOnce(infos[1..]);
    }
  }

  /** So the groups of any forest that a pass prunes have distinct identities. */
  lemma {:induction false} PrunedApart(f: Forest, w: World)
    requires Distinguished(f, w)
    ensures OneId(Victims(f))
  {
    forall id: nat ensures CountList(Victims(f), id) <= 1 {
      CountVictims(f, id);
      assert Count(f, id) <= 1;
    }
    CountedOnce(Victims(f));
  }

  /** In particular the children that a body left out, which its group prunes as it exits. */
  lemma {:induction false} LeftOutApart(p: Program, snap: Snapshot, steps: seq<Step>, info: Info, offset: nat,
                                        rest: Forest, w: World)
    requires Ready(p, info.key, steps) && Distinguished(rest, w)
    ensures var r := Exec(p, snap, steps, info, offset, rest, w);
            Distinguished(r.rest, r.w) && OneId(Victims(r.rest))
  {
    var r := Exec(p, snap, steps, info, offset, rest, w);
    ExecGrows(p, snap, steps, info, offset, rest, w);
    forall id: nat ensures Count(r.rest, id) + Times(r.w.pruned, id) <= if id < r.w.next then 1 else 0 {
      ExecBalance(p, snap, steps, info, offset, rest, w, id);
      assert Count(rest, id) + Times(w.pruned, id) <= 1;
    }
    PrunedApart(r.rest, r.w);
  }
}

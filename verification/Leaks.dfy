/** Nothing leaks: a group that is not in the tree has no slot and no hook, and a key that no
    group of the tree has is subscribed to nothing. */
module Leaks {
  import opened Basics
  import opened Trees
  import opened State
  import opened Programs
  import opened Passes
  import opened Flags
  import opened Census
  import opened Removal
  import Arenas
  import ArenaFacts
  import Hooks
  import opened Pinning

  predicate NoHook(hooks: seq<Hooks.Hook>, id: nat) {
    forall i {:trigger hooks[i]} :: 0 <= i < |hooks| ==> hooks[i].groupId != id
  }

  /** Group id owns nothing. */
  ghost predicate Bare(w: World, id: nat) {
    Slots(w, id) == [] && NoHook(w.hooks, id)
  }

  /** No cell in use has k among its watchers. */
  predicate Quiet(cells: seq<Cell>, k: Key) {
    forall i {:trigger cells[i]} :: 0 <= i < |cells| && cells[i].inUse ==> k !in cells[i].watchers
  }

  /** Of identity id there are n groups, and key k occurs or not. */
  ghost predicate Clear(n: nat, has: bool, w: World, id: nat, k: Key) {
    (n == 0 ==> Bare(w, id)) && (k != 0 && !has ==> Quiet(w.cells, k))
  }

  /** Nothing is held for a group that is not in the tree. */
  ghost predicate Tidy(tree: Forest, w: World) {
    forall id: nat, k {:trigger Count(tree, id), HasKey(tree, k)} :: Clear(Count(tree, id), HasKey(tree, k), w, id, k)
  }

  // ------------------------------------------------------------------ teardown

  lemma {:induction false} KeptNone(hooks: seq<Hooks.Hook>, gone: nat, id: nat)
    requires gone == id || NoHook(hooks, id)
    ensures NoHook(Hooks.Kept(hooks, gone), id)
    decreases |hooks|
  {
    if hooks != [] {
      var last := hooks[|hooks| - 1];
      assert gone == id || last.groupId != id;
      KeptNone(hooks[..|hooks| - 1], gone, id);
    }
  }

  lemma {:induction false} ResetClears(gone: nat, w: World, id: nat)
    requires gone == id || Bare(w, id)
    ensures Bare(Reset(gone, w), id)
  {
    KeptNone(w.hooks, gone, id);
    ArenaFacts.OwnedOthers(w.arena.slots, gone, id);
  }

  lemma {:induction false} TearDownClears(infos: seq<Info>, w: World, id: nat, k: Key, n: nat, has: bool)
    requires Clear(n + CountList(infos, id), has || k in KeysOf(infos), w, id, k)
    ensures Clear(n, has, TearDownAll(infos, w), id, k)
    decreases |infos|
  {
    if infos != [] {
      var info, w1 := infos[0], TearDown(infos[0], w);
      if n + CountList(infos[1..], id) == 0 { ResetClears(info.id, w, id); }
      TearDownClears(infos[1..], w1, id, k, n, has);
    }
  }

  lemma {:induction false} KeysJoin(a: seq<Info>, b: seq<Info>)
    ensures KeysOf(a + b) == KeysOf(a) + KeysOf(b)
    decreases |a|
  {
    if a == [] {
      assert a + b == b;
    } else {
      assert (a + b)[1..] == a[1..] + b;
      KeysJoin(a[1..], b);
    }
  }

  lemma {:induction false} DoomedKeys(f: Forest, k: Key)
    ensures k in KeysOf(Doomed(f)) <==> HasKey(f, k)
  {
    if f.Tree? {
      DoomedKeys(f.kids, k);
      DoomedKeys(f.next, k);
      KeysJoin(Doomed(f.next) + Doomed(f.kids), [f.info]);
      KeysJoin(Doomed(f.next), Doomed(f.kids));
      assert KeysOf([f.info]) == {f.info.key} + KeysOf([f.info][1..]);
    }
  }

  lemma {:induction false} VictimKeys(f: Forest, k: Key)
    ensures k in KeysOf(Victims(f)) <==> HasKey(f, k)
  {
    if f.Tree? {
      var t := Tree(f.info, f.kids, Nil);
      DoomedKeys(t, k);
      VictimKeys(f.next, k);
      KeysJoin(Doomed(t), Victims(f.next));
    }
  }

  lemma {:induction false} PruneClears(f: Forest, w: World, id: nat, k: Key, n: nat, has: bool)
    requires Clear(n + Count(f, id), has || HasKey(f, k), w, id, k)
    ensures Clear(n, has, Prune(f, w), id, k)
  {
    PruneIsTearDown(f, w);
    CountVictims(f, id);
    VictimKeys(f, k);
    TearDownClears(Victims(f), w, id, k, n, has);
  }

  // ------------------------------------------------------------------ executions

  lemma {:induction false} RegisterNone(hooks: seq<Hooks.Hook>, h: Hooks.Hook, i: nat, id: nat)
    requires i <= |hooks| && h.groupId != id && NoHook(hooks, id)
    ensures NoHook(Hooks.Register(hooks, h), id) && NoHook(Hooks.Update(hooks, h, i), id)
    decreases |hooks| - i
  {
    if i < |hooks| {
      RegisterNone(hooks, h, i + 1, id);
    }
  }

  lemma {:induction false} MountHooks(size: nat, info: Info, offset: nat, w: World)
    ensures Mount(size, info, offset, w).w.hooks == w.hooks
  {}

  lemma {:induction false} RememberNone(size: nat, info: Info, offset: nat, w: World, id: nat)
    requires info.id != id && NoHook(w.hooks, id)
    ensures NoHook(ApplyRemember(size, info, offset, w).w.hooks, id)
  {
    hide Mount, Arenas.Lookup;
    KeptNone(w.hooks, info.id, id);
    if info.mount {
      MountHooks(size, info, offset, w);
    } else {
      match Arenas.Lookup(w.arena, info.id, offset)
      case None =>
      case Some(i) => MountHooks(size, info.(mount := true), offset,
          Reset(info.id, w.(arena := w.arena.(hint := i + 1))));
    }
  }

  /** A step of a group concerns that group and its key only. */
  lemma {:induction false} StepClears(s: Step, info: Info, offset: nat, w: World, id: nat, k: Key, n: nat, has: bool)
    requires !s.Call? && (info.id == id ==> n > 0) && (info.key == k ==> has) && Clear(n, has, w, id, k)
    ensures Clear(n, has, Apply(s, info, offset, w).w, id, k)
  {
    hide ApplyRemember;
    match s
    case Own(instance) => if n == 0 { RegisterNone(w.hooks, Hooks.Hook(info.key, info.id, instance, true), 0, id); }
    case Remember(size) =>
      RememberKeeps(size, info, offset, w);
      RememberCells(size, info, offset, w);
      if n == 0 {
        RememberElsewhere(size, info, offset, w, id);
        RememberNone(size, info, offset, w, id);
      }
    case _ =>
  }

  lemma {:induction false} RememberCells(size: nat, info: Info, offset: nat, w: World)
    ensures ApplyRemember(size, info, offset, w).w.cells == w.cells
  {}

  /** n counts the group in the tree elsewhere, has says whether the key occurs elsewhere. */
  lemma {:induction false} StepsClear(p: Program, snap: Snapshot, steps: seq<Step>, info: Info, offset: nat,
                                      rest: Forest, w: World,
                                      id: nat, k: Key, n: nat, has: bool)
    requires Ready(p, info.key, steps) && (info.id == id ==> n > 0) && (info.key == k ==> has)
    requires Clear(n + Count(rest, id), has || HasKey(rest, k), w, id, k)
    ensures var r := Exec(p, snap, steps, info, offset, rest, w);
            Clear(n + Count(r.done, id) + Count(r.rest, id), has || HasKey(r.done, k) || HasKey(r.rest, k), r.w, id, k)
    decreases MAX_DEPTH - |p.path(info.key)|, |steps|
  {
    hide Arenas.Lookup;
    hide Visit, Apply, Clear;
    if steps != [] {
      if steps[0].Call? {
        var c := steps[0].child;
        assert Emits(p, info.key, c);
        var v := Visit(p, snap, c, rest, w);
        var r := Exec(p, snap, steps[1..], info, offset, v.rest, v.w);
        VisitClears(p, snap, c, rest, w, id, k, n, has);
        StepsClear(p, snap, steps[1..], info, offset, v.rest, v.w, id, k, n + Count(v.done, id),
                   has || HasKey(v.done, k));
        CountAppend(v.done, r.done, id);
        KeyAppend(v.done, r.done, k);
      } else {
        var a := Apply(steps[0], info, offset, w);
        ApplyKeeps(steps[0], info, offset, w);
        StepClears(steps[0], info, offset, w, id, k, n + Count(rest, id), has || HasKey(rest, k));
        StepsClear(p, snap, steps[1..], a.info, a.offset, rest, a.w, id, k, n, has);
      }
    }
  }

  lemma {:induction false} KeyAppend(f: Forest, g: Forest, k: Key)
    ensures HasKey(Append(f, g), k) <==> HasKey(f, k) || HasKey(g, k)
  {
    if f.Tree? {
      KeyAppend(f.next, g, k);
    }
  }

  lemma {:induction false} KeyPick(f: Forest, c: Key, k: Key)
    requires HasRoot(f, c)
    ensures HasKey(f, k) <==> HasKey(Pick(f, c), k) || HasKey(Drop(f, c), k)
  {
    if f.info.key != c {
      KeyPick(f.next, c, k);
    }
  }

  lemma {:induction false} VisitClears(p: Program, snap: Snapshot, c: Key, rest: Forest, w: World,
                                       id: nat, k: Key, n: nat, has: bool)
    requires WellFormed(p) && 0 < |p.path(c)| <= MAX_DEPTH
    requires Clear(n + Count(rest, id), has || HasKey(rest, k), w, id, k)
    ensures var v := Visit(p, snap, c, rest, w);
            Clear(n + Count(v.done, id) + Count(v.rest, id), has || HasKey(v.done, k) || HasKey(v.rest, k), v.w, id, k)
    decreases MAX_DEPTH - |p.path(c)| + 1, 0
  {
    hide RunBody, Arenas.Owned, NoHook, Quiet, Pick, Drop;
    if HasRoot(rest, c) {
      var t, rest' := Pick(rest, c), Drop(rest, c);
      CountPick(rest, c, id);
      KeyPick(rest, c, k);
      assert Count(t.next, id) == 0 && !HasKey(t.next, k);
      if Dirty(t.info) {
        BodyClears(p, snap, Cleared(t.info), t.kids, w, id, k, n + Count(rest', id), has || HasKey(rest', k));
      }
    } else if w.room > 0 {
      BodyClears(p, snap, NewGroup(c, w.next), Nil, w.(next := w.next + 1, room := w.room - 1), id, k,
                 n + Count(rest, id), has || HasKey(rest, k));
    }
  }

  lemma {:induction false} BodyClears(p: Program, snap: Snapshot, info: Info, kids: Forest, w: World,
                                      id: nat, k: Key, n: nat, has: bool)
    requires WellFormed(p) && |p.path(info.key)| <= MAX_DEPTH
    requires Clear(n + (if info.id == id then 1 else 0) + Count(kids, id), has || info.key == k || HasKey(kids, k),
                   w, id, k)
    ensures var b := RunBody(p, snap, info, kids, w); Clear(n + Count(b.done, id), has || HasKey(b.done, k), b.w, id, k)
    decreases MAX_DEPTH - |p.path(info.key)|, |p.body(info.key, snap)| + 1
  {
    hide Exec, Prune, Arenas.Owned, NoHook, Quiet;
    var steps, w1, one := p.body(info.key, snap), w.(ran := w.ran + [info.id]), if info.id == id then 1 else 0;
    assert Nested(p, info.key, steps);
    var r := Exec(p, snap, steps, info, 0, kids, w1);
    StepsClear(p, snap, steps, info, 0, kids, w1, id, k, n + one, has || info.key == k);
    ExecGrows(p, snap, steps, info, 0, kids, w1);
    PruneClears(r.rest, r.w, id, k, n + one + Count(r.done, id), has || info.key == k || HasKey(r.done, k));
    assert Count(Nil, id) == 0 && !HasKey(Nil, k);
  }

  lemma {:induction false} PassClears(p: Program, snap: Snapshot, tree: Forest, w: World, id: nat, k: Key)
    requires WellFormed(p) && (tree.Tree? ==> tree.next == Nil) && Clear(Count(tree, id), HasKey(tree, k), w, id, k)
    ensures var b := Pass(p, snap, tree, w); Clear(Count(b.done, id), HasKey(b.done, k), b.w, id, k)
  {
    hide RunBody, Prune;
    assert Count(Nil, id) == 0 && !HasKey(Nil, k);
    if tree.Tree? && tree.info.key == p.root {
      BodyClears(p, snap, tree.info, tree.kids, w, id, k, 0, false);
    } else {
      var w1 := Prune(tree, w);
      PruneClears(tree, w, id, k, 0, false);
      BodyClears(p, snap, NewGroup(p.root, w1.next), Nil,
                 w1.(next := w1.next + 1, room := if w1.room > 0 then w1.room - 1 else 0), id, k, 0, false);
    }
  }

  /** A pass leaves nothing behind for groups that are not in the tree it leaves. */
  lemma {:induction false} PassTidies(p: Program, snap: Snapshot, tree: Forest, w: World)
    requires WellFormed(p) && (tree.Tree? ==> tree.next == Nil) && Tidy(tree, w)
    ensures var b := Pass(p, snap, tree, w); Tidy(b.done, b.w)
  {
    var b := Pass(p, snap, tree, w);
    forall id: nat, k ensures Clear(Count(b.done, id), HasKey(b.done, k), b.w, id, k) {
      assert Clear(Count(tree, id), HasKey(tree, k), w, id, k);
      PassClears(p, snap, tree, w, id, k);
    }
  }
}

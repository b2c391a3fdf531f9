/** One recomposition pass as a function on trees: which bodies run, and what becomes of
    the children of each group that runs. */
module Passes {
  import opened Basics
  import opened Trees
  import opened State
  import opened Programs

  // ------------------------------------------------------------------ matching children

  predicate HasRoot(f: Forest, k: Key) {
    f.Tree? && (f.info.key == k || HasRoot(f.next, k))
  }

  /** The first tree of f whose root has key k. */
  function Pick(f: Forest, k: Key): (t: Forest)
    requires HasRoot(f, k)
    ensures t.Tree? && t.info.key == k && t.next == Nil
  {
    if f.info.key == k then Tree(f.info, f.kids, Nil) else Pick(f.next, k)
  }

  /** f without the first tree whose root has key k. */
  function Drop(f: Forest, k: Key): Forest
    requires HasRoot(f, k)
  {
    if f.info.key == k then f.next else Tree(f.info, f.kids, Drop(f.next, k))
  }

  // ------------------------------------------------------------------ teardown

  /** Records of a forest in the order a prune visits them: the reverse of preorder. */
  function Doomed(f: Forest): seq<Info> {
    match f
    case Nil => []
    case Tree(info, kids, next) => Doomed(next) + Doomed(kids) + [info]
  }

  function TearDown(info: Info, w: World): World {
    Reset(info.id, w).(cells := Unsubscribe(w.cells, info.key), room := w.room + 1, pruned := w.pruned + [info.id])
  }

  function TearDownAll(infos: seq<Info>, w: World): World {
    if infos == [] then w else TearDownAll(infos[1..], TearDown(infos[0], w))
  }

  /** Prunes the trees of f one after the other. */
  function Prune(f: Forest, w: World): World {
    match f
    case Nil => w
    case Tree(info, kids, next) => Prune(next, TearDownAll(Doomed(Tree(info, kids, Nil)), w))
  }

  // ------------------------------------------------------------------ executing bodies

  function NewGroup(k: Key, id: nat): Info {
    Info(k, id, false, false, true, 0, 0)
  }

  /** A matched group that is about to run again. */
  function Cleared(info: Info): Info {
    info.(inv := false, cinv := false)
  }

  const COUNT_WRAP: nat := 0x1_0000     // the slot count of a record is 16 bits wide

  /** The record of a group as its body exits with the given slot offset. */
  function Sealed(info: Info, offset: nat): Info {
    if info.mount then info.(slotCount := offset % COUNT_WRAP, mount := false) else info
  }

  predicate Dirty(info: Info) {
    info.inv || info.cinv
  }

  /** done: the children visited; rest: the old children not visited yet. */
  datatype Run = Run(info: Info, offset: nat, done: Forest, rest: Forest, w: World)

  ghost predicate Ready(p: Program, q: Key, steps: seq<Step>) {
    WellFormed(p) && |p.path(q)| <= MAX_DEPTH && Nested(p, q, steps)
  }

  /** Runs the remaining steps of the body of group `info`. */
  ghost function Exec(p: Program, snap: Snapshot, steps: seq<Step>, info: Info, offset: nat, rest: Forest,
                      w: World): Run
    requires Ready(p, info.key, steps)
    decreases MAX_DEPTH - |p.path(info.key)|, |steps|
  {
    if steps == [] then Run(info, offset, Nil, rest, w)
    else if steps[0].Call? then
      assert Emits(p, info.key, steps[0].child);
      var v := Visit(p, snap, steps[0].child, rest, w);
      var r := Exec(p, snap, steps[1..], info, offset, v.rest, v.w);
      r.(done := Append(v.done, r.done))
    else
      var a := Apply(steps[0], info, offset, w);
      Exec(p, snap, steps[1..], a.info, a.offset, rest, a.w)
  }

  /** What entering child k comes to. */
  datatype Entry =
    | Skip(done: Forest, rest: Forest, w: World)                // clean, or refused: done is empty
    | Enter(info: Info, kids: Forest, rest: Forest, w: World)   // the body runs

  function Admit(k: Key, rest: Forest, w: World): Entry {
    if HasRoot(rest, k) then
      var t := Pick(rest, k);
      if Dirty(t.info) then Enter(Cleared(t.info), t.kids, Drop(rest, k), w) else Skip(t, Drop(rest, k), w)
    else if w.room == 0 then Skip(Nil, rest, w.(full := true))
    else Enter(NewGroup(k, w.next), Nil, rest, w.(next := w.next + 1, room := w.room - 1))
  }

  datatype Visited = Visited(done: Forest, rest: Forest, w: World)

  /** Enters child k, runs its body unless it is clean, and exits. */
  ghost function Visit(p: Program, snap: Snapshot, k: Key, rest: Forest, w: World): Visited
    requires WellFormed(p) && 0 < |p.path(k)| <= MAX_DEPTH
    decreases MAX_DEPTH - |p.path(k)| + 1, 0
  {
    match Admit(k, rest, w)
    case Skip(done, rest', w') => Visited(done, rest', w')
    case Enter(info, kids, rest', w') =>
      var b := RunBody(p, snap, info, kids, w');
      Visited(b.done, rest', b.w)
  }

  /** Runs the body of an open group and exits it, pruning the children it left out. */
  ghost function RunBody(p: Program, snap: Snapshot, info: Info, kids: Forest, w: World): Visited
    requires WellFormed(p) && |p.path(info.key)| <= MAX_DEPTH
    decreases MAX_DEPTH - |p.path(info.key)|, |p.body(info.key, snap)| + 1
  {
    assert Nested(p, info.key, p.body(info.key, snap));
    var r := Exec(p, snap, p.body(info.key, snap), info, 0, kids, w.(ran := w.ran + [info.id]));
    Visited(Tree(Sealed(r.info, r.offset), r.done, Nil), Nil, Prune(r.rest, r.w))
  }

  /** Enters the root composition, mounting it when the table holds none, and runs it. */
  ghost function Pass(p: Program, snap: Snapshot, tree: Forest, w: World): Visited
    requires WellFormed(p)
  {
    if tree.Tree? && tree.info.key == p.root then RunBody(p, snap, tree.info, tree.kids, w)
    else
      var w1 := Prune(tree, w);
      RunBody(p, snap, NewGroup(p.root, w1.next), Nil,
          w1.(next := w1.next + 1, room := if w1.room > 0 then w1.room - 1 else 0))
  }

  // ------------------------------------------------------------------ what only grows

  /** Over a pass identities are used up, logs are appended to and failures stay marked. */
  ghost predicate Sticky(w: World, w': World) {
    && w.next <= w'.next
    && w.ran <= w'.ran && w.pruned <= w'.pruned
    && (w.full ==> w'.full) && (w.missed ==> w'.missed) && (w.starved ==> w'.starved)
  }

  /** Moreover no cell changes except in its watchers: every read of a pass sees the values
      published before it. */
  ghost predicate Grows(w: World, w': World) {
    Sticky(w, w') && OnlyWatchers(w.cells, w'.cells)
  }

  lemma {:induction false} GrowsTrans(w1: World, w2: World, w3: World)
    requires Grows(w1, w2) && Grows(w2, w3)
    ensures Grows(w1, w3)
  {}

  /** A teardown allocates nothing and runs no body. */
  lemma {:induction false} TearDownGrows(infos: seq<Info>, w: World)
    ensures var w' := TearDownAll(infos, w);
            && Grows(w, w') && w'.next == w.next && w'.ran == w.ran && w'.queue == w.queue
            && w'.full == w.full && w'.missed == w.missed && w'.starved == w.starved
    decreases |infos|
  {
    if infos != [] {
      var w1 := TearDown(infos[0], w);
      if infos[0].key != 0 { UnsubscribeRemoves(w.cells, infos[0].key, 0, 0); }
      TearDownGrows(infos[1..], w1);
      GrowsTrans(w, w1, TearDownAll(infos, w));
    }
  }

  lemma {:induction false} PruneGrows(f: Forest, w: World)
    ensures var w' := Prune(f, w);
            && Grows(w, w') && w'.next == w.next && w'.ran == w.ran && w'.queue == w.queue
            && w'.full == w.full && w'.missed == w.missed && w'.starved == w.starved
  {
    if f.Tree? {
      var infos := Doomed(Tree(f.info, f.kids, Nil));
      var w1 := TearDownAll(infos, w);
      TearDownGrows(infos, w);
      PruneGrows(f.next, w1);
      GrowsTrans(w, w1, Prune(f, w));
    }
  }

  lemma {:induction false} ExecGrows(p: Program, snap: Snapshot, steps: seq<Step>, info: Info, offset: nat,
                                     rest: Forest, w: World)
    requires Ready(p, info.key, steps)
    ensures var r := Exec(p, snap, steps, info, offset, rest, w);
            && Grows(w, r.w) && r.info.id == info.id && r.info.key == info.key
            && r.info.inv == info.inv && r.info.cinv == info.cinv
    decreases MAX_DEPTH - |p.path(info.key)|, |steps|
  {
    hide Visit, Apply;
    if steps != [] {
      if steps[0].Call? {
        assert Emits(p, info.key, steps[0].child);
        VisitGrows(p, snap, steps[0].child, rest, w);
        var v := Visit(p, snap, steps[0].child, rest, w);
        ExecGrows(p, snap, steps[1..], info, offset, v.rest, v.w);
        GrowsTrans(w, v.w, Exec(p, snap, steps, info, offset, rest, w).w);
      } else {
        var a := Apply(steps[0], info, offset, w);
        ApplyKeeps(steps[0], info, offset, w);
        ExecGrows(p, snap, steps[1..], a.info, a.offset, rest, a.w);
        GrowsTrans(w, a.w, Exec(p, snap, steps, info, offset, rest, w).w);
      }
    }
  }

  /** A visit yields the first old child with the key, or a group with a new identity, or
      nothing when the table is full. */
  ghost predicate Yields(k: Key, rest: Forest, w: World, v: Visited) {
    && (v.done == Nil ==> v.w.full)
    && (v.done.Tree? ==>
          && v.done.next == Nil && v.done.info.key == k
          && v.done.info.id == (if HasRoot(rest, k) then Pick(rest, k).info.id else w.next))
  }

  lemma {:induction false} VisitGrows(p: Program, snap: Snapshot, k: Key, rest: Forest, w: World)
    requires WellFormed(p) && 0 < |p.path(k)| <= MAX_DEPTH
    ensures var v := Visit(p, snap, k, rest, w);
            Grows(w, v.w) && Yields(k, rest, w, v)
    decreases MAX_DEPTH - |p.path(k)| + 1, 0
  {
    hide RunBody, Prune;
    if HasRoot(rest, k) {
      var t := Pick(rest, k);
      if Dirty(t.info) {
        RunBodyGrows(p, snap, Cleared(t.info), t.kids, w);
      }
    } else if w.room > 0 {
      var w1 := w.(next := w.next + 1, room := w.room - 1);
      RunBodyGrows(p, snap, NewGroup(k, w.next), Nil, w1);
      GrowsTrans(w, w1, Visit(p, snap, k, rest, w).w);
    }
  }

  lemma {:induction false} RunBodyGrows(p: Program, snap: Snapshot, info: Info, kids: Forest, w: World)
    requires WellFormed(p) && |p.path(info.key)| <= MAX_DEPTH
    ensures var b := RunBody(p, snap, info, kids, w);
            && Grows(w, b.w)
            && b.done.Tree? && b.done.next == Nil && b.done.info.id == info.id && b.done.info.key == info.key
            && b.done.info.inv == info.inv && b.done.info.cinv == info.cinv && !b.done.info.mount
            && info.id in b.w.ran
    decreases MAX_DEPTH - |p.path(info.key)|, |p.body(info.key, snap)| + 1
  {
    var w1 := w.(ran := w.ran + [info.id]);
    ExecGrows(p, snap, p.body(info.key, snap), info, 0, kids, w1);
    var r := Exec(p, snap, p.body(info.key, snap), info, 0, kids, w1);
    PruneGrows(r.rest, r.w);
    GrowsTrans(w1, r.w, Prune(r.rest, r.w));
    GrowsTrans(w, w1, Prune(r.rest, r.w));
    assert w1.ran[|w.ran|] == info.id;
  }

  /** Over a whole pass. */
  lemma {:induction false} PassGrows(p: Program, snap: Snapshot, tree: Forest, w: World)
    requires WellFormed(p)
    ensures var b := Pass(p, snap, tree, w); Grows(w, b.w) && b.done.Tree? && b.done.next == Nil
  {
    if tree.Tree? && tree.info.key == p.root {
      RunBodyGrows(p, snap, tree.info, tree.kids, w);
    } else {
      PruneGrows(tree, w);
      RootGrows(p, snap, w, Prune(tree, w));
    }
  }

  lemma {:induction false} RootGrows(p: Program, snap: Snapshot, w: World, w1: World)
    requires WellFormed(p) && Grows(w, w1)
    ensures var b := RunBody(p, snap, NewGroup(p.root, w1.next), Nil,
            w1.(next := w1.next + 1, room := if w1.room > 0 then w1.room - 1 else 0));
            Grows(w, b.w) && b.done.Tree? && b.done.next == Nil
  {
    var w2 := w1.(next := w1.next + 1, room := if w1.room > 0 then w1.room - 1 else 0);
    RunBodyGrows(p, snap, NewGroup(p.root, w1.next), Nil, w2);
    GrowsTrans(w, w1, w2);
    GrowsTrans(w, w2, RunBody(p, snap, NewGroup(p.root, w1.next), Nil, w2).w);
  }
}

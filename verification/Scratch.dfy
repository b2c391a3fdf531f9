/** Composition from an empty table, and why re-running only dirty bodies rebuilds it. */
module Scratch {
  import opened Basics
  import opened Trees
  import opened State
  import opened Programs
  import opened Passes

  /** A tree of keys: what a composition looks like from outside. */
  datatype Shape = Bare | Limb(key: Key, kids: Shape, next: Shape)

  function ShapeOf(f: Forest): Shape {
    match f
    case Nil => Bare
    case Tree(info, kids, next) => Limb(info.key, ShapeOf(kids), ShapeOf(next))
  }

  /** The children that the steps of group q compose from nothing. */
  ghost function Compose(p: Program, snap: Snapshot, q: Key, steps: seq<Step>): Shape
    requires Ready(p, q, steps)
    decreases MAX_DEPTH - |p.path(q)|, |steps|
  {
    if steps == [] then Bare
    else if steps[0].Call? then
      var k := steps[0].child;
      assert Emits(p, q, k);
      Limb(k, ComposeBody(p, snap, k), Compose(p, snap, q, steps[1..]))
    else Compose(p, snap, q, steps[1..])
  }

  ghost function ComposeBody(p: Program, snap: Snapshot, k: Key): Shape
    requires WellFormed(p) && |p.path(k)| <= MAX_DEPTH
    decreases MAX_DEPTH - |p.path(k)|, |p.body(k, snap)| + 1
  {
    assert Nested(p, k, p.body(k, snap));
    Compose(p, snap, k, p.body(k, snap))
  }

  /** Every clean group of f has the children that composing it from nothing would give. */
  ghost predicate Current(p: Program, snap: Snapshot, f: Forest)
    requires WellFormed(p)
  {
    f.Tree? ==>
      && |p.path(f.info.key)| <= MAX_DEPTH
      && (!Dirty(f.info) ==> ShapeOf(f.kids) == ComposeBody(p, snap, f.info.key))
      && Current(p, snap, f.kids)
      && Current(p, snap, f.next)
  }

  lemma {:induction false} ShapeAppend(t: Forest, g: Forest)
    requires t.Tree? && t.next == Nil
    ensures ShapeOf(Append(t, g)) == Limb(t.info.key, ShapeOf(t.kids), ShapeOf(g))
  {
    assert Append(t, g) == Tree(t.info, t.kids, g);
  }

  lemma {:induction false} CurrentPick(p: Program, snap: Snapshot, f: Forest, k: Key)
    requires WellFormed(p) && Current(p, snap, f) && HasRoot(f, k)
    ensures Current(p, snap, Pick(f, k)) && Current(p, snap, Drop(f, k))
  {
    if f.info.key != k {
      CurrentPick(p, snap, f.next, k);
    }
  }

  // ------------------------------------------------------------------ rebuilding

  /** When the clean groups among the old children are current and no group was refused,
      the visited children are the ones composed from nothing. */
  lemma {:induction false} ExecComposes(p: Program, snap: Snapshot, steps: seq<Step>, info: Info, offset: nat,
                                        rest: Forest, w: World)
    requires Ready(p, info.key, steps) && Current(p, snap, rest)
    requires !Exec(p, snap, steps, info, offset, rest, w).w.full
    ensures var r := Exec(p, snap, steps, info, offset, rest, w);
            ShapeOf(r.done) == Compose(p, snap, info.key, steps) && r.info.key == info.key
    decreases MAX_DEPTH - |p.path(info.key)|, |steps|
  {
    if steps != [] {
      if steps[0].Call? {
        var k := steps[0].child;
        assert Emits(p, info.key, k);
        var v := Visit(p, snap, k, rest, w);
        ExecGrows(p, snap, steps[1..], info, offset, v.rest, v.w);
        VisitComposes(p, snap, k, rest, w);
        ExecComposes(p, snap, steps[1..], info, offset, v.rest, v.w);
        ShapeAppend(v.done, Exec(p, snap, steps[1..], info, offset, v.rest, v.w).done);
      } else {
        var a := Apply(steps[0], info, offset, w);
        ApplyKeeps(steps[0], info, offset, w);
        ExecComposes(p, snap, steps[1..], a.info, a.offset, rest, a.w);
      }
    }
  }

  lemma {:induction false} VisitComposes(p: Program, snap: Snapshot, k: Key, rest: Forest, w: World)
    requires WellFormed(p) && 0 < |p.path(k)| <= MAX_DEPTH && Current(p, snap, rest)
    requires !Visit(p, snap, k, rest, w).w.full
    ensures var v := Visit(p, snap, k, rest, w);
            && v.done.Tree? && v.done.next == Nil && v.done.info.key == k
            && ShapeOf(v.done.kids) == ComposeBody(p, snap, k)
            && Current(p, snap, v.rest)
    decreases MAX_DEPTH - |p.path(k)| + 1, 0
  {
    if HasRoot(rest, k) {
      var t := Pick(rest, k);
      CurrentPick(p, snap, rest, k);
      if Dirty(t.info) {
        RunBodyComposes(p, snap, Cleared(t.info), t.kids, w);
      }
    } else {
      RunBodyComposes(p, snap, NewGroup(k, w.next), Nil, w.(next := w.next + 1, room := w.room - 1));
    }
  }

  lemma {:induction false} RunBodyComposes(p: Program, snap: Snapshot, info: Info, kids: Forest, w: World)
    requires WellFormed(p) && |p.path(info.key)| <= MAX_DEPTH && Current(p, snap, kids)
    requires !RunBody(p, snap, info, kids, w).w.full
    ensures var b := RunBody(p, snap, info, kids, w);
            && b.done.Tree? && b.done.next == Nil && b.done.info.key == info.key
            && ShapeOf(b.done.kids) == ComposeBody(p, snap, info.key)
    decreases MAX_DEPTH - |p.path(info.key)|, |p.body(info.key, snap)| + 1
  {
    var w1 := w.(ran := w.ran + [info.id]);
    var r := Exec(p, snap, p.body(info.key, snap), info, 0, kids, w1);
    PruneGrows(r.rest, r.w);
    ExecComposes(p, snap, p.body(info.key, snap), info, 0, kids, w1);
  }
}

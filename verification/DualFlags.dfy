/** Invalidation and parent links in the stand-alone slot table. */
module DualFlags {
  import opened Basics
  import opened DualTables
  import W = DualWriter

  // ------------------------------------------------------------------ climbing

  function Marked(es: seq<Entry>, i: nat): (r: seq<Entry>)
    requires i < |es|
    ensures |r| == |es|
  {
    es[i := es[i].(cinv := true)]
  }

  /** Marks the groups from p upwards; stops at the first marked one, at a dangling link, or
      after the given number of steps. */
  function Climb(es: seq<Entry>, p: Option<nat>, steps: nat): (r: seq<Entry>)
    ensures |r| == |es|
    decreases steps
  {
    if steps == 0 || p.None? || p.value >= |es| || es[p.value].cinv then es
    else Climb(Marked(es, p.value), es[p.value].parent, steps - 1)
  }

  /** Marks the groups from p all the way up. */
  function ClimbAll(es: seq<Entry>, p: Option<nat>): (r: seq<Entry>)
    requires Linked(es) && (p.Some? ==> p.value < |es|)
    ensures |r| == |es| && Linked(r)
    decreases if p.Some? then p.value + 1 else 0
  {
    if p.None? then es
    else
      var q := es[p.value].parent;
      assert Linked(Marked(es, p.value));
      ClimbAll(Marked(es, p.value), q)
  }

  /** Every parent link points backwards. */
  predicate Linked(es: seq<Entry>) {
    forall i {:trigger es[i]} :: 0 <= i < |es| && es[i].parent.Some? ==> es[i].parent.value < i
  }

  /** Dirtiness is upward closed: the parent of a dirty group knows. */
  predicate Upward(es: seq<Entry>) {
    forall i {:trigger es[i]} ::
      0 <= i < |es| && es[i].parent.Some? && es[i].parent.value < |es| && (es[i].inv || es[i].cinv) ==>
        es[es[i].parent.value].cinv
  }

  /** Like Upward, but for the children of the groups that a climb from p has yet to mark. */
  predicate UpwardBut(es: seq<Entry>, p: Option<nat>) {
    forall i {:trigger es[i]} ::
      0 <= i < |es| && es[i].parent.Some? && es[i].parent != p
      && es[i].parent.value < |es| && (es[i].inv || es[i].cinv) ==>
        es[es[i].parent.value].cinv
  }

  /** Above a marked group everything is marked already. */
  lemma {:induction false} MarkedAbove(es: seq<Entry>, p: Option<nat>)
    requires Linked(es) && Upward(es) && (p.Some? ==> p.value < |es| && es[p.value].cinv)
    ensures ClimbAll(es, p) == es
    decreases if p.Some? then p.value + 1 else 0
  {
    if p.Some? {
      var q := es[p.value].parent;
      assert Marked(es, p.value) == es;
      MarkedAbove(es, q);
    }
  }

  /** When the climb has reached the top or a marked group, the parents of all dirty groups know. */
  lemma {:induction false} ClimbEnds(es: seq<Entry>, p: Option<nat>)
    requires UpwardBut(es, p) && (p.Some? ==> p.value < |es| && es[p.value].cinv)
    ensures Upward(es)
  {}

  /** One step of the climb. */
  lemma {:induction false} ClimbStep(es: seq<Entry>, i: nat)
    requires Linked(es) && i < |es| && UpwardBut(es, Some(i))
    ensures Linked(Marked(es, i)) && UpwardBut(Marked(es, i), es[i].parent)
    ensures es[i].parent.Some? ==> es[i].parent.value < i
  {}

  /** Stopping at the first marked ancestor loses nothing, and the step bound never ends the
      climb. */
  lemma {:induction false} EarlyStop(es: seq<Entry>, p: Option<nat>, steps: nat)
    requires Linked(es) && UpwardBut(es, p) && (p.Some? ==> p.value < |es| && p.value < steps)
    ensures Climb(es, p, steps) == ClimbAll(es, p)
    ensures Upward(ClimbAll(es, p)) && Linked(ClimbAll(es, p))
    decreases steps
  {
    hide Linked, Upward, UpwardBut, Marked;
    if p.None? || es[p.value].cinv {
      ClimbEnds(es, p);
      MarkedAbove(es, p);
    } else {
      ClimbStep(es, p.value);
      EarlyStop(Marked(es, p.value), es[p.value].parent, steps - 1);
    }
  }

  /** What invalidating group i does when the climb goes all the way. */
  function Invalidated(es: seq<Entry>, i: nat): (r: seq<Entry>)
    requires Linked(es) && i < |es|
    ensures |r| == |es| && Linked(r)
  {
    var fs := es[i := es[i].(inv := true)];
    assert Linked(fs);
    ClimbAll(fs, es[i].parent)
  }

  /** Invalidation keeps dirtiness upward closed, so over any run of invalidations between
      two full clears every climb may stop early. */
  lemma {:induction false} InvalidatedUpward(es: seq<Entry>, i: nat)
    requires Linked(es) && Upward(es) && i < |es|
    ensures Upward(Invalidated(es, i)) && Linked(Invalidated(es, i))
    ensures EarlyInvalidated(es, i) == Invalidated(es, i)
  {
    EarlyStop(es[i := es[i].(inv := true)], es[i].parent, |es|);
  }

  /** What the table does when group i is invalidated: the climb stops early. */
  function EarlyInvalidated(es: seq<Entry>, i: nat): (r: seq<Entry>)
    requires i < |es|
    ensures |r| == |es|
  {
    Climb(es[i := es[i].(inv := true)], es[i].parent, |es|)
  }

  predicate Within(targets: seq<nat>, n: nat) {
    forall j :: 0 <= j < |targets| ==> targets[j] < n
  }

  function EarlyAll(es: seq<Entry>, targets: seq<nat>): seq<Entry>
    requires Within(targets, |es|)
    decreases |targets|
  {
    if targets == [] then es else EarlyAll(EarlyInvalidated(es, targets[0]), targets[1..])
  }

  function FullAll(es: seq<Entry>, targets: seq<nat>): seq<Entry>
    requires Linked(es) && Within(targets, |es|)
    decreases |targets|
  {
    if targets == [] then es else FullAll(Invalidated(es, targets[0]), targets[1..])
  }

  /** Over any run of invalidations early stops give the flags of full climbs, and keep
      dirtiness upward closed. */
  lemma {:induction false} RunsAgree(es: seq<Entry>, targets: seq<nat>)
    requires Linked(es) && Upward(es) && Within(targets, |es|)
    ensures EarlyAll(es, targets) == FullAll(es, targets) && Upward(EarlyAll(es, targets))
    decreases |targets|
  {
    if targets != [] {
      InvalidatedUpward(es, targets[0]);
      RunsAgree(Invalidated(es, targets[0]), targets[1..]);
    }
  }

  // ------------------------------------------------------------------ which groups are marked

  /** Following the links from p upwards comes to group a. */
  predicate Reaches(es: seq<Entry>, a: nat, p: Option<nat>)
    requires Linked(es)
    decreases if p.Some? then p.value + 1 else 0
  {
    p.Some? && p.value < |es| && (p.value == a || Reaches(es, a, es[p.value].parent))
  }

  lemma {:induction false} ReachesSame(es: seq<Entry>, fs: seq<Entry>, a: nat, p: Option<nat>)
    requires Linked(es) && Linked(fs) && |es| == |fs|
    requires forall j {:trigger fs[j]} :: 0 <= j < |es| ==> fs[j].parent == es[j].parent
    ensures Reaches(es, a, p) == Reaches(fs, a, p)
    decreases if p.Some? then p.value + 1 else 0
  {
    if p.Some? && p.value < |es| && p.value != a {
      ReachesSame(es, fs, a, es[p.value].parent);
    }
  }

  /** A climb to the top marks the groups it comes to and changes nothing else. */
  lemma {:induction false} ClimbAllMarks(es: seq<Entry>, p: Option<nat>, j: nat)
    requires Linked(es) && (p.Some? ==> p.value < |es|) && j < |es|
    ensures ClimbAll(es, p)[j] == es[j].(cinv := es[j].cinv || Reaches(es, j, p))
    decreases if p.Some? then p.value + 1 else 0
  {
    if p.Some? {
      var fs := Marked(es, p.value);
      assert Linked(fs);
      ClimbAllMarks(fs, es[p.value].parent, j);
      ReachesSame(es, fs, j, es[p.value].parent);
    }
  }

  /** Invalidating group i marks it, tells every group above it, and changes nothing else. */
  lemma {:induction false} InvalidatesExactly(es: seq<Entry>, i: nat, j: nat)
    requires Linked(es) && Upward(es) && i < |es| && j < |es|
    ensures EarlyInvalidated(es, i)[j] ==
            es[j].(inv := es[j].inv || j == i, cinv := es[j].cinv || Reaches(es, j, es[i].parent))
  {
    var fs := es[i := es[i].(inv := true)];
    assert Linked(fs);
    InvalidatedUpward(es, i);
    ClimbAllMarks(fs, es[i].parent, j);
    ReachesSame(es, fs, j, es[i].parent);
  }

  /** Group j is above one of the targets. */
  predicate AboveAny(es: seq<Entry>, targets: seq<nat>, j: nat)
    requires Linked(es) && Within(targets, |es|)
  {
    exists n :: 0 <= n < |targets| && Reaches(es, j, es[targets[n]].parent)
  }

  lemma {:induction false} AboveFirst(es: seq<Entry>, targets: seq<nat>, j: nat)
    requires Linked(es) && Within(targets, |es|) && targets != []
    ensures Within(targets[1..], |es|)
    ensures AboveAny(es, targets, j) <==> Reaches(es, j, es[targets[0]].parent) || AboveAny(es, targets[1..], j)
  {
    hide Linked, Reaches;
    var rest := targets[1..];
    if AboveAny(es, targets, j) {
      var n :| 0 <= n < |targets| && Reaches(es, j, es[targets[n]].parent);
      assert n > 0 ==> rest[n - 1] == targets[n];
    }
    if AboveAny(es, rest, j) {
      var n :| 0 <= n < |rest| && Reaches(es, j, es[rest[n]].parent);
      assert targets[n + 1] == rest[n];
    }
  }

  lemma {:induction false} AboveSame(es: seq<Entry>, fs: seq<Entry>, targets: seq<nat>, j: nat)
    requires Linked(es) && Linked(fs) && |es| == |fs| && Within(targets, |es|)
    requires forall k {:trigger fs[k]} :: 0 <= k < |es| ==> fs[k].parent == es[k].parent
    ensures AboveAny(es, targets, j) == AboveAny(fs, targets, j)
  {
    forall n | 0 <= n < |targets|
      ensures Reaches(es, j, es[targets[n]].parent) == Reaches(fs, j, fs[targets[n]].parent)
    {
      ReachesSame(es, fs, j, es[targets[n]].parent);
    }
    hide Linked, Reaches;
  }

  /** Over any run of invalidations exactly the targets are invalid, exactly the groups above a target
      are told, and nothing else changes. */
  lemma {:induction false} RunMarksExactly(es: seq<Entry>, targets: seq<nat>, j: nat)
    requires Linked(es) && Upward(es) && Within(targets, |es|) && j < |es|
    ensures |EarlyAll(es, targets)| == |es|
    ensures EarlyAll(es, targets)[j] ==
            es[j].(inv := es[j].inv || j in targets, cinv := es[j].cinv || AboveAny(es, targets, j))
    decreases |targets|
  {
    if targets != [] {
      var i, rest := targets[0], targets[1..];
      var fs := EarlyInvalidated(es, i);
      InvalidatedUpward(es, i);
      InvalidatesExactly(es, i, j);
      forall t {:trigger fs[t]} | 0 <= t < |es| ensures fs[t].parent == es[t].parent { InvalidatesExactly(es, i, t); }
      hide Linked, Upward, Reaches, EarlyInvalidated, AboveAny;
      AboveFirst(es, targets, j);
      RunMarksExactly(fs, rest, j);
      AboveSame(es, fs, rest, j);
      assert j in targets <==> j == i || j in rest;
    }
  }

  /** Group i is marked invalid; no other group is, groups above are told at most, and the rest is as
      it was. */
  predicate Told(es: seq<Entry>, fs: seq<Entry>, i: nat) {
    && |fs| == |es| && i < |es| && fs[i].inv
    && (forall j {:trigger fs[j]} :: 0 <= j < |es| ==>
          && fs[j].(inv := false, cinv := false) == es[j].(inv := false, cinv := false)
          && fs[j].inv == (es[j].inv || j == i) && (es[j].cinv ==> fs[j].cinv))
    && (es[i].parent.Some? && es[i].parent.value < |es| ==> fs[es[i].parent.value].cinv)
  }

  lemma {:induction false} ClimbKeeps(es: seq<Entry>, p: Option<nat>, steps: nat, j: nat)
    requires j < |es|
    ensures Climb(es, p, steps)[j] == es[j].(cinv := Climb(es, p, steps)[j].cinv)
    ensures es[j].cinv || (steps > 0 && p == Some(j)) ==> Climb(es, p, steps)[j].cinv
    decreases steps
  {
    if !(steps == 0 || p.None? || p.value >= |es| || es[p.value].cinv) {
      ClimbKeeps(Marked(es, p.value), es[p.value].parent, steps - 1, j);
    }
  }

  /** Whatever the links are, the target is marked and its parent told. */
  lemma {:induction false} InvalidationTells(es: seq<Entry>, i: nat)
    requires i < |es|
    ensures Told(es, EarlyInvalidated(es, i), i)
  {
    var fs := es[i := es[i].(inv := true)];
    forall j {:trigger EarlyInvalidated(es, i)[j]} | 0 <= j < |es|
      ensures var r := EarlyInvalidated(es, i)[j];
              && r == fs[j].(cinv := r.cinv) && (fs[j].cinv || es[i].parent == Some(j) ==> r.cinv)
    {
      ClimbKeeps(fs, es[i].parent, |es|, j);
    }
  }

  function Cleared(e: Entry): Entry {
    e.(inv := false, cinv := false)
  }

  // ------------------------------------------------------------------ methods

  /** Marks group i invalid and tells its ancestors. */
  method GroupInvalidate(table: SlotTable, i: nat) returns (ok: bool)
    requires table.Valid()
    modifies table`entries, table.groups
    ensures table.Valid() && ok == (i < |old(table.entries)|)
    ensures !ok ==> table.entries == old(table.entries)
    ensures ok ==> table.entries == EarlyInvalidated(old(table.entries), i)
    ensures ok ==> Told(old(table.entries), table.entries, i)
  {
    hide Start, Words, Gapped, Told;
    if i < |table.entries| { InvalidationTells(table.entries, i); }
    var target := table.Get(i);
    if target.None? {
      return false;
    }
    var limit, parent, step := table.Count(), target.value.parent, 0;
    table.SetEntry(i, target.value.(inv := true));
    ghost var goal := Climb(table.entries, parent, limit);
    while step < limit && parent.Some?
      invariant table.Valid() && step <= limit && |table.entries| == limit
      invariant Climb(table.entries, parent, limit - step) == goal
      decreases limit - step
    {
      var ancestor := table.Get(parent.value);
      if ancestor.None? || ancestor.value.cinv {
        return true;
      }
      table.SetEntry(parent.value, ancestor.value.(cinv := true));
      step, parent := step + 1, ancestor.value.parent;
    }
    return true;
  }

  /** Clears the flags of every group. */
  method ClearAllFlags(table: SlotTable)
    requires table.Valid()
    modifies table`entries, table.groups
    ensures table.Valid() && |table.entries| == |old(table.entries)|
    ensures forall i {:trigger table.entries[i]} :: 0 <= i < |table.entries| ==>
            table.entries[i] == old(table.entries)[i].(inv := false, cinv := false)
    ensures Upward(table.entries)
  {
    var i := 0;
    while i < table.Count()
      invariant table.Valid() && i <= |table.entries| == |old(table.entries)|
      invariant forall j {:trigger table.entries[j]} :: 0 <= j < |table.entries| ==>
                  table.entries[j] == if j < i then Cleared(old(table.entries)[j]) else old(table.entries)[j]
    {
      var r := table.Get(i);
      table.SetEntry(i, r.value.(inv := false, cinv := false));
      i := i + 1;
    }
    ClearedUpward(table.entries);
  }

  lemma {:induction false} ClearedUpward(es: seq<Entry>)
    requires forall i :: 0 <= i < |es| ==> !es[i].inv && !es[i].cinv
    ensures Upward(es)
  {}

  // ------------------------------------------------------------------ clearing one group

  function ClearedOne(es: seq<Entry>, i: nat): (r: seq<Entry>)
    requires i < |es|
    ensures |r| == |es|
  {
    es[i := Cleared(es[i])]
  }

  /** Clears the flags of one group; of no group when the index is out of range. */
  method ClearFlags(table: SlotTable, i: nat)
    requires table.Valid()
    modifies table`entries, table.groups
    ensures table.Valid()
    ensures table.entries == if i < |old(table.entries)| then ClearedOne(old(table.entries), i) else old(table.entries)
    ensures i < |old(table.entries)| ==>
              && |table.entries| == |old(table.entries)| && !table.entries[i].inv && !table.entries[i].cinv
              && forall j {:trigger table.entries[j]} :: 0 <= j < |table.entries| ==>
                   table.entries[j].(inv := false, cinv := false) == old(table.entries)[j].(inv := false, cinv := false)
                   && (j != i ==> table.entries[j] == old(table.entries)[j])
  {
    var group := table.Get(i);
    if group.Some? {
      table.SetEntry(i, group.value.(inv := false, cinv := false));
    }
  }

  /** No child of group i is dirty. */
  predicate Settled(es: seq<Entry>, i: nat) {
    forall j {:trigger es[j]} :: 0 <= j < |es| && es[j].parent == Some(i) ==> !es[j].inv && !es[j].cinv
  }

  /** Clearing one group keeps dirtiness upward closed, so that climbs may go on stopping early, if
      and only if no child of the group is dirty. */
  lemma {:induction false} ClearKeepsUpwardIff(es: seq<Entry>, i: nat)
    requires Linked(es) && Upward(es) && i < |es|
    ensures Linked(ClearedOne(es, i))
    ensures Upward(ClearedOne(es, i)) <==> Settled(es, i)
  {
    var fs := ClearedOne(es, i);
    if Upward(fs) {
      forall j {:trigger es[j]} | 0 <= j < |es| && es[j].parent == Some(i) ensures !es[j].inv && !es[j].cinv {
        assert fs[j] == es[j];
      }
    }
    if Settled(es, i) {
      forall j {:trigger fs[j]} | 0 <= j < |fs| && fs[j].parent.Some? && fs[j].parent.value < |fs|
          && (fs[j].inv || fs[j].cinv)
        ensures fs[fs[j].parent.value].cinv
      {
        assert fs[j] == es[j];
      }
    }
  }

  /** A root, a child and a grandchild.  The grandchild is invalidated and the root alone is cleared;
      then the next invalidation of the grandchild stops at the child and the root never learns of it. */
  lemma {:induction false} ClearedRootMissesMark(root: Entry, child: Entry, leaf: Entry)
    requires root == Cleared(root) && child == Cleared(child) && leaf == Cleared(leaf)
    requires root.parent == None && child.parent == Some(0) && leaf.parent == Some(1)
    ensures var es := ClearedOne(EarlyInvalidated([root, child, leaf], 2), 0);
            && Linked(es) && !Settled(EarlyInvalidated([root, child, leaf], 2), 0)
            && !EarlyInvalidated(es, 2)[0].cinv && Invalidated(es, 2)[0].cinv
  {
    var r, c, l := root.(cinv := true), child.(cinv := true), leaf.(inv := true);
    assert [root, child, leaf][2 := l] == [root, child, l];
    assert Climb([r, c, l], None, 1) == [r, c, l];
    assert Marked([root, c, l], 0) == [r, c, l] && Climb([root, c, l], Some(0), 2) == [r, c, l];
    assert Marked([root, child, l], 1) == [root, c, l] && Climb([root, child, l], Some(1), 3) == [r, c, l];
    var es := ClearedOne([r, c, l], 0);
    assert es == [root, c, l] && [r, c, l][1] == c;
    assert [root, c, l][2 := l] == [root, c, l] && Climb([root, c, l], Some(1), 3) == [root, c, l];
    assert Linked(es);
    assert Marked(es, 1) == es && ClimbAll(es, Some(1)) == ClimbAll(es, Some(0)) == ClimbAll([r, c, l], None) ==
        [r, c, l];
  }

  // ------------------------------------------------------------------ renumbering

  const NO_PARENT := 0xFFFF_FFFF     // links are 32 bits wide; the largest stands for none

  /** A link moved by delta, which wraps around. */
  function Relinked(p: nat, delta: int): Option<nat> {
    var q := (p + delta) % (NO_PARENT + 1);
    if q == NO_PARENT then None else Some(q)
  }

  lemma {:induction false} RelinkedWithin(p: nat, delta: int)
    requires 0 <= p + delta < NO_PARENT
    ensures Relinked(p, delta) == Some(p + delta)
  {}

  function Shifted(e: Entry, threshold: nat, delta: int): Entry {
    if delta == 0 || e.parent.None? || e.parent.value < threshold then e
        else e.(parent := Relinked(e.parent.value, delta))
  }

  function ShiftedAll(es: seq<Entry>, threshold: nat, delta: int): (r: seq<Entry>)
    ensures |r| == |es|
  {
    seq(|es|, i requires 0 <= i < |es| => Shifted(es[i], threshold, delta))
  }

  /** Shifts the link of group i, which sits at physical index at, when it is affected. */
  method ShiftParent(table: SlotTable, at: nat, ghost i: nat, threshold: nat, delta: int)
    requires table.Valid() && i < |table.entries| && at == table.Physical(i) && delta != 0
    modifies table`entries, table.groups
    ensures table.Valid() && table.entries == old(table.entries)[i := Shifted(old(table.entries)[i], threshold, delta)]
  {
    table.Stored(i);
    var group := table.groups[at];
    if group.parent.None? || group.parent.value < threshold {
      assert table.entries[i := table.entries[i]] == table.entries;
      return;
    }
    table.SetPhysical(at, group.(parent := Relinked(group.parent.value, delta)), i);
  }

  /** Shifts the links to the groups at or behind the threshold, wherever the gap is. */
  method GroupsShiftParents(table: SlotTable, threshold: nat, delta: int)
    requires table.Valid()
    modifies table`entries, table.groups
    ensures table.Valid() && table.entries == ShiftedAll(old(table.entries), threshold, delta)
  {
    if delta == 0 {
      assert ShiftedAll(table.entries, threshold, delta) == table.entries;
      return;
    }
    ghost var es := table.entries;
    var physical, end := 0, table.groupGap + table.groupGapLen;
    ghost var done := 0;
    while physical < table.groups.Length
      invariant table.Valid() && physical <= table.groups.Length && |table.entries| == |es|
      invariant done == if physical <= table.groupGap then physical else if physical < end then table.groupGap
                else physical - table.groupGapLen
      invariant forall j {:trigger table.entries[j]} :: 0 <= j < |es| ==>
                  table.entries[j] == if j < done then Shifted(es[j], threshold, delta) else es[j]
    {
      if !(table.groupGap <= physical < end) {
        assert table.entries[done] == es[done];
        ShiftParent(table, physical, done, threshold, delta);
        done := done + 1;
      }
      physical := physical + 1;
    }
  }

  /** e and f are one group, up to the number of its parent. */
  predicate SameGroup(e: Entry, f: Entry) {
    e.(parent := None) == f.(parent := None)
  }

  function Lifted(i: nat, at: nat): nat {
    if i < at then i else i + 1
  }

  /** Inserting a group at the gap after shifting the links behind it by one leaves every
      group with the parent it had. */
  lemma {:induction false} InsertKeepsLinks(es: seq<Entry>, at: nat, e: Entry, i: nat)
    requires at <= |es| < NO_PARENT && i < |es| && (es[i].parent.Some? ==> es[i].parent.value < |es|)
    ensures var fs := InsertedAt(ShiftedAll(es, at, 1), at, e);
            var f := fs[Lifted(i, at)];
            && SameGroup(f, es[i]) && (f.parent.Some? <==> es[i].parent.Some?)
            && (f.parent.Some? ==>
                  && f.parent.value == Lifted(es[i].parent.value, at)
                  && SameGroup(fs[f.parent.value], es[es[i].parent.value]))
  {
    var fs := InsertedAt(ShiftedAll(es, at, 1), at, e);
    assert fs[Lifted(i, at)] == Shifted(es[i], at, 1);
    if es[i].parent.Some? {
      var p := es[i].parent.value;
      RelinkedWithin(p, 1);
      assert fs[Lifted(p, at)] == Shifted(es[p], at, 1);
    }
  }

  function Lowered(i: nat, at: nat, n: nat): nat
    requires i < at || at + n <= i
  {
    if i < at then i else i - n
  }

  /** In fs, which is es without the n groups from index at on, group i of es names the parent it had. */
  predicate KeepsParent(es: seq<Entry>, fs: seq<Entry>, at: nat, n: nat, i: nat)
    requires i < |es| && (i < at || at + n <= i)
  {
    var j := Lowered(i, at, n);
    && j < |fs| && SameGroup(fs[j], es[i]) && (fs[j].parent.Some? <==> es[i].parent.Some?)
    && (es[i].parent.Some? ==>
          var p := es[i].parent.value;
          && p < |es| && (p < at || at + n <= p) && fs[j].parent.value == Lowered(p, at, n) < |fs|
          && SameGroup(fs[fs[j].parent.value], es[p]))
  }

  lemma {:induction false} ShiftedRest(es: seq<Entry>, at: nat, n: nat, i: nat)
    requires at + n <= |es| && i < |es| && (i < at || at + n <= i)
    ensures var d := -(n as int);
            var fs := RemovedAt(ShiftedAll(es, at + n, d), at, n);
            Lowered(i, at, n) < |fs| && fs[Lowered(i, at, n)] == Shifted(es[i], at + n, d)
  {
    hide Relinked;
  }

  /** Removing a run of groups after shifting the links behind it leaves every surviving
      group, whose parent survives, with the parent it had. */
  lemma {:induction false} RemoveKeepsLinks(es: seq<Entry>, at: nat, n: nat, i: nat)
    requires at + n <= |es| <= NO_PARENT && i < |es| && (i < at || at + n <= i)
    requires es[i].parent.Some? ==>
             es[i].parent.value < |es| && (es[i].parent.value < at || at + n <= es[i].parent.value)
    ensures KeepsParent(es, RemovedAt(ShiftedAll(es, at + n, -(n as int)), at, n), at, n, i)
  {
    hide Relinked, RemovedAt, ShiftedAll;
    ShiftedRest(es, at, n, i);
    if es[i].parent.Some? {
      var p := es[i].parent.value;
      if p >= at + n { RelinkedWithin(p, -(n as int)); }
      ShiftedRest(es, at, n, p);
    }
  }

  // ------------------------------------------------------------------ written forests

  /** es is a table with d written in it, whatever groups are flagged. */
  ghost predicate Shaped(es: seq<Entry>, d: W.Doc) {
    W.Stands(es, 0, d, None) && |es| == W.Size(d)
  }

  lemma {:induction false} StandsHead(es: seq<Entry>, lo: nat, d: W.Doc, parent: Option<nat>)
    requires W.Stands(es, lo, d, parent) && d.Node?
    ensures lo < |es| && es[lo].parent == parent && (W.Size(d) < WRAP ==> es[lo].size == W.Size(d.kids))
  {
    assert W.Plain(es[lo]).parent == es[lo].parent && W.Plain(es[lo]).size == es[lo].size;
  }

  /** Every group of a written forest is below the given parent or below an earlier group of it. */
  lemma {:induction false} StandsParent(es: seq<Entry>, lo: nat, d: W.Doc, parent: Option<nat>, i: nat)
    requires W.Stands(es, lo, d, parent) && lo <= i < lo + W.Size(d)
    ensures i < |es|
    ensures es[i].parent == parent || (es[i].parent.Some? && lo <= es[i].parent.value < i)
    decreases d
  {
    hide W.Group;
    var mid := lo + 1 + W.Size(d.kids);
    StandsHead(es, lo, d, parent);
    if lo < i < mid {
      StandsParent(es, lo + 1, d.kids, Some(lo), i);
    } else if mid <= i {
      StandsParent(es, mid, d.next, parent, i);
    }
  }

  /** A subtree of a written forest holds every group whose parent it holds, and no other. */
  lemma {:induction false} StandsSubtree(es: seq<Entry>, lo: nat, d: W.Doc, parent: Option<nat>, g: nat, i: nat)
    requires W.Stands(es, lo, d, parent) && (parent.Some? ==> parent.value < lo) && W.Size(d) < WRAP
    requires lo <= g < lo + W.Size(d) && lo <= i < lo + W.Size(d)
    ensures g < |es| && i < |es| && g + es[g].size < lo + W.Size(d)
    ensures i < g || g + es[g].size < i ==> Outside(es[i].parent, g, es[g].size)
    decreases d
  {
    hide W.Group;
    StandsHead(es, lo, d, parent);
    var mid := lo + 1 + W.Size(d.kids);
    StandsParent(es, lo, d, parent, i);
    StandsParent(es, lo, d, parent, g);
    if lo < g < mid {
      StandsSubtree(es, lo + 1, d.kids, Some(lo), g, if lo < i < mid then i else g);
      if mid <= i { StandsParent(es, mid, d.next, parent, i); }
    } else if mid <= g {
      StandsSubtree(es, mid, d.next, parent, g, if mid <= i then i else g);
    } else if mid <= i {
      StandsParent(es, mid, d.next, parent, i);
    }
  }

  /** The link does not lead into the subtree of size + 1 groups from g on. */
  predicate Outside(p: Option<nat>, g: nat, size: nat) {
    p.Some? ==> p.value < g || g + size < p.value
  }

  /** In a written table parent links point backwards. */
  lemma {:induction false} ShapedLinked(es: seq<Entry>, d: W.Doc)
    requires Shaped(es, d)
    ensures Linked(es)
  {
    forall i {:trigger es[i]} | 0 <= i < |es| && es[i].parent.Some? ensures es[i].parent.value < i {
      StandsParent(es, 0, d, None, i);
    }
  }

  /** Flags have nothing to do with what is written. */
  lemma {:induction false} ClimbShaped(es: seq<Entry>, p: Option<nat>, steps: nat, d: W.Doc)
    requires Shaped(es, d)
    ensures Shaped(Climb(es, p, steps), d)
    decreases steps
  {
    if !(steps == 0 || p.None? || p.value >= |es| || es[p.value].cinv) {
      W.StandsFlagged(es, 0, d, None, Marked(es, p.value));
      ClimbShaped(Marked(es, p.value), es[p.value].parent, steps - 1, d);
    }
  }

  lemma {:induction false} InvalidatedShaped(es: seq<Entry>, targets: seq<nat>, d: W.Doc)
    requires Shaped(es, d) && Within(targets, |es|)
    ensures Shaped(EarlyAll(es, targets), d)
    decreases |targets|
  {
    hide Shaped, Climb;
    if targets != [] {
      var i := targets[0];
      FlaggedShaped(es, i, d);
      ClimbShaped(es[i := es[i].(inv := true)], es[i].parent, |es|, d);
      InvalidatedShaped(EarlyInvalidated(es, i), targets[1..], d);
    }
  }

  lemma {:induction false} FlaggedShaped(es: seq<Entry>, i: nat, d: W.Doc)
    requires Shaped(es, d) && i < |es|
    ensures Shaped(es[i := es[i].(inv := true)], d)
  {
    W.StandsFlagged(es, 0, d, None, es[i := es[i].(inv := true)]);
  }

  /** es is a table that has just been written. */
  ghost predicate Fresh(es: seq<Entry>, d: W.Doc) {
    W.Enc(es, 0, d, None) && |es| == W.Size(d)
  }

  lemma {:induction false} FreshClean(es: seq<Entry>, lo: nat, d: W.Doc, parent: Option<nat>, i: nat)
    requires W.Enc(es, lo, d, parent) && lo <= i < lo + W.Size(d)
    ensures i < |es| && !es[i].inv && !es[i].cinv
    decreases d
  {
    hide W.Nodes, W.Own;
    var mid := lo + 1 + W.Size(d.kids);
    if lo < i < mid {
      FreshClean(es, lo + 1, d.kids, Some(lo), i);
    } else if mid <= i {
      FreshClean(es, mid, d.next, parent, i);
    }
  }

  /** In a table as it is written nothing is dirty. */
  lemma {:induction false} FreshUpward(es: seq<Entry>, d: W.Doc)
    requires Fresh(es, d)
    ensures Shaped(es, d) && Linked(es) && Upward(es)
  {
    W.EncStands(es, 0, d, None);
    ShapedLinked(es, d);
    forall i {:trigger es[i]} | 0 <= i < |es| ensures !es[i].inv && !es[i].cinv {
      FreshClean(es, 0, d, None, i);
    }
  }

  /** So over any run of invalidations in a written table early stops lose nothing, and what is
      written stays. */
  lemma {:induction false} FreshRunsAgree(es: seq<Entry>, d: W.Doc, targets: seq<nat>)
    requires Fresh(es, d) && Within(targets, |es|)
    ensures Linked(es) && EarlyAll(es, targets) == FullAll(es, targets) && Upward(EarlyAll(es, targets))
    ensures Shaped(EarlyAll(es, targets), d)
  {
    FreshUpward(es, d);
    RunsAgree(es, targets);
    InvalidatedShaped(es, targets, d);
  }

  /** Removing the subtree of any group of a written table, whatever has been invalidated since, after
      shifting the links behind it, leaves every surviving group with the parent it had. */
  lemma {:induction false} RemoveSubtreeKeepsLinks(es: seq<Entry>, d: W.Doc, at: nat, i: nat)
    requires Shaped(es, d) && |es| < WRAP && at < |es| && i < |es|
    requires i < at || at + es[at].size < i
    ensures var n := es[at].size + 1;
            && at + n <= |es|
            && KeepsParent(es, RemovedAt(ShiftedAll(es, at + n, -(n as int)), at, n), at, n, i)
            && Outside(es[i].parent, at, es[at].size)
  {
    hide W.Stands, W.Group, Relinked, RemovedAt, ShiftedAll, SameGroup;
    StandsSubtree(es, 0, d, None, at, i);
    StandsParent(es, 0, d, None, i);
    RemoveKeepsLinks(es, at, es[at].size + 1, i);
  }
}

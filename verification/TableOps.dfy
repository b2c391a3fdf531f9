/** Structural edits of the group table, each proved to edit the tree it encodes. */
module TableOps {
  import opened Basics
  import opened Trees
  import opened Edits
  import opened GapBuffer

  /** Renumbers the parent links of the records from index start on. */
  method RenumberFrom(table: GroupTable, start: nat, sh: Shift)
    requires table.Valid() && start <= |table.view|
    modifies table`view, table.groups
    ensures table.Valid() && |table.view| == |old(table.view)|
    ensures forall j {:trigger table.view[j]} :: 0 <= j < |table.view| ==>
              table.view[j] == if j < start then old(table.view)[j] else Relink(old(table.view)[j], sh)
  {
    var i := start;
    while i < table.Count()
      invariant table.Valid() && start <= i <= |table.view| == |old(table.view)|
      invariant forall j {:trigger table.view[j]} :: 0 <= j < |table.view| ==>
                  table.view[j] == if start <= j < i then Relink(old(table.view)[j], sh) else old(table.view)[j]
    {
      var g := table.Get(i);
      table.Set(i, Relink(g, sh));
      i := i + 1;
    }
  }

  /** What e takes away from the sizes of the groups it climbs through. */
  function Loss(e: Climber): nat {
    if e.Grow? && e.delta < 0 then -e.delta else 0
  }

  /** Applies e to the record at start and to every ancestor, up to the root at 0; no size
      falls below zero. */
  method ClimbFrom(table: GroupTable, start: nat, e: Climber)
    requires table.Valid() && start < |table.view| && Linked(table.view)
    requires AllHold(table.view, start, Loss(e))
    modifies table`view, table.groups
    ensures table.Valid() && table.view == Climb(old(table.view), start, e)
  {
    var at: nat, done: bool := start, false;
    while !done
      invariant table.Valid() && at < |table.view|
      invariant Linked(table.view)
      invariant Climb(old(table.view), start, e) == if done then table.view else Climb(table.view, at, e)
      invariant !done ==> AllHold(table.view, at, Loss(e))
      decreases !done, at
    {
      var g := table.Get(at);
      assert e.Grow? ==> g.size + e.delta >= 0;
      if at > 0 { HoldSame(table.view, at, Touch(g, e), g.parent, Loss(e)); }
      ClimbLinked(table.view, at, e);
      table.Set(at, Touch(g, e));
      if at == 0 {
        done := true;
      } else {
        at := g.parent;
      }
    }
  }

  /** Every parent chain holds at least nothing. */
  lemma {:induction false} HoldNothing(s: seq<Group>, i: nat)
    requires Linked(s) && i < |s|
    ensures AllHold(s, i, 0)
    decreases i
  {
    if i > 0 {
      HoldNothing(s, s[i].parent);
    }
  }

  lemma {:induction false} ClimbLinked(s: seq<Group>, at: nat, e: Climber)
    requires Linked(s) && at < |s|
    ensures Linked(s[at := Touch(s[at], e)])
    ensures at > 0 ==> s[at].parent < at
    ensures Climb(s, at, e) == if at == 0 then s[at := Touch(s[at], e)]
            else Climb(s[at := Touch(s[at], e)], s[at].parent, e)
  {
    forall x | 0 <= x < |s| ensures s[at := Touch(s[at], e)][x].parent == s[x].parent {}
  }

  // ------------------------------------------------------------------ insertion

  /** Mounts a leaf at the cursor of c, as the first of the old children waiting there. */
  method InsertLeaf(table: GroupTable, at: nat, parent: nat, info: Info, ghost c: Ctx, ghost f: Forest)
    requires table.Valid() && |table.view| < table.groups.Length
    requires c.Open? && Whole(table.view, c, f) && at == Cursor(c) && parent == Index(c)
    modifies table, table.groups
    ensures table.Valid() && |table.view| == |old(table.view)| + 1
    ensures Whole(table.view, c, Tree(info, Nil, f))
  {
    ghost var s := table.view;
    AroundBound(s, c, Size(f), Size(f));
    table.MoveGap(at);
    table.Insert(Group(info, parent, 0));
    RenumberFrom(table, at + 1, Inserted(at));
    assert Spliced(s, at, Group(info, parent, 0), table.view);
    ghost var s1 := table.view;
    WholeLinked(s, c, f);
    SplicedLinked(s, at, Group(info, parent, 0), s1);
    HoldNothing(s1, parent);
    ClimbFrom(table, parent, Grow(1));
    InsertEncodes(s, c, f, info, s1, table.view);
  }

  lemma {:induction false} SplicedLinked(s: seq<Group>, at: nat, g: Group, r: seq<Group>)
    requires Linked(s) && Spliced(s, at, g, r) && g.parent < at
    ensures Linked(r)
  {
    forall x | 0 <= x < |r| ensures r[x].parent <= x && (x > 0 ==> r[x].parent < x) {
      if x > at {
        assert r[(x - 1) + 1] == Relink(s[x - 1], Inserted(at));
      } else if x < at {
        assert r[x] == s[x];
      }
    }
  }

  // ------------------------------------------------------------------ removal

  /** Takes n groups off the sizes of the groups that are open around index root. */
  method ShrinkFrom(table: GroupTable, root: nat, parent: nat, n: nat, ghost c: Ctx, ghost f: Forest)
    requires table.Valid() && Whole(table.view, c, f) && n <= Size(f)
    requires (root > 0 <==> c.Open?) && (c.Open? ==> parent == Index(c))
    modifies table`view, table.groups
    ensures table.Valid() && (c.Open? ==> Index(c) < |old(table.view)|)
    ensures table.view == Shrunk(old(table.view), c, n)
  {
    if root > 0 {
      WholeLinked(table.view, c, f);
      OpenGroupsCover(table.view, c, Size(f), n);
      ClimbFrom(table, parent, Grow(-(n as int)));
    }
  }

  /** Removes the subtree at the cursor of c from the table. */
  method RemoveSubtree(table: GroupTable, root: nat, ghost c: Ctx, ghost info: Info, ghost kids: Forest,
                       ghost next: Forest)
    requires table.Valid() && Whole(table.view, c, Tree(info, kids, next)) && root == Cursor(c)
    requires c == Top || c.Open?
    modifies table, table.groups
    ensures table.Valid() && |table.view| == |old(table.view)| - (1 + Size(kids))
    ensures Whole(table.view, c, next)
  {
    ghost var s := table.view;
    HeadRecord(s, c, info, kids, next);
    var g := table.Get(root);
    var n := 1 + g.size;
    ShrinkFrom(table, root, g.parent, n, c, Tree(info, kids, next));
    ghost var s1 := table.view;
    CutOut(table, root, n);
    PruneEncodes(s, c, info, kids, next, s1, table.view);
  }

  /** Closes up the n records at index root and renumbers the links to the records after them. */
  method CutOut(table: GroupTable, root: nat, n: nat)
    requires table.Valid() && root + n <= |table.view|
    modifies table, table.groups
    ensures table.Valid() && Cut(old(table.view), root, n, table.view)
  {
    ghost var s1 := table.view;
    table.MoveGap(table.Count());
    table.Remove(root, n);
    RenumberFrom(table, root, Removed(root, n));
    RemovedCut(s1, root, n, table.view);
  }

  /** What the record at the cursor says. */
  lemma {:induction false} HeadRecord(s: seq<Group>, c: Ctx, info: Info, kids: Forest, next: Forest)
    requires Whole(s, c, Tree(info, kids, next))
    ensures Cursor(c) + 1 + Size(kids) <= |s|
    ensures s[Cursor(c)] == Group(info, Index(c), Size(kids))
    ensures Cursor(c) > 0 <==> c.Open?
    ensures c.Open? ==> Index(c) < Cursor(c)
  {
    AroundBound(s, c, Size(Tree(info, kids, next)), Size(Tree(info, kids, next)));
  }

  lemma {:induction false} RemovedCut(s: seq<Group>, root: nat, n: nat, r: seq<Group>)
    requires root + n <= |s| && |r| == |s| - n
    requires forall j {:trigger r[j]} :: 0 <= j < |r| ==>
               r[j] == if j < root then RemovedAt(s, root, n)[j] else Relink(RemovedAt(s, root, n)[j], Removed(root, n))
    ensures Cut(s, root, n, r)
  {
    forall x {:trigger s[x]} | root + n <= x < |s| ensures r[x + -(n as int)] == Relink(s[x], Removed(root, n)) {
      assert r[x - n] == Relink(s[x], Removed(root, n));
    }
  }

  // ------------------------------------------------------------------ rotation

  /** Brings a sibling subtree forward to the cursor of c. */
  method BringForward(table: GroupTable, to: nat, from: nat, ghost c: Ctx, ghost skipped: Forest,
                      ghost info: Info, ghost kids: Forest, ghost next: Forest)
    requires table.Valid() && c.Open? && Whole(table.view, c, Append(skipped, Tree(info, kids, next)))
    requires to == Cursor(c) && from == Cursor(c) + Size(skipped)
    modifies table, table.groups
    ensures table.Valid() && |table.view| == |old(table.view)|
    ensures Whole(table.view, c, Tree(info, kids, Append(skipped, next)))
  {
    hide At, Around, Whole, Turned, MovedBack, Size, Append;
    ghost var s := table.view;
    SiblingRecord(s, c, skipped, info, kids, next);
    var n := 1 + table.Get(from).size;
    table.MoveGap(table.Count());
    table.Rotate(to, from, n);
    RenumberFrom(table, 1, Rotated(to, from, n));
    WholeLinked(s, c, Append(skipped, Tree(info, kids, next)));
    MovedTurned(s, to, from, n, table.view);
    RotateEncodes(s, c, to, from, n, skipped, info, kids, next, table.view);
  }

  lemma {:induction false} SiblingRecord(s: seq<Group>, c: Ctx, skipped: Forest, info: Info, kids: Forest, next: Forest)
    requires c.Open? && Whole(s, c, Append(skipped, Tree(info, kids, next)))
    ensures Index(c) < Cursor(c) && Cursor(c) + Size(skipped) + 1 + Size(kids) <= |s|
    ensures s[Cursor(c) + Size(skipped)] == Group(info, Index(c), Size(kids))
  {
    var t := Tree(info, kids, next);
    AppendSize(skipped, t);
    AtAppend(s, Cursor(c), skipped, t, Index(c));
    AroundBound(s, c, Size(Append(skipped, t)), Size(Append(skipped, t)));
  }

  lemma {:induction false} MovedTurned(s: seq<Group>, to: nat, from: nat, n: nat, r: seq<Group>)
    requires Linked(s) && 0 < to <= from && from + n <= |s| && |r| == |s|
    requires forall j {:trigger r[j]} :: 0 <= j < |r| ==>
               r[j] == if j < 1 then MovedBack(s, to, from, n)[j]
                   else Relink(MovedBack(s, to, from, n)[j], Rotated(to, from, n))
    ensures Turned(s, to, from, n, r)
  {
    var sh := Rotated(to, from, n);
    forall x {:trigger s[x]} | 0 <= x < to ensures r[x] == s[x] {
      assert s[x].parent <= x;
    }
    forall x {:trigger s[x]} | from <= x < from + n ensures r[x + (to - from)] == Relink(s[x], sh) {
      assert r[x - from + to] == Relink(s[x], sh);
    }
    forall x {:trigger s[x]} | to <= x < from ensures r[x + n] == Relink(s[x], sh) {
      assert r[x + n] == Relink(s[x], sh);
    }
    forall x {:trigger s[x]} | from + n <= x < |s| ensures r[x + 0] == Relink(s[x], sh) {
      assert r[x] == Relink(s[x], sh);
    }
  }
}

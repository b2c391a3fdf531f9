/** Draining the invalidation queue on the flat table marks the tree it encodes. */
module Drains {
  import opened Basics
  import opened Trees
  import opened Edits
  import opened GapBuffer
  import opened TableOps
  import opened Moves
  import opened Flags

  // ------------------------------------------------------------------ focusing on a key

  /** The context of the first group of f with key k, when f sits at the cursor of c. */
  function FocusCtx(c: Ctx, f: Forest, k: Key): Ctx
    requires HasKey(f, k) && (c.Open? || f.next == Nil)
    decreases f
  {
    if f.info.key == k then c
    else if HasKey(f.kids, k) then
      FocusCtx(Open(f.info, Nil, Nil, if c.Open? then c.(rest := Append(f.next, c.rest)) else c), f.kids, k)
    else assert HasKey(f.next, k); FocusCtx(c.(done := Append(c.done, Tree(f.info, f.kids, Nil))), f.next, k)
  }

  /** The first group of f with key k and the siblings after it. */
  function FocusSeg(f: Forest, k: Key): (g: Forest)
    requires HasKey(f, k)
    ensures g.Tree? && g.info.key == k
  {
    if f.info.key == k then f else if HasKey(f.kids, k) then FocusSeg(f.kids, k) else FocusSeg(f.next, k)
  }

  /** Focusing does not change the tree. */
  lemma {:induction false} FocusPlug(c: Ctx, f: Forest, k: Key)
    requires HasKey(f, k) && (c.Open? || f.next == Nil)
    ensures Plug(FocusCtx(c, f, k), FocusSeg(f, k)) == Plug(c, f)
    decreases f
  {
    if f.info.key == k {
    } else if HasKey(f.kids, k) {
      var c1 := Open(f.info, Nil, Nil, if c.Open? then c.(rest := Append(f.next, c.rest)) else c);
      FocusPlug(c1, f.kids, k);
      AppendNil(f.kids);
      assert Plug(c1, f.kids) == Plug(c, f) by {
        if c.Open? { assert Append(Tree(f.info, f.kids, Nil), Append(f.next, c.rest)) == Append(f, c.rest); }
      }
    } else {
      var t := Tree(f.info, f.kids, Nil);
      FocusPlug(c.(done := Append(c.done, t)), f.next, k);
      AppendAssoc(c.done, t, Append(f.next, c.rest));
      assert Append(t, Append(f.next, c.rest)) == Append(f, c.rest);
    }
  }

  /** The segment of f with its first tree invalidated. */
  function Hit(g: Forest): Forest
    requires g.Tree?
  {
    Tree(g.info.(inv := true), MarkAll(g.kids), g.next)
  }

  /** Invalidating the focus and telling its ancestors is marking the key. */
  lemma {:induction false} FocusMark(c: Ctx, f: Forest, k: Key)
    requires HasKey(f, k) && (c.Open? || f.next == Nil)
    ensures Plug(Climbed(FocusCtx(c, f, k), Taint), Hit(FocusSeg(f, k))) == Plug(Climbed(c, Taint), Mark(f, k))
    decreases f
  {
    if f.info.key == k {
    } else if HasKey(f.kids, k) {
      var c1 := Open(f.info, Nil, Nil, if c.Open? then c.(rest := Append(f.next, c.rest)) else c);
      FocusMark(c1, f.kids, k);
      AppendNil(Mark(f.kids, k));
      var told := f.info.(cinv := true);
      assert Plug(Climbed(c1, Taint), Mark(f.kids, k)) == Plug(Climbed(c, Taint), Mark(f, k)) by {
        if c.Open? {
          assert Append(Tree(told, Mark(f.kids, k), Nil), Append(f.next, c.rest)) == Append(Mark(f, k), c.rest);
        }
      }
    } else {
      var t := Tree(f.info, f.kids, Nil);
      var m := Mark(f.next, k);
      FocusMark(c.(done := Append(c.done, t)), f.next, k);
      AppendAssoc(c.done, t, Append(m, c.rest));
      assert Append(t, Append(m, c.rest)) == Append(Tree(f.info, f.kids, m), c.rest);
    }
  }

  lemma {:induction false} AbsentMark(f: Forest, k: Key)
    requires !HasKey(f, k)
    ensures Mark(f, k) == f
  {
    if f.Tree? {
      AbsentMark(f.next, k);
    }
  }

  /** The records of a forest without key k have other keys. */
  lemma {:induction false} AbsentAt(s: seq<Group>, lo: nat, f: Forest, p: nat, k: Key)
    requires At(s, lo, f, p) && lo + Size(f) <= |s| && !HasKey(f, k)
    ensures forall x :: lo <= x < lo + Size(f) ==> s[x].info.key != k
    decreases f
  {
    if f.Tree? {
      AbsentAt(s, lo + 1, f.kids, lo, k);
      AbsentAt(s, lo + 1 + Size(f.kids), f.next, p, k);
    }
  }

  /** In the table, the focus is the first record with the key. */
  lemma {:induction false} FocusFirst(s: seq<Group>, c: Ctx, f: Forest, k: Key)
    requires HasKey(f, k) && (c.Open? || f.next == Nil) && Cursor(c) + Size(f) <= |s|
    requires At(s, Cursor(c), f, Index(c))
    ensures var at := Cursor(FocusCtx(c, f, k));
            && Cursor(c) <= at < |s| && s[at].info.key == k
            && forall x :: Cursor(c) <= x < at ==> s[x].info.key != k
    decreases f
  {
    if f.info.key == k {
    } else if HasKey(f.kids, k) {
      var c1 := Open(f.info, Nil, Nil, if c.Open? then c.(rest := Append(f.next, c.rest)) else c);
      assert Cursor(c1) == Cursor(c) + 1;
      FocusFirst(s, c1, f.kids, k);
    } else {
      var t := Tree(f.info, f.kids, Nil);
      var c1 := c.(done := Append(c.done, t));
      AppendSize(c.done, t);
      assert Cursor(c1) == Cursor(c) + 1 + Size(f.kids) && Index(c1) == Index(c);
      AbsentAt(s, Cursor(c) + 1, f.kids, Cursor(c), k);
      FocusFirst(s, c1, f.next, k);
    }
  }

  // ------------------------------------------------------------------ marking in place

  function Invalidated(g: Group): Group {
    g.(info := g.info.(inv := true))
  }

  /** r is s with the records lo..hi invalidated. */
  ghost predicate Smeared(s: seq<Group>, lo: nat, hi: nat, r: seq<Group>) {
    |r| == |s| && forall x {:trigger r[x]} :: 0 <= x < |r| ==> r[x] == if lo <= x < hi then Invalidated(s[x]) else s[x]
  }

  lemma {:induction false} SmearAt(s: seq<Group>, lo: nat, f: Forest, p: nat, a: nat, b: nat, r: seq<Group>)
    requires At(s, lo, f, p) && Smeared(s, a, b, r) && a <= lo && lo + Size(f) <= b <= |s|
    ensures At(r, lo, MarkAll(f), p) && Size(MarkAll(f)) == Size(f)
    decreases f
  {
    if f.Tree? {
      SmearAt(s, lo + 1, f.kids, lo, a, b, r);
      SmearAt(s, lo + 1 + Size(f.kids), f.next, p, a, b, r);
      assert r[lo] == Invalidated(s[lo]);
    }
  }

  lemma {:induction false} SmearHits(s: seq<Group>, c: Ctx, g: Forest, r: seq<Group>)
    requires g.Tree? && Whole(s, c, g)
    requires Smeared(s, Cursor(c), Cursor(c) + 1 + Size(g.kids), r)
    ensures Whole(r, c, Hit(g))
  {
    hide Around;
    var at, n := Cursor(c), Size(g);
    var after := at + 1 + Size(g.kids);
    AroundBound(s, c, n, n);
    assert Around(r, c, n, n) by {
      AroundSame(s, c, n, n, r);
    }
    assert At(r, at + 1, MarkAll(g.kids), at) && Size(MarkAll(g.kids)) == Size(g.kids) by {
      SmearAt(s, at + 1, g.kids, at, at, after, r);
    }
    assert At(r, after, g.next, Index(c)) by {
      AtSame(s, after, g.next, Index(c), r);
    }
    assert r[at] == Invalidated(s[at]);
    assert Size(Hit(g)) == n;
  }

  /** Index of the first group with the key, or the number of groups. */
  method FindGroup(table: GroupTable, k: Key) returns (i: nat)
    requires table.Valid()
    ensures i <= |table.view|
    ensures i < |table.view| ==> table.view[i].info.key == k
    ensures forall x :: 0 <= x < i ==> table.view[x].info.key != k
  {
    i := 0;
    while i < table.Count()
      invariant i <= |table.view|
      invariant forall x :: 0 <= x < i ==> table.view[x].info.key != k
    {
      if table.Get(i).info.key == k {
        return;
      }
      i := i + 1;
    }
  }

  method Smear(table: GroupTable, lo: nat, hi: nat)
    requires table.Valid() && lo <= hi <= |table.view|
    modifies table`view, table.groups
    ensures table.Valid() && Smeared(old(table.view), lo, hi, table.view)
  {
    var c := lo;
    while c < hi
      invariant table.Valid() && lo <= c <= hi && Smeared(old(table.view), lo, c, table.view)
    {
      table.Set(c, Invalidated(table.Get(c)));
      c := c + 1;
    }
  }

  /** Marks the first group with key k, its subtree and its ancestors. */
  method MarkKey(table: GroupTable, k: Key, ghost tree: Forest)
    requires table.Valid() && Whole(table.view, Top, tree) && (tree.Tree? ==> tree.next == Nil)
    modifies table`view, table.groups
    ensures table.Valid() && |table.view| == |old(table.view)|
    ensures Whole(table.view, Top, Mark(tree, k))
  {
    ghost var s := table.view;
    var i := FindGroup(table, k);
    if i == table.Count() {
      if HasKey(tree, k) { FocusFirst(s, Top, tree, k); }
      AbsentMark(tree, k);
      return;
    }
    if !HasKey(tree, k) { AbsentAt(s, 0, tree, 0, k); }
    FocusFirst(s, Top, tree, k);
    hide At, Around;
    ghost var c, g := FocusCtx(Top, tree, k), FocusSeg(tree, k);
    FocusPlug(Top, tree, k);
    SameTree(s, Top, tree, c, g);
    MarkFound(table, i, c, g);
    FocusMark(Top, tree, k);
    SameTree(table.view, Climbed(c, Taint), Hit(g), Top, Mark(tree, k));
  }

  /** Marks the group at index i, its subtree and its ancestors. */
  method MarkFound(table: GroupTable, i: nat, ghost c: Ctx, ghost g: Forest)
    requires table.Valid() && Whole(table.view, c, g) && g.Tree? && i == Cursor(c) < |table.view|
    modifies table`view, table.groups
    ensures table.Valid() && |table.view| == |old(table.view)| && Whole(table.view, Climbed(c, Taint), Hit(g))
  {
    hide At, Around, Whole;
    ghost var s := table.view;
    HeadRecord(s, c, g.info, g.kids, g.next);
    var target := table.Get(i);
    Smear(table, i, i + 1 + target.size);
    SmearHits(s, c, g, table.view);
    ghost var s1 := table.view;
    if i > 0 {
      WholeLinked(s1, c, Hit(g));
      HoldNothing(s1, target.parent);
      ClimbFrom(table, target.parent, Taint);
    }
    MarkDone(s1, table.view, c, Hit(g));
  }

  lemma {:induction false} MarkDone(s1: seq<Group>, r: seq<Group>, c: Ctx, h: Forest)
    requires Whole(s1, c, h) && h.Tree?
    requires c.Open? ==> Index(c) < |s1| && r == Climb(s1, Index(c), Taint)
    requires c == Top ==> r == s1
    ensures Whole(r, Climbed(c, Taint), h)
  {
    var n := Size(h);
    ClimbedPlace(c, Taint);
    if c.Open? {
      AroundBound(s1, c, n, n);
      ClimbAround(s1, c, n, n, Taint);
      AtSame(s1, Cursor(c), h, Index(c), r);
    }
  }
}

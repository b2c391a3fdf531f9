/** How in-place edits of the flat table act on the tree it encodes. */
module Edits {
  import opened Trees

  // ------------------------------------------------------------------ frames

  lemma {:induction false} AtSame(s: seq<Group>, lo: nat, f: Forest, p: nat, s': seq<Group>)
    requires At(s, lo, f, p) && lo + Size(f) <= |s'| && lo + Size(f) <= |s|
    requires forall x {:trigger s[x]} :: lo <= x < lo + Size(f) ==> s'[x] == s[x]
    ensures At(s', lo, f, p)
    decreases f
  {
    if f.Tree? {
      AtSame(s, lo + 1, f.kids, lo, s');
      AtSame(s, lo + 1 + Size(f.kids), f.next, p, s');
    }
  }

  /** Around looks only outside the n records at the cursor. */
  lemma {:induction false} AroundSame(s: seq<Group>, c: Ctx, n: nat, m: nat, s': seq<Group>)
    requires Around(s, c, n, m) && |s'| == |s|
    requires forall x {:trigger s[x]} :: 0 <= x < Cursor(c) || Cursor(c) + n <= x < |s| ==> s'[x] == s[x]
    ensures Around(s', c, n, m)
  {
    if c.Open? {
      var k := 1 + Span(c, n);
      AroundBound(s, c.outer, k, 1 + Span(c, m));
      AroundSame(s, c.outer, k, 1 + Span(c, m), s');
      AtSame(s, Index(c) + 1, c.done, Index(c), s');
      AtSame(s, Cursor(c) + n, c.rest, Index(c), s');
    }
  }

  // ------------------------------------------------------------------ climbing to the root

  /** What a climb does to each open group it visits. */
  datatype Climber = Grow(delta: int) | Taint

  function Touch(g: Group, e: Climber): Group {
    match e
    case Grow(delta) => if g.size + delta >= 0 then g.(size := g.size + delta) else g
    case Taint => g.(info := g.info.(cinv := true))
  }

  /** Apply e to the group at i and to each of its ancestors up to the root at 0. */
  function Climb(s: seq<Group>, i: nat, e: Climber): (r: seq<Group>)
    requires i < |s|
    ensures |r| == |s| && r[i] == Touch(s[i], e)
    ensures forall x {:trigger r[x]} :: i < x < |s| ==> r[x] == s[x]
    decreases i
  {
    var s' := s[i := Touch(s[i], e)];
    if i == 0 || s[i].parent >= i then s' else Climb(s', s[i].parent, e)
  }

  function Climbed(c: Ctx, e: Climber): Ctx {
    match c
    case Top => Top
    case Open(info, done, rest, outer) =>
      Open(if e.Taint? then info.(cinv := true) else info, done, rest, Climbed(outer, e))
  }

  function Lagged(m: nat, e: Climber): int {
    if e.Grow? then m + e.delta else m
  }

  lemma {:induction false} ClimbedPlace(c: Ctx, e: Climber)
    ensures Index(Climbed(c, e)) == Index(c) && Cursor(Climbed(c, e)) == Cursor(c)
  {
    if c.Open? {
      ClimbedPlace(c.outer, e);
    }
  }

  /** Put an open group back around its children when only its own record and the groups
      further out have changed. */
  lemma {:induction false} AroundRebuilt(s: seq<Group>, c: Ctx, n: nat, m: nat, r: seq<Group>, c': Ctx, m': nat)
    requires c.Open? && Around(s, c, n, m) && |r| == |s|
    requires c'.Open? && c'.done == c.done && c'.rest == c.rest && Cursor(c'.outer) == Cursor(c.outer)
    requires Around(r, c'.outer, 1 + Span(c, n), 1 + Span(c, m'))
    requires r[Index(c)] == Group(c'.info, Index(c'.outer), Span(c, m'))
    requires forall x {:trigger s[x]} :: Index(c) < x < |s| ==> r[x] == s[x]
    ensures Around(r, c', n, m')
  {
    hide At;
    AroundBound(r, c'.outer, 1 + Span(c, n), 1 + Span(c, m'));
    AtSame(s, Index(c) + 1, c.done, Index(c), r);
    AtSame(s, Cursor(c) + n, c.rest, Index(c), r);
  }

  /** A climb touches every open group and nothing else. */
  lemma {:induction false} ClimbAround(s: seq<Group>, c: Ctx, n: nat, m: nat, e: Climber)
    requires c.Open? && Around(s, c, n, m) && Lagged(m, e) >= 0
    ensures Index(c) < |s|
    ensures Around(Climb(s, Index(c), e), Climbed(c, e), n, Lagged(m, e))
    decreases c
  {
    var i, k, l := Index(c), 1 + Span(c, n), 1 + Span(c, m);
    var s' := s[i := Touch(s[i], e)];
    var r := Climb(s, i, e);
    var c' := Climbed(c, e);
    ClimbedPlace(c.outer, e);
    AroundSame(s, c.outer, k, l, s');
    assert Lagged(l, e) == 1 + Span(c, Lagged(m, e));
    assert Around(r, c'.outer, k, Lagged(l, e)) by {
      if c.outer.Open? {
        ClimbAround(s', c.outer, k, l, e);
      }
    }
    assert r[i] == Group(c'.info, Index(c'.outer), Span(c, Lagged(m, e)));
    AroundRebuilt(s, c, n, m, r, c', Lagged(m, e));
  }

  /** Every group on the way from i to the root counts at least n descendants. */
  ghost predicate AllHold(s: seq<Group>, i: nat, n: nat)
    requires i < |s|
    decreases i
  {
    s[i].size >= n && (i > 0 ==> s[i].parent < i && AllHold(s, s[i].parent, n))
  }

  /** The descendant counts of the open groups never fall below what is about to be removed. */
  lemma {:induction false} OpenGroupsCover(s: seq<Group>, c: Ctx, k: nat, n: nat)
    requires c.Open? && Around(s, c, k, k) && n <= k
    ensures Index(c) < |s| && AllHold(s, Index(c), n)
    decreases c
  {
    if c.outer.Open? {
      OpenGroupsCover(s, c.outer, 1 + Span(c, k), n);
    }
  }

  /** A climb from further down changes no size further up before it gets there. */
  lemma {:induction false} HoldSame(s: seq<Group>, at: nat, g: Group, i: nat, n: nat)
    requires i < at < |s| && AllHold(s, i, n)
    ensures AllHold(s[at := g], i, n)
    decreases i
  {
    if i > 0 {
      HoldSame(s, at, g, s[i].parent, n);
    }
  }

  // ------------------------------------------------------------------ parent links

  ghost predicate Linked(s: seq<Group>) {
    forall x :: 0 <= x < |s| ==> s[x].parent <= x && (x > 0 ==> s[x].parent < x)
  }

  lemma {:induction false} AtParents(s: seq<Group>, lo: nat, f: Forest, p: nat)
    requires At(s, lo, f, p) && lo + Size(f) <= |s|
    ensures forall x :: lo <= x < lo + Size(f) ==> s[x].parent == p || lo <= s[x].parent < x
    decreases f
  {
    if f.Tree? {
      AtParents(s, lo + 1, f.kids, lo);
      AtParents(s, lo + 1 + Size(f.kids), f.next, p);
    }
  }

  /** In an encoding every parent link points backwards, so climbs terminate. */
  lemma {:induction false} WholeLinked(s: seq<Group>, c: Ctx, f: Forest)
    requires Whole(s, c, f)
    ensures Linked(s)
  {
    WholeIsPlug(s, c, f);
    AtParents(s, 0, Plug(c, f), 0);
  }

  // ------------------------------------------------------------------ moving the tail

  /** The first n records stay where they are. */
  ghost predicate Kept(s: seq<Group>, n: nat, r: seq<Group>) {
    n <= |s| && n <= |r| && forall x {:trigger s[x]} :: 0 <= x < n ==> r[x] == s[x]
  }

  /** The n records at index at become n' records: those before stay, those after are
      carried along by sh. */
  ghost predicate Edited(s: seq<Group>, at: nat, n: nat, s': seq<Group>, n': nat, sh: Shift) {
    && at + n <= |s| && |s'| == |s| - n + n'
    && Kept(s, at, s')
    && Translates(sh, 0, at, 0)
    && Translates(sh, at + n, |s|, n' - n)
    && Carried(s, at + n, |s|, sh, s', n' - n)
  }

  lemma {:induction false} EditedWider(s: seq<Group>, at: nat, n: nat, s': seq<Group>, n': nat, sh: Shift, at2: nat,
                                       k: nat, k': nat)
    requires Edited(s, at, n, s', n', sh)
    requires at2 <= at && at + n <= at2 + k <= |s| && k' - k == n' - n
    ensures Edited(s, at2, k, s', k', sh)
  {}

  lemma {:induction false} EditedBefore(s: seq<Group>, at: nat, n: nat, s': seq<Group>, n': nat, sh: Shift, lo: nat,
                                        f: Forest, p: nat)
    requires Edited(s, at, n, s', n', sh) && lo + Size(f) <= at && At(s, lo, f, p)
    ensures At(s', lo, f, p)
  {
    AtSame(s, lo, f, p, s');
  }

  lemma {:induction false} EditedAfter(s: seq<Group>, at: nat, n: nat, s': seq<Group>, n': nat, sh: Shift, f: Forest,
                                       p: nat)
    requires Edited(s, at, n, s', n', sh) && p < at && at + n + Size(f) <= |s| && At(s, at + n, f, p)
    ensures At(s', at + n', f, p)
  {
    hide At;
    assert (at + n) + (n' - n) == at + n';
    AtCarried(s, at + n, f, p, sh, s', n' - n);
  }

  /** An edit at the cursor keeps the surroundings. */
  lemma {:induction false} AroundEdited(s: seq<Group>, c: Ctx, n: nat, m: nat, s': seq<Group>, n': nat, sh: Shift)
    requires Around(s, c, n, m) && Edited(s, Cursor(c), n, s', n', sh)
    ensures Around(s', c, n', m)
    decreases c
  {
    if c.Open? {
      var k, k', l := 1 + Span(c, n), 1 + Span(c, n'), 1 + Span(c, m);
      assert Around(s', c.outer, k', l) by {
        AroundBound(s, c.outer, k, l);
        EditedWider(s, Cursor(c), n, s', n', sh, Cursor(c.outer), k, k');
        AroundEdited(s, c.outer, k, l, s', k', sh);
      }
      assert At(s', Index(c) + 1, c.done, Index(c)) by {
        EditedBefore(s, Cursor(c), n, s', n', sh, Index(c) + 1, c.done, Index(c));
      }
      assert At(s', Cursor(c) + n', c.rest, Index(c)) by {
        AroundBound(s, c.outer, k, l);
        EditedAfter(s, Cursor(c), n, s', n', sh, c.rest, Index(c));
      }
    }
  }

  // ------------------------------------------------------------------ insertion

  /** r is s with g inserted at index at and the records after it renumbered. */
  ghost predicate Spliced(s: seq<Group>, at: nat, g: Group, r: seq<Group>) {
    && |r| == |s| + 1
    && Kept(s, at, r)
    && r[at] == g
    && Carried(s, at, |s|, Inserted(at), r, 1)
  }

  lemma {:induction false} InsertAround(s: seq<Group>, c: Ctx, n: nat, g: Group, s1: seq<Group>, r: seq<Group>)
    requires c.Open? && Around(s, c, n, n) && Spliced(s, Cursor(c), g, s1)
    requires Index(c) < |s1| && r == Climb(s1, Index(c), Grow(1))
    ensures Around(r, c, n + 1, n + 1)
  {
    assert Around(s1, c, n + 1, n) by {
      AroundBound(s, c, n, n);
      AroundEdited(s, c, n, n, s1, n + 1, Inserted(Cursor(c)));
    }
    ClimbAround(s1, c, n + 1, n, Grow(1));
    GrowKeeps(c, 1);
  }

  lemma {:induction false} InsertAt(s: seq<Group>, at: nat, f: Forest, i: nat, info: Info, s1: seq<Group>,
                                    r: seq<Group>)
    requires i < at && at + Size(f) <= |s| && At(s, at, f, i) && Spliced(s, at, Group(info, i, 0), s1)
    requires r == Climb(s1, i, Grow(1))
    ensures At(r, at, Tree(info, Nil, f), i)
  {
    assert At(s1, at + 1, f, i) by {
      AtCarried(s, at, f, i, Inserted(at), s1, 1);
    }
    assert At(r, at + 1, f, i) by {
      AtSame(s1, at + 1, f, i, r);
    }
    assert r[at] == s1[at];
  }

  /** Splicing a leaf in at the cursor and growing the open groups inserts that leaf. */
  lemma {:induction false} InsertEncodes(s: seq<Group>, c: Ctx, f: Forest, info: Info, s1: seq<Group>, r: seq<Group>)
    requires c.Open? && Whole(s, c, f)
    requires Spliced(s, Cursor(c), Group(info, Index(c), 0), s1)
    requires Index(c) < |s1| && r == Climb(s1, Index(c), Grow(1))
    ensures Whole(r, c, Tree(info, Nil, f))
  {
    var n := Size(f);
    assert Size(Tree(info, Nil, f)) == n + 1;
    hide At, Around, Climb, Spliced;
    AroundBound(s, c, n, n);
    InsertAround(s, c, n, Group(info, Index(c), 0), s1, r);
    InsertAt(s, Cursor(c), f, Index(c), info, s1, r);
  }

  lemma {:induction false} GrowKeeps(c: Ctx, delta: int)
    ensures Climbed(c, Grow(delta)) == c
  {
    if c.Open? {
      GrowKeeps(c.outer, delta);
    }
  }

  // ------------------------------------------------------------------ removal

  /** r is s with n records cut out at index at and the records after them renumbered. */
  ghost predicate Cut(s: seq<Group>, at: nat, n: nat, r: seq<Group>) {
    && |r| == |s| - n
    && Kept(s, at, r)
    && Carried(s, at + n, |s|, Removed(at, n), r, -(n as int))
  }

  function Shrunk(s: seq<Group>, c: Ctx, n: nat): seq<Group>
    requires c.Open? ==> Index(c) < |s|
  {
    if c.Open? then Climb(s, Index(c), Grow(-(n as int))) else s
  }

  lemma {:induction false} ShrinkAround(s: seq<Group>, c: Ctx, k: nat, n: nat)
    requires Around(s, c, k, k) && n <= k
    requires c.Open? ==> Index(c) < |s|
    ensures Around(Shrunk(s, c, n), c, k, k - n)
  {
    if c.Open? {
      ClimbAround(s, c, k, k, Grow(-(n as int)));
      GrowKeeps(c, -(n as int));
    }
  }

  lemma {:induction false} CutAround(s1: seq<Group>, c: Ctx, k: nat, n: nat, r: seq<Group>)
    requires n <= k && Around(s1, c, k, k - n) && Cut(s1, Cursor(c), n, r)
    ensures Around(r, c, k - n, k - n)
  {
    hide Around;
    AroundBound(s1, c, k, k - n);
    EditedWider(s1, Cursor(c), n, r, 0, Removed(Cursor(c), n), Cursor(c), k, k - n);
    AroundEdited(s1, c, k, k - n, r, k - n, Removed(Cursor(c), n));
  }

  lemma {:induction false} CutAt(s1: seq<Group>, at: nat, n: nat, next: Forest, i: nat, r: seq<Group>)
    requires i < at + n && at + n + Size(next) <= |s1|
    requires At(s1, at + n, next, i) && Cut(s1, at, n, r)
    ensures At(r, at, next, i)
  {
    AtCarried(s1, at + n, next, i, Removed(at, n), r, -(n as int));
  }

  /** Shrinking the open groups and cutting a subtree out at the cursor removes it. */
  lemma {:induction false} PruneEncodes(s: seq<Group>, c: Ctx, info: Info, kids: Forest, next: Forest, s1: seq<Group>,
                                        r: seq<Group>)
    requires Whole(s, c, Tree(info, kids, next))
    requires c.Open? ==> Index(c) < |s|
    requires s1 == Shrunk(s, c, 1 + Size(kids)) && Cut(s1, Cursor(c), 1 + Size(kids), r)
    ensures Whole(r, c, next)
  {
    var i, at, n, k := Index(c), Cursor(c), 1 + Size(kids), Size(Tree(info, kids, next));
    var to := at + 1 + Size(kids);
    assert to == at + n && Size(next) == k - n;
    AroundBound(s, c, k, k);
    assert Around(r, c, k - n, k - n) by {
      ShrinkAround(s, c, k, n);
      CutAround(s1, c, k, n, r);
    }
    assert At(s1, to, next, i) by {
      AtSame(s, to, next, i, s1);
    }
    CutAt(s1, at, n, next, i, r);
  }

  // ------------------------------------------------------------------ rotation

  /** r is s with the n records at index from moved back to index to, all links renumbered. */
  ghost predicate Turned(s: seq<Group>, to: nat, from: nat, n: nat, r: seq<Group>) {
    && |r| == |s| && to <= from
    && Kept(s, to, r)
    && Carried(s, from, from + n, Rotated(to, from, n), r, to - from)
    && Carried(s, to, from, Rotated(to, from, n), r, n)
    && Carried(s, from + n, |s|, Rotated(to, from, n), r, 0)
  }

  lemma {:induction false} TurnTranslates(to: nat, from: nat, n: nat, m: nat)
    requires to <= from && from + n <= m
    ensures var sh := Rotated(to, from, n);
            && Translates(sh, 0, to, 0)
            && Translates(sh, to, from, n)
            && Translates(sh, from, from + n, to - from)
            && Translates(sh, from + n, m, 0)
  {}

  lemma {:induction false} TurnedAround(s: seq<Group>, c: Ctx, k: nat, to: nat, from: nat, n: nat, r: seq<Group>)
    requires c.Open? && to == Cursor(c) && Around(s, c, k, k) && from + n <= to + k
    requires Turned(s, to, from, n, r)
    ensures Around(r, c, k, k)
  {
    AroundBound(s, c, k, k);
    AroundEdited(s, c, k, k, r, k, Rotated(to, from, n));
  }

  lemma {:induction false} TurnedMoved(s: seq<Group>, to: nat, from: nat, n: nat, info: Info, kids: Forest, i: nat,
                                       r: seq<Group>)
    requires i < to && n == 1 + Size(kids) && from + n <= |s|
    requires Turned(s, to, from, n, r)
    requires At(s, from, Tree(info, kids, Nil), i)
    ensures At(r, to, Tree(info, kids, Nil), i)
  {
    TurnTranslates(to, from, n, |s|);
    AtCarried(s, from, Tree(info, kids, Nil), i, Rotated(to, from, n), r, to - from);
  }

  lemma {:induction false} TurnedSkipped(s: seq<Group>, to: nat, from: nat, n: nat, skipped: Forest, i: nat,
                                         r: seq<Group>)
    requires i < to && from == to + Size(skipped) && from + n <= |s|
    requires Turned(s, to, from, n, r)
    requires At(s, to, skipped, i)
    ensures At(r, to + n, skipped, i)
  {
    TurnTranslates(to, from, n, |s|);
    AtCarried(s, to, skipped, i, Rotated(to, from, n), r, n);
  }

  lemma {:induction false} TurnedTail(s: seq<Group>, to: nat, from: nat, n: nat, next: Forest, i: nat, r: seq<Group>)
    requires i < to && from + n + Size(next) <= |s|
    requires Turned(s, to, from, n, r)
    requires At(s, from + n, next, i)
    ensures At(r, from + n, next, i)
  {
    TurnTranslates(to, from, n, |s|);
    AtCarried(s, from + n, next, i, Rotated(to, from, n), r, 0);
  }

  /** Rotating a sibling subtree to the cursor brings it to the front of the siblings. */
  lemma {:induction false} RotateEncodes(s: seq<Group>, c: Ctx, to: nat, from: nat, n: nat, skipped: Forest,
                                         info: Info, kids: Forest, next: Forest, r: seq<Group>)
    requires c.Open? && Whole(s, c, Append(skipped, Tree(info, kids, next)))
    requires to == Cursor(c) && from == to + Size(skipped) && n == 1 + Size(kids) && Turned(s, to, from, n, r)
    ensures Whole(r, c, Tree(info, kids, Append(skipped, next)))
  {
    var i, k := Index(c), Size(skipped) + n + Size(next);
    var f, f' := Append(skipped, Tree(info, kids, next)), Tree(info, kids, Append(skipped, next));
    assert Size(f) == k && Size(f') == k by {
      AppendSize(skipped, Tree(info, kids, next));
      AppendSize(skipped, next);
    }
    AroundBound(s, c, k, k);
    TurnedAround(s, c, k, to, from, n, r);
    assert At(r, to, f', i) by {
      AtAppend(s, to, skipped, Tree(info, kids, next), i);
      RotateAt(s, to, from, n, skipped, info, kids, next, i, r);
    }
  }

  lemma {:induction false} RotateAt(s: seq<Group>, to: nat, from: nat, n: nat, skipped: Forest, info: Info,
                                    kids: Forest, next: Forest, i: nat, r: seq<Group>)
    requires i < to && from == to + Size(skipped) && n == 1 + Size(kids) && from + n + Size(next) <= |s|
    requires At(s, to, skipped, i) && At(s, from, Tree(info, kids, next), i)
    requires Turned(s, to, from, n, r)
    ensures At(r, to, Tree(info, kids, Append(skipped, next)), i)
  {
    var t := Tree(info, kids, Nil);
    assert Size(t) == n;
    AtAppend(s, from, t, next, i);
    assert At(r, to, t, i) by {
      TurnedMoved(s, to, from, n, info, kids, i, r);
    }
    assert At(r, to + n, skipped, i) by {
      TurnedSkipped(s, to, from, n, skipped, i, r);
    }
    assert At(r, to + n + Size(skipped), next, i) by {
      assert to + n + Size(skipped) == from + n;
      TurnedTail(s, to, from, n, next, i, r);
    }
    AtThree(r, to, t, skipped, next, i);
    assert Append(t, Append(skipped, next)) == Tree(info, kids, Append(skipped, next));
  }
}

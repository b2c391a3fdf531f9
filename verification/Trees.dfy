/** Group trees and their preorder encoding.

    A session stores its tree of groups as one preorder sequence: each record carries
    the index of its parent and the number of its descendants.  This module defines the
    tree, what it means for a sequence to encode it, and the zipper that describes the
    table in the middle of a traversal, when a stack of groups is open. */
module Trees {
  import opened Basics

  /** What a group record holds besides its structural links. */
  datatype Info = Info(
    key: Key,
    id: nat,            // stable identity of the group
    inv: bool,          // the group's own body must run again
    cinv: bool,         // some descendant must run again
    mount: bool,        // mounted during this pass
    slotIndex: nat,
    slotCount: nat
  )

  datatype Group = Group(info: Info, parent: nat, size: nat)

  /** First-child / next-sibling forest. */
  datatype Forest = Nil | Tree(info: Info, kids: Forest, next: Forest)

  function Size(f: Forest): nat {
    match f
    case Nil => 0
    case Tree(_, kids, next) => 1 + Size(kids) + Size(next)
  }

  function Append(f: Forest, g: Forest): Forest {
    match f
    case Nil => g
    case Tree(info, kids, next) => Tree(info, kids, Append(next, g))
  }

  /** s holds the preorder encoding of f from index lo on, below the group at index p. */
  ghost predicate At(s: seq<Group>, lo: nat, f: Forest, p: nat)
    decreases f
  {
    match f
    case Nil => true
    case Tree(info, kids, next) =>
      && lo < |s|
      && s[lo] == Group(info, p, Size(kids))
      && At(s, lo + 1, kids, lo)
      && At(s, lo + 1 + Size(kids), next, p)
  }

  lemma {:induction false} AppendSize(f: Forest, g: Forest)
    ensures Size(Append(f, g)) == Size(f) + Size(g)
  {
    if f.Tree? {
      AppendSize(f.next, g);
    }
  }

  lemma {:induction false} AppendNil(f: Forest)
    ensures Append(f, Nil) == f
  {
    if f.Tree? {
      AppendNil(f.next);
    }
  }

  lemma {:induction false} AppendAssoc(f: Forest, g: Forest, h: Forest)
    ensures Append(Append(f, g), h) == Append(f, Append(g, h))
  {
    if f.Tree? {
      AppendAssoc(f.next, g, h);
    }
  }

  lemma {:induction false} AtAppend(s: seq<Group>, lo: nat, f: Forest, g: Forest, p: nat)
    ensures At(s, lo, Append(f, g), p) <==> At(s, lo, f, p) && At(s, lo + Size(f), g, p)
    decreases f
  {
    if f.Tree? {
      AtAppend(s, lo + 1 + Size(f.kids), f.next, g, p);
    }
  }

  // ------------------------------------------------------------------ renumbering

  /** The three renumberings a structural edit applies to parent links. */
  datatype Shift =
    | Inserted(at: nat)
    | Removed(at: nat, count: nat)
    | Rotated(to: nat, from: nat, count: nat)

  function Moved(s: Shift, x: nat): nat {
    match s
    case Inserted(at) => if x >= at then x + 1 else x
    case Removed(at, count) => if x >= at + count then x - count else x
    case Rotated(to, from, count) =>
      if from <= x < from + count then to + (x - from)
      else if to <= x < from then x + count
      else x
  }

  function Relink(g: Group, s: Shift): Group {
    g.(parent := Moved(s, g.parent))
  }

  /** sh sends every index of lo..hi to the one d places further. */
  ghost predicate Translates(sh: Shift, lo: nat, hi: nat, d: int) {
    forall x :: lo <= x < hi ==> Moved(sh, x) == x + d
  }

  /** From s to s' the records lo..hi travel by d places, relinked by sh. */
  ghost predicate Carried(s: seq<Group>, lo: nat, hi: nat, sh: Shift, s': seq<Group>, d: int) {
    && hi <= |s| && 0 <= lo + d && hi + d <= |s'|
    && forall x {:trigger s[x]} :: lo <= x < hi ==> s'[x + d] == Relink(s[x], sh)
  }

  /** Carrying the records of a forest carries its encoding. */
  lemma {:induction false} AtCarried(s: seq<Group>, lo: nat, f: Forest, p: nat, sh: Shift, s': seq<Group>, d: int)
    requires At(s, lo, f, p) && Carried(s, lo, lo + Size(f), sh, s', d) && Translates(sh, lo, lo + Size(f), d)
    ensures At(s', lo + d, f, Moved(sh, p))
    decreases f
  {
    if f.Tree? {
      var mid, at := lo + 1 + Size(f.kids), lo + d;
      assert s'[at] == Relink(s[lo], sh) && Moved(sh, lo) == at;
      AtCarried(s, lo + 1, f.kids, lo, sh, s', d);
      AtCarried(s, mid, f.next, p, sh, s', d);
      assert lo + 1 + d == at + 1 && mid + d == at + 1 + Size(f.kids);
    }
  }

  // ------------------------------------------------------------------ zipper

  /** The open groups of a traversal, innermost first.  `done` holds the children already
      visited and `rest` the old children that follow the open one. */
  datatype Ctx = Top | Open(info: Info, done: Forest, rest: Forest, outer: Ctx)

  /** Index of the innermost open group. */
  function Index(c: Ctx): nat {
    match c
    case Top => 0
    case Open(_, _, _, outer) => Cursor(outer)
  }

  /** Index just after the visited children of the innermost open group. */
  function Cursor(c: Ctx): nat {
    match c
    case Top => 0
    case Open(_, done, _, outer) => Cursor(outer) + 1 + Size(done)
  }

  /** Number of descendants of the innermost open group when n groups sit at the cursor. */
  function Span(c: Ctx, n: nat): nat
    requires c.Open?
  {
    Size(c.done) + n + Size(c.rest)
  }

  /** s encodes everything around the n records that sit at the cursor of c, except that the
      sizes of the open groups count m records there.  In a settled table m is n; the two
      differ between a structural edit and the climb that repairs the sizes. */
  ghost predicate Around(s: seq<Group>, c: Ctx, n: nat, m: nat) {
    match c
    case Top => |s| == n
    case Open(info, done, rest, outer) =>
      && Cursor(c) + n <= |s|
      && s[Index(c)] == Group(info, Index(outer), Span(c, m))
      && At(s, Index(c) + 1, done, Index(c))
      && At(s, Cursor(c) + n, rest, Index(c))
      && Around(s, outer, 1 + Span(c, n), 1 + Span(c, m))
  }

  /** s is the whole table when the forest f sits at the cursor of c. */
  ghost predicate Whole(s: seq<Group>, c: Ctx, f: Forest) {
    At(s, Cursor(c), f, Index(c)) && Around(s, c, Size(f), Size(f))
  }

  /** The tree a traversal state stands for. */
  function Plug(c: Ctx, f: Forest): Forest {
    match c
    case Top => f
    case Open(info, done, rest, outer) => Plug(outer, Tree(info, Append(done, Append(f, rest)), Nil))
  }

  lemma {:induction false} AroundBound(s: seq<Group>, c: Ctx, n: nat, m: nat)
    requires Around(s, c, n, m)
    ensures Cursor(c) + n <= |s|
  {}

  /** The zipper and the tree it stands for have the same encodings. */
  lemma {:induction false} WholeIsPlug(s: seq<Group>, c: Ctx, f: Forest)
    ensures Whole(s, c, f) <==> At(s, 0, Plug(c, f), 0) && |s| == Size(Plug(c, f))
    decreases c
  {
    if c.Open? {
      var t := Tree(c.info, Append(c.done, Append(f, c.rest)), Nil);
      WholeIsPlug(s, c.outer, t);
      PopEncodes(s, c, f);
    }
  }

  lemma {:induction false} AtSingle(s: seq<Group>, lo: nat, info: Info, kids: Forest, p: nat)
    ensures At(s, lo, Tree(info, kids, Nil), p) <==>
            lo < |s| && s[lo] == Group(info, p, Size(kids)) && At(s, lo + 1, kids, lo)
  {}

  /** The children of an open group, in three parts. */
  lemma {:induction false} AtThree(s: seq<Group>, lo: nat, f: Forest, g: Forest, h: Forest, p: nat)
    ensures Size(Append(f, Append(g, h))) == Size(f) + Size(g) + Size(h)
    ensures At(s, lo, Append(f, Append(g, h)), p) <==>
            At(s, lo, f, p) && At(s, lo + Size(f), g, p) && At(s, lo + Size(f) + Size(g), h, p)
  {
    AtAppend(s, lo, f, Append(g, h), p);
    AtAppend(s, lo + Size(f), g, h, p);
    AppendSize(f, Append(g, h));
    AppendSize(g, h);
  }

  /** What Around says of an open group, spelled out from the group's own index. */
  lemma {:induction false} AroundOpen(s: seq<Group>, c: Ctx, n: nat, m: nat)
    requires c.Open?
    ensures Around(s, c, n, m) <==>
            && Index(c) + 1 + Size(c.done) + n <= |s|
            && s[Index(c)] == Group(c.info, Index(c.outer), Span(c, m))
            && At(s, Index(c) + 1, c.done, Index(c))
            && At(s, Index(c) + 1 + Size(c.done) + n, c.rest, Index(c))
            && Around(s, c.outer, 1 + Span(c, n), 1 + Span(c, m))
  {
    assert Cursor(c) + n == Index(c) + 1 + Size(c.done) + n;
  }

  /** The innermost open group with its children in place, as one tree. */
  function Closing(c: Ctx, f: Forest): Forest
    requires c.Open?
  {
    Tree(c.info, Append(c.done, Append(f, c.rest)), Nil)
  }

  lemma {:induction false} ClosingAt(s: seq<Group>, c: Ctx, f: Forest)
    requires c.Open?
    ensures Size(Closing(c, f)) == 1 + Span(c, Size(f))
    ensures At(s, Index(c), Closing(c, f), Index(c.outer)) <==>
            && Index(c) < |s| && s[Index(c)] == Group(c.info, Index(c.outer), Span(c, Size(f)))
            && At(s, Index(c) + 1, c.done, Index(c))
            && At(s, Cursor(c), f, Index(c))
            && At(s, Index(c) + 1 + Size(c.done) + Size(f), c.rest, Index(c))
  {
    var kids := Append(c.done, Append(f, c.rest));
    assert Cursor(c) == Index(c) + 1 + Size(c.done);
    AtThree(s, Index(c) + 1, c.done, f, c.rest, Index(c));
    AtSingle(s, Index(c), c.info, kids, Index(c.outer));
  }

  /** Closing the innermost group leaves the encoding as it is. */
  lemma {:induction false} PopEncodes(s: seq<Group>, c: Ctx, f: Forest)
    requires c.Open?
    ensures Whole(s, c, f) <==> Whole(s, c.outer, Closing(c, f))
  {
    var n := 1 + Span(c, Size(f));
    AroundOpen(s, c, Size(f), Size(f));
    ClosingAt(s, c, f);
    if Around(s, c.outer, n, n) {
      AroundBound(s, c.outer, n, n);
    }
  }
}

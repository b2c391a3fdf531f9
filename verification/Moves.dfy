/** Moves of the traversal cursor: they change what is open, never the table. */
module Moves {
  import opened Trees
  import opened Edits

  /** Two traversal states of one tree have the same encodings. */
  lemma {:induction false} SameTree(s: seq<Group>, c: Ctx, f: Forest, c': Ctx, f': Forest)
    requires Plug(c, f) == Plug(c', f')
    ensures Whole(s, c, f) <==> Whole(s, c', f')
  {
    WholeIsPlug(s, c, f);
    WholeIsPlug(s, c', f');
  }

  /** Entering the group at the cursor. */
  lemma {:induction false} EnterMove(s: seq<Group>, c: Ctx, info: Info, kids: Forest, next: Forest)
    requires c.Open? && c.rest == Nil && Whole(s, c, Tree(info, kids, next))
    ensures Whole(s, Open(info, Nil, Nil, c.(rest := next)), kids)
  {
    assert Append(Tree(info, kids, next), Nil) == Tree(info, kids, next) by { AppendNil(next); }
    AppendNil(kids);
    assert Append(Tree(info, kids, Nil), next) == Tree(info, kids, next);
    SameTree(s, c, Tree(info, kids, next), Open(info, Nil, Nil, c.(rest := next)), kids);
  }

  /** Entering the root. */
  lemma {:induction false} EnterRoot(s: seq<Group>, info: Info, kids: Forest)
    requires Whole(s, Top, Tree(info, kids, Nil))
    ensures Whole(s, Open(info, Nil, Nil, Top), kids)
  {
    AppendNil(kids);
    SameTree(s, Top, Tree(info, kids, Nil), Open(info, Nil, Nil, Top), kids);
  }

  /** Skipping the group at the cursor. */
  lemma {:induction false} SkipMove(s: seq<Group>, c: Ctx, info: Info, kids: Forest, next: Forest)
    requires c.Open? && Whole(s, c, Tree(info, kids, next))
    ensures Whole(s, c.(done := Append(c.done, Tree(info, kids, Nil))), next)
  {
    var t := Tree(info, kids, Nil);
    assert Append(t, Append(next, c.rest)) == Append(Tree(info, kids, next), c.rest);
    AppendAssoc(c.done, t, Append(next, c.rest));
    SameTree(s, c, Tree(info, kids, next), c.(done := Append(c.done, t)), next);
  }

  /** Leaving a group all of whose children have been visited. */
  lemma {:induction false} ExitMove(s: seq<Group>, info: Info, done: Forest, c: Ctx)
    requires c.Open? && Whole(s, Open(info, done, Nil, c), Nil)
    ensures Whole(s, c.(rest := Nil, done := Append(c.done, Tree(info, done, Nil))), c.rest)
  {
    var t := Tree(info, done, Nil);
    AppendNil(done);
    AppendNil(c.rest);
    AppendAssoc(c.done, t, c.rest);
    SameTree(s, Open(info, done, Nil, c), Nil, c.(rest := Nil, done := Append(c.done, t)), c.rest);
  }

  /** Leaving the root. */
  lemma {:induction false} ExitRoot(s: seq<Group>, info: Info, done: Forest)
    requires Whole(s, Open(info, done, Nil, Top), Nil)
    ensures Whole(s, Top, Tree(info, done, Nil))
  {
    AppendNil(done);
    SameTree(s, Open(info, done, Nil, Top), Nil, Top, Tree(info, done, Nil));
  }

  /** A tree is encoded by its root record, its children and its siblings. */
  lemma {:induction false} AtHead(s: seq<Group>, lo: nat, after: nat, info: Info, kids: Forest, next: Forest, p: nat)
    requires after == lo + 1 + Size(kids)
    ensures At(s, lo, Tree(info, kids, next), p) <==>
            lo < |s| && s[lo] == Group(info, p, Size(kids)) && At(s, lo + 1, kids, lo) && At(s, after, next, p)
  {}

  /** Rewriting the record at the cursor. */
  lemma {:induction false} SetHead(s: seq<Group>, c: Ctx, info: Info, kids: Forest, next: Forest, info': Info)
    requires Whole(s, c, Tree(info, kids, next))
    ensures Cursor(c) < |s| && s[Cursor(c)] == Group(info, Index(c), Size(kids))
    ensures Whole(s[Cursor(c) := s[Cursor(c)].(info := info')], c, Tree(info', kids, next))
  {
    var at, n, after := Cursor(c), Size(Tree(info, kids, next)), Cursor(c) + 1 + Size(kids);
    assert n == 1 + Size(kids) + Size(next) == Size(Tree(info', kids, next));
    hide At, Around, Size, Index, Cursor;
    AtHead(s, at, after, info, kids, next, Index(c));
    AroundBound(s, c, n, n);
    var r := s[at := s[at].(info := info')];
    AroundSame(s, c, n, n, r);
    AtSame(s, at + 1, kids, at, r);
    AtSame(s, after, next, Index(c), r);
    AtHead(r, at, after, info', kids, next, Index(c));
  }

  /** Rewriting the record of the open group. */
  lemma {:induction false} SetOpen(s: seq<Group>, c: Ctx, f: Forest, info': Info)
    requires c.Open? && Whole(s, c, f)
    ensures Index(c) < |s| && s[Index(c)] == Group(c.info, Index(c.outer), Span(c, Size(f)))
    ensures Whole(s[Index(c) := s[Index(c)].(info := info')], c.(info := info'), f)
  {
    hide At;
    var i, n := Index(c), Size(f);
    var r := s[i := s[i].(info := info')];
    AroundBound(s, c, n, n);
    AroundSame(s, c.outer, 1 + Span(c, n), 1 + Span(c, n), r);
    AroundRebuilt(s, c, n, n, r, c.(info := info'), n);
    AtSame(s, Cursor(c), f, i, r);
  }
}

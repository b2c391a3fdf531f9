/** Marking reaches its targets: after a drain, a group left clean has no queued key on its
    path from the root. */
module Marks {
  import opened Basics
  import opened Trees
  import opened Programs
  import opened Passes
  import opened Flags
  import opened Watchers

  // ------------------------------------------------------------------ marks reach their targets

  /** No index from m on of the path to x names k. */
  predicate Avoids(p: Program, x: Key, k: Key, m: nat) {
    forall i :: m <= i < |p.path(x)| ==> p.path(x)[i] != k
  }

  /** No clean group of f has k on its path from index m on. */
  ghost predicate Silent(p: Program, f: Forest, k: Key, m: nat) {
    f.Tree? ==>
      && (!Dirty(f.info) ==> Avoids(p, f.info.key, k, m))
      && Silent(p, f.kids, k, m)
      && Silent(p, f.next, k, m)
  }

  /** A key that does not occur in a conforming forest is on no path into it. */
  lemma {:induction false} AbsentAvoided(p: Program, q: Key, f: Forest, k: Key, x: Key)
    requires Conform(p, q, f) && !HasKey(f, k) && HasKey(f, x)
    ensures Avoids(p, x, k, |p.path(q)|)
    decreases f
  {
    KeyHasBranch(p, q, f, x);
    RootHasKey(f, Branch(p, q, x));
    if f.info.key == x {
    } else if HasKey(f.kids, x) {
      AbsentAvoided(p, f.info.key, f.kids, k, x);
    } else {
      AbsentAvoided(p, q, f.next, k, x);
    }
  }

  lemma {:induction false} RootHasKey(f: Forest, k: Key)
    requires HasRoot(f, k)
    ensures HasKey(f, k)
  {
    if f.info.key != k {
      RootHasKey(f.next, k);
    }
  }

  lemma {:induction false} AbsentSilent(p: Program, f: Forest, k: Key, m: nat)
    requires forall x :: HasKey(f, x) ==> Avoids(p, x, k, m)
    ensures Silent(p, f, k, m)
  {
    if f.Tree? {
      assert HasKey(f, f.info.key);
      AbsentSilent(p, f.kids, k, m);
      AbsentSilent(p, f.next, k, m);
    }
  }

  lemma {:induction false} MarkAllSilent(p: Program, f: Forest, k: Key, m: nat)
    ensures Silent(p, MarkAll(f), k, m)
  {
    if f.Tree? {
      MarkAllSilent(p, f.kids, k, m);
      MarkAllSilent(p, f.next, k, m);
    }
  }

  lemma {:induction false} MarkKeys(f: Forest, k: Key, x: Key)
    ensures HasKey(Mark(f, k), x) <==> HasKey(f, x)
    ensures HasKey(MarkAll(f), x) <==> HasKey(f, x)
    ensures HasRoot(Mark(f, k), x) <==> HasRoot(f, x)
    ensures HasRoot(MarkAll(f), x) <==> HasRoot(f, x)
  {
    if f.Tree? {
      MarkKeys(f.kids, k, x);
      MarkKeys(f.next, k, x);
    }
  }

  /** Looking one level further up the paths changes nothing when that level is not k. */
  lemma {:induction false} SilentWider(p: Program, f: Forest, k: Key, m: nat)
    requires Silent(p, f, k, m + 1)
    requires forall x :: HasKey(f, x) ==> m < |p.path(x)| && p.path(x)[m] != k
    ensures Silent(p, f, k, m)
  {
    if f.Tree? {
      assert HasKey(f, f.info.key);
      SilentWider(p, f.kids, k, m);
      SilentWider(p, f.next, k, m);
    }
  }

  /** After marking k, every group at or below a group with key k is dirty. */
  lemma {:induction false} MarkSilences(p: Program, q: Key, f: Forest, k: Key)
    requires Conform(p, q, f)
    ensures Silent(p, Mark(f, k), k, |p.path(q)|)
    decreases f
  {
    if f.Tree? {
      var r, m := f.info.key, |p.path(q)|;
      UnderChild(p, q, r, r);
      if HasKey(f.next, k) { KeyHasBranch(p, q, f.next, k); }
      if HasKey(f.kids, k) { KeyHasBranch(p, r, f.kids, k); UnderChild(p, q, r, k); }
      if r == k {
        MarkAllSilent(p, f.kids, k, m);
        MarkRest(p, q, f.next, k);
      } else if HasKey(f.kids, k) {
        MarkSilences(p, r, f.kids, k);
        forall x | HasKey(Mark(f.kids, k), x) ensures m < |p.path(x)| && p.path(x)[m] != k {
          MarkKeys(f.kids, k, x);
          KeyHasBranch(p, r, f.kids, x);
          UnderChild(p, q, r, x);
        }
        SilentWider(p, Mark(f.kids, k), k, m);
        MarkRest(p, q, f.next, k);
      } else {
        forall x | HasKey(f.kids, x) ensures Avoids(p, x, k, m) {
          AbsentAvoided(p, q, Tree(f.info, f.kids, Nil), k, x);
        }
        AbsentSilent(p, f.kids, k, m);
        MarkSilences(p, q, f.next, k);
      }
    }
  }

  lemma {:induction false} MarkRest(p: Program, q: Key, f: Forest, k: Key)
    requires Conform(p, q, f) && !HasKey(f, k)
    ensures Silent(p, f, k, |p.path(q)|)
  {
    forall x | HasKey(f, x) ensures Avoids(p, x, k, |p.path(q)|) {
      AbsentAvoided(p, q, f, k, x);
    }
    AbsentSilent(p, f, k, |p.path(q)|);
  }

  // ------------------------------------------------------------------ draining

  /** No clean group of f has a key of `keys` on its path. */
  ghost predicate Untouched(p: Program, f: Forest, keys: seq<Key>) {
    f.Tree? ==>
      && (!Dirty(f.info) ==> forall i :: 0 <= i < |keys| ==> Avoids(p, f.info.key, keys[i], 0))
      && Untouched(p, f.kids, keys)
      && Untouched(p, f.next, keys)
  }

  lemma {:induction false} UntouchedMark(p: Program, f: Forest, keys: seq<Key>, k: Key)
    requires Untouched(p, f, keys)
    ensures Untouched(p, Mark(f, k), keys) && Untouched(p, MarkAll(f), keys)
  {
    if f.Tree? {
      UntouchedMark(p, f.kids, keys, k);
      UntouchedMark(p, f.next, keys, k);
    }
  }

  lemma {:induction false} UntouchedMore(p: Program, f: Forest, keys: seq<Key>, k: Key)
    requires Untouched(p, f, keys) && Silent(p, f, k, 0)
    ensures Untouched(p, f, [k] + keys)
  {
    if f.Tree? {
      UntouchedMore(p, f.kids, keys, k);
      UntouchedMore(p, f.next, keys, k);
    }
  }

  lemma {:induction false} ConformMark(p: Program, q: Key, f: Forest, k: Key)
    requires Conform(p, q, f)
    ensures Conform(p, q, Mark(f, k)) && Conform(p, q, MarkAll(f))
    decreases f
  {
    if f.Tree? {
      ConformMark(p, f.info.key, f.kids, k);
      ConformMark(p, q, f.next, k);
      MarkKeys(f.next, k, f.info.key);
    }
  }

  /** A whole tree: one root, its descendants where their paths say. */
  ghost predicate Rooted(p: Program, f: Forest) {
    f.Tree? && f.next == Nil && f.info.key == p.root && !f.info.mount && Conform(p, p.root, f.kids)
  }

  lemma {:induction false} RootedMark(p: Program, f: Forest, keys: seq<Key>, k: Key)
    requires Keyed(p) && Rooted(p, f) && Untouched(p, f.kids, keys)
    ensures Rooted(p, Mark(f, k)) && Untouched(p, Mark(f, k).kids, [k] + keys)
  {
    ConformMark(p, p.root, f.kids, k);
    UntouchedMark(p, f.kids, keys, k);
    var kids := Mark(f, k).kids;
    if k == p.root {
      MarkAllSilent(p, f.kids, k, 0);
    } else {
      assert kids == Mark(f.kids, k) || (!HasKey(f.kids, k) && kids == f.kids);
      if HasKey(f.kids, k) { MarkSilences(p, p.root, f.kids, k); } else { MarkRest(p, p.root, f.kids, k); }
      forall x | HasKey(kids, x) ensures 0 < |p.path(x)| && p.path(x)[0] != k {
        MarkKeys(f.kids, k, x);
        KeyHasBranch(p, p.root, f.kids, x);
        assert p.path(x)[..1][0] == p.root;
      }
      SilentWider(p, kids, k, 0);
    }
    UntouchedMore(p, kids, keys, k);
  }

  /** Draining a queue leaves clean only groups with no queued key on their path. */
  lemma {:induction false} DrainSilences(p: Program, f: Forest, queue: seq<Key>, keys: seq<Key>)
    requires Keyed(p) && Rooted(p, f) && Untouched(p, f.kids, keys)
    ensures Rooted(p, Drain(f, queue)) && Untouched(p, Drain(f, queue).kids, queue + keys)
    decreases |queue|
  {
    if queue == [] {
      assert queue + keys == keys;
    } else {
      var n := |queue| - 1;
      RootedMark(p, f, keys, queue[n]);
      DrainSilences(p, Mark(f, queue[n]), queue[..n], [queue[n]] + keys);
      assert queue[..n] + ([queue[n]] + keys) == queue + keys;
    }
  }
}

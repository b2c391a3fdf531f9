/** Tearing a subtree down: what the reverse walk over its records amounts to. */
module Teardown {
  import opened Trees
  import opened Programs
  import opened Passes

  lemma {:induction false} DoomedSize(f: Forest)
    ensures |Doomed(f)| == Size(f)
  {
    if f.Tree? {
      DoomedSize(f.kids);
      DoomedSize(f.next);
    }
  }

  /** Walking the records of a forest backwards visits the doomed groups in order. */
  lemma {:induction false} DoomedAt(s: seq<Group>, lo: nat, f: Forest, p: nat, i: nat)
    requires At(s, lo, f, p) && i < Size(f) && lo + Size(f) <= |s|
    ensures |Doomed(f)| == Size(f) && Doomed(f)[i] == s[lo + Size(f) - 1 - i].info
    decreases f
  {
    DoomedSize(f);
    DoomedSize(f.kids);
    DoomedSize(f.next);
    var n, k := Size(f.next), Size(f.kids);
    if i < n {
      DoomedAt(s, lo + 1 + k, f.next, p, i);
      assert lo + 1 + k + n - 1 - i == lo + Size(f) - 1 - i;
    } else if i < n + k {
      DoomedAt(s, lo + 1, f.kids, lo, i - n);
      assert lo + 1 + k - 1 - (i - n) == lo + Size(f) - 1 - i;
    }
  }

  lemma {:induction false} TearDownSnoc(infos: seq<Info>, i: nat, w: World)
    requires i < |infos|
    ensures TearDownAll(infos[..i + 1], w) == TearDown(infos[i], TearDownAll(infos[..i], w))
    decreases |infos|
  {
    if i == 0 {
      assert infos[..1][1..] == [] && infos[..0] == [];
    } else {
      var w1 := TearDown(infos[0], w);
      TearDownSnoc(infos[1..], i - 1, w1);
      assert infos[..i + 1][1..] == infos[1..][..i] && infos[..i][1..] == infos[1..][..i - 1];
    }
  }

  lemma {:induction false} TearDownRoom(infos: seq<Info>, w: World)
    ensures TearDownAll(infos, w).room == w.room + |infos|
    decreases |infos|
  {
    if infos != [] {
      TearDownRoom(infos[1..], TearDown(infos[0], w));
    }
  }
}

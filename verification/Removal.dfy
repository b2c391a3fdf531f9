/** What pruning leaves behind: every destructor of the subtree ran once, in order, and
    nothing names a removed group any more. */
module Removal {
  import opened Basics
  import opened Trees
  import opened State
  import opened Programs
  import opened Passes
  import Arenas
  import ArenaFacts
  import Hooks

  /** The groups of the trees of f, in the order a prune reaches them. */
  function Victims(f: Forest): seq<Info> {
    match f
    case Nil => []
    case Tree(info, kids, next) => Doomed(Tree(info, kids, Nil)) + Victims(next)
  }

  lemma {:induction false} TearDownJoins(a: seq<Info>, b: seq<Info>, w: World)
    ensures TearDownAll(a + b, w) == TearDownAll(b, TearDownAll(a, w))
    decreases |a|
  {
    if a == [] {
      assert a + b == b;
    } else {
      assert (a + b)[1..] == a[1..] + b;
      TearDownJoins(a[1..], b, TearDown(a[0], w));
    }
  }

  lemma {:induction false} PruneIsTearDown(f: Forest, w: World)
    ensures Prune(f, w) == TearDownAll(Victims(f), w)
  {
    if f.Tree? {
      var first := Doomed(Tree(f.info, f.kids, Nil));
      PruneIsTearDown(f.next, TearDownAll(first, w));
      TearDownJoins(first, Victims(f.next), w);
    }
  }

  // ------------------------------------------------------------------ order

  predicate HasInfo(f: Forest, x: Info) {
    f.Tree? && (f.info == x || HasInfo(f.kids, x) || HasInfo(f.next, x))
  }

  /** Group y of f is a proper descendant of group x of f. */
  predicate Below(f: Forest, x: Info, y: Info) {
    f.Tree? && ((f.info == x && HasInfo(f.kids, y)) || Below(f.kids, x, y) || Below(f.next, x, y))
  }

  lemma {:induction false} DoomedHolds(f: Forest, x: Info)
    ensures x in Doomed(f) <==> HasInfo(f, x)
  {
    if f.Tree? {
      DoomedHolds(f.kids, x);
      DoomedHolds(f.next, x);
    }
  }

  /** Every record occurs once. */
  predicate Once(infos: seq<Info>) {
    forall i, j :: 0 <= i < j < |infos| ==> infos[i] != infos[j]
  }

  /** Descendants go before their ancestors. */
  lemma {:induction false} DescendantsFirst(f: Forest, x: Info, y: Info, i: nat, j: nat)
    requires Once(Doomed(f)) && Below(f, x, y)
    requires i < |Doomed(f)| && j < |Doomed(f)| && Doomed(f)[i] == x && Doomed(f)[j] == y
    ensures j < i
    decreases f, 1
  {
    var n, k := |Doomed(f.next)|, |Doomed(f.kids)|;
    DoomedParts(f, n, k);
    BelowHas(f.kids, x, y);
    BelowHas(f.next, x, y);
    DoomedHolds(f.kids, x);
    DoomedHolds(f.kids, y);
    DoomedHolds(f.next, x);
    DoomedHolds(f.next, y);
    if Below(f.next, x, y) {
      PartFirst(Doomed(f), f.next, 0, n, x, y, i, j);
    } else if Below(f.kids, x, y) {
      PartFirst(Doomed(f), f.kids, n, n + k, x, y, i, j);
    } else {
      KidsFirst(Doomed(f), n, n + k, x, y, i, j);
    }
  }

  lemma {:induction false} DoomedParts(f: Forest, n: nat, k: nat)
    requires f.Tree? && n == |Doomed(f.next)| && k == |Doomed(f.kids)|
    ensures var all := Doomed(f);
            |all| == n + k + 1 && all[0..n] == Doomed(f.next) && all[n..n + k] == Doomed(f.kids) && all[n + k] == f.info
  {}

  /** Both groups are in the part g of the list. */
  lemma {:induction false} PartFirst(all: seq<Info>, g: Forest, lo: nat, hi: nat, x: Info, y: Info, i: nat, j: nat)
    requires Once(all) && lo <= hi <= |all| && all[lo..hi] == Doomed(g) && Below(g, x, y)
    requires x in Doomed(g) && y in Doomed(g) && i < |all| && j < |all| && all[i] == x && all[j] == y
    ensures j < i
    decreases g, 2
  {
    hide Once, Below, Doomed;
    var a := Spot(all, lo, hi, x, i);
    var b := Spot(all, lo, hi, y, j);
    DescendantsFirst(g, x, y, a, b);
  }

  /** The ancestor comes right after the part that holds its descendant. */
  lemma {:induction false} KidsFirst(all: seq<Info>, lo: nat, hi: nat, x: Info, y: Info, i: nat, j: nat)
    requires Once(all) && lo <= hi < |all| && all[hi] == x && y in all[lo..hi]
    requires i < |all| && j < |all| && all[i] == x && all[j] == y
    ensures j < i
  {
    var b := Spot(all, lo, hi, y, j);
    assert i == hi;
  }

  /** The only place of x in a duplicate-free list lies in any part of it that holds x. */
  lemma {:induction false} Spot(all: seq<Info>, lo: nat, hi: nat, x: Info, i: nat) returns (a: nat)
    requires Once(all) && lo <= hi <= |all| && x in all[lo..hi] && i < |all| && all[i] == x
    ensures lo <= i < hi && a == i - lo && all[lo..hi][a] == x && Once(all[lo..hi])
  {
    var b :| 0 <= b < hi - lo && all[lo..hi][b] == x;
    assert all[lo + b] == x;
    a := b;
  }

  lemma {:induction false} BelowHas(f: Forest, x: Info, y: Info)
    ensures Below(f, x, y) ==> HasInfo(f, x) && HasInfo(f, y)
  {
    if f.Tree? {
      BelowHas(f.kids, x, y);
      BelowHas(f.next, x, y);
    }
  }

  // ------------------------------------------------------------------ destructors

  function IdsOf(infos: seq<Info>): set<nat> {
    if infos == [] then {} else {infos[0].id} + IdsOf(infos[1..])
  }

  function KeysOf(infos: seq<Info>): set<Key> {
    if infos == [] then {} else {infos[0].key} + KeysOf(infos[1..])
  }

  /** No two groups share an identity. */
  predicate OneId(infos: seq<Info>) {
    infos != [] ==> infos[0].id !in IdsOf(infos[1..]) && OneId(infos[1..])
  }

  /** The destructor calls of the given groups: group after group, each with its hooks in
      reverse order of registration. */
  function Fires(infos: seq<Info>, hooks: seq<Hooks.Hook>): seq<Hooks.Hook> {
    if infos == [] then [] else Hooks.Fired(hooks, infos[0].id) + Fires(infos[1..], hooks)
  }

  /** The hooks of the groups in ids that have a destructor, as registered. */
  function Due(hooks: seq<Hooks.Hook>, ids: set<nat>): seq<Hooks.Hook> {
    if hooks == [] then []
    else
      var last := hooks[|hooks| - 1];
      Due(hooks[..|hooks| - 1], ids) + (if last.groupId in ids && last.destroys then [last] else [])
  }

  /** The hooks of all other groups, in order. */
  function Spared(hooks: seq<Hooks.Hook>, ids: set<nat>): seq<Hooks.Hook> {
    if hooks == [] then []
    else
      var last := hooks[|hooks| - 1];
      Spared(hooks[..|hooks| - 1], ids) + (if last.groupId in ids then [] else [last])
  }

  lemma {:induction false} FiredApart(hooks: seq<Hooks.Hook>, a: nat, b: nat)
    requires a != b
    ensures Hooks.Fired(Hooks.Kept(hooks, a), b) == Hooks.Fired(hooks, b)
    decreases |hooks|
  {
    if hooks != [] {
      var front, last := hooks[..|hooks| - 1], hooks[|hooks| - 1];
      FiredApart(front, a, b);
      if last.groupId == a {
        assert Hooks.Kept(hooks, a) == Hooks.Kept(front, a);
      } else {
        assert Hooks.Kept(hooks, a)[..|Hooks.Kept(front, a)|] == Hooks.Kept(front, a);
      }
    }
  }

  lemma {:induction false} FiresApart(infos: seq<Info>, hooks: seq<Hooks.Hook>, a: nat)
    requires a !in IdsOf(infos)
    ensures Fires(infos, Hooks.Kept(hooks, a)) == Fires(infos, hooks)
    decreases |infos|
  {
    if infos != [] {
      FiredApart(hooks, a, infos[0].id);
      FiresApart(infos[1..], hooks, a);
    }
  }

  /** Each hook of the groups is called exactly once. */
  lemma {:induction false} FiresEachOnce(infos: seq<Info>, hooks: seq<Hooks.Hook>)
    requires OneId(infos)
    ensures multiset(Fires(infos, hooks)) == multiset(Due(hooks, IdsOf(infos)))
    decreases |infos|
  {
    if infos == [] {
      DueNone(hooks);
    } else {
      FiresEachOnce(infos[1..], hooks);
      DueSplits(hooks, infos[0].id, IdsOf(infos[1..]));
    }
  }

  lemma {:induction false} DueNone(hooks: seq<Hooks.Hook>)
    ensures Due(hooks, {}) == []
    decreases |hooks|
  {
    if hooks != [] {
      DueNone(hooks[..|hooks| - 1]);
    }
  }

  lemma {:induction false} DueSplits(hooks: seq<Hooks.Hook>, a: nat, ids: set<nat>)
    requires a !in ids
    ensures multiset(Due(hooks, {a} + ids)) == multiset(Hooks.Fired(hooks, a)) + multiset(Due(hooks, ids))
    decreases |hooks|
  {
    if hooks != [] {
      DueSplits(hooks[..|hooks| - 1], a, ids);
    }
  }

  lemma {:induction false} SparedSplits(hooks: seq<Hooks.Hook>, a: nat, ids: set<nat>)
    ensures Spared(Hooks.Kept(hooks, a), ids) == Spared(hooks, {a} + ids)
    decreases |hooks|
  {
    if hooks != [] {
      var front, last := hooks[..|hooks| - 1], hooks[|hooks| - 1];
      SparedSplits(front, a, ids);
      if last.groupId == a {
        assert Hooks.Kept(hooks, a) == Hooks.Kept(front, a);
      } else {
        assert Hooks.Kept(hooks, a)[..|Hooks.Kept(front, a)|] == Hooks.Kept(front, a);
      }
    }
  }

  lemma {:induction false} SparedAll(hooks: seq<Hooks.Hook>)
    ensures Spared(hooks, {}) == hooks
    decreases |hooks|
  {
    if hooks != [] {
      SparedAll(hooks[..|hooks| - 1]);
    }
  }

  lemma {:induction false} TearDownOne(infos: seq<Info>, w: World)
    requires OneId(infos) && infos != []
    ensures var id, tail, w1 := infos[0].id, infos[1..], TearDown(infos[0], w);
            && TearDownAll(infos, w) == TearDownAll(tail, w1)
            && w1.destroyed == w.destroyed + Hooks.Fired(w.hooks, id) && w1.hooks == Hooks.Kept(w.hooks, id)
            && Fires(infos, w.hooks) == Hooks.Fired(w.hooks, id) + Fires(tail, w.hooks)
            && IdsOf(infos) == {id} + IdsOf(tail) && id !in IdsOf(tail) && OneId(tail)
  {}

  lemma {:induction false} HooksJoin(a: seq<Hooks.Hook>, b: seq<Hooks.Hook>, c: seq<Hooks.Hook>)
    ensures (a + b) + c == a + (b + c)
  {}

  /** Tearing groups down calls their destructors and forgets their hooks, and no others. */
  lemma {:induction false} TearDownHooks(infos: seq<Info>, w: World)
    requires OneId(infos)
    ensures TearDownAll(infos, w).destroyed == w.destroyed + Fires(infos, w.hooks)
    ensures TearDownAll(infos, w).hooks == Spared(w.hooks, IdsOf(infos))
    decreases |infos|
  {
    if infos == [] {
      SparedAll(w.hooks);
    } else {
      hide Hooks.Fired, Hooks.Kept, Spared, OneId, IdsOf, Fires, TearDown, TearDownAll;
      var tail := infos[1..];
      TearDownOne(infos, w);
      TearDownHooks(tail, TearDown(infos[0], w));
      FiresApart(tail, w.hooks, infos[0].id);
      SparedSplits(w.hooks, infos[0].id, IdsOf(tail));
      HooksJoin(w.destroyed, Hooks.Fired(w.hooks, infos[0].id), Fires(tail, w.hooks));
    }
  }

  // ------------------------------------------------------------------ slots and watchers

  /** The slots of the groups outside ids, in order. */
  function Remaining(slots: seq<Arenas.Slot>, ids: set<nat>): seq<Arenas.Slot> {
    if slots == [] then []
    else (if slots[0].groupId in ids then [] else [slots[0]]) + Remaining(slots[1..], ids)
  }

  lemma {:induction false} RemainingSplits(slots: seq<Arenas.Slot>, a: nat, ids: set<nat>)
    ensures Remaining(Arenas.Others(slots, a), ids) == Remaining(slots, {a} + ids)
    decreases |slots|
  {
    if slots != [] {
      RemainingSplits(slots[1..], a, ids);
    }
  }

  lemma {:induction false} RemainingAll(slots: seq<Arenas.Slot>)
    ensures Remaining(slots, {}) == slots
    decreases |slots|
  {
    if slots != [] {
      RemainingAll(slots[1..]);
    }
  }

  /** Tearing groups down returns their slots and leaves the others where they are. */
  lemma {:induction false} TearDownSlots(infos: seq<Info>, w: World)
    ensures TearDownAll(infos, w).arena.slots == Remaining(w.arena.slots, IdsOf(infos))
    ensures ArenaFacts.WellPlaced(w.arena) ==> ArenaFacts.WellPlaced(TearDownAll(infos, w).arena)
    decreases |infos|
  {
    if infos == [] {
      RemainingAll(w.arena.slots);
    } else {
      if ArenaFacts.WellPlaced(w.arena) { ArenaFacts.ReleaseKeeps(w.arena, infos[0].id); }
      TearDownSlots(infos[1..], TearDown(infos[0], w));
      RemainingSplits(w.arena.slots, infos[0].id, IdsOf(infos[1..]));
    }
  }

  /** Tearing groups down ends their subscriptions, and no others. */
  lemma {:induction false} TearDownWatchers(infos: seq<Info>, w: World, c: CellId, k: Key)
    requires 0 !in KeysOf(infos)
    ensures Watching(TearDownAll(infos, w).cells, c, k) <==> Watching(w.cells, c, k) && k !in KeysOf(infos)
    decreases |infos|
  {
    if infos != [] {
      UnsubscribeRemoves(w.cells, infos[0].key, c, k);
      TearDownWatchers(infos[1..], TearDown(infos[0], w), c, k);
    }
  }

  function IdList(infos: seq<Info>): seq<nat> {
    seq(|infos|, i requires 0 <= i < |infos| => infos[i].id)
  }

  lemma {:induction false} TearDownLogs(infos: seq<Info>, w: World)
    ensures TearDownAll(infos, w).pruned == w.pruned + IdList(infos)
    decreases |infos|
  {
    if infos == [] {
      assert IdList(infos) == [];
    } else {
      TearDownLogs(infos[1..], TearDown(infos[0], w));
      assert IdList(infos) == [infos[0].id] + IdList(infos[1..]);
    }
  }

  // ------------------------------------------------------------------ the whole prune

  /** Pruning a forest calls each destructor of its groups once, group by group from the last
      to the first and newest first within a group, and leaves no hook, slot or watcher that
      names a removed group; everything else keeps its order and content. */
  lemma {:induction false} PruneLeavesNothing(f: Forest, w: World)
    requires OneId(Victims(f)) && 0 !in KeysOf(Victims(f))
    ensures var w', gone, ids := Prune(f, w), Victims(f), IdsOf(Victims(f));
            && w'.destroyed == w.destroyed + Fires(gone, w.hooks)
            && multiset(Fires(gone, w.hooks)) == multiset(Due(w.hooks, ids))
            && w'.hooks == Spared(w.hooks, ids)
            && w'.arena.slots == Remaining(w.arena.slots, ids)
            && w'.pruned == w.pruned + IdList(gone)
            && OnlyWatchers(w.cells, w'.cells)
            && forall c, k :: Watching(w'.cells, c, k) <==> Watching(w.cells, c, k) && k !in KeysOf(gone)
  {
    PruneIsTearDown(f, w);
    PruneGrows(f, w);
    TearDownHooks(Victims(f), w);
    FiresEachOnce(Victims(f), w.hooks);
    TearDownSlots(Victims(f), w);
    TearDownLogs(Victims(f), w);
    forall c, k { TearDownWatchers(Victims(f), w, c, k); }
  }
}

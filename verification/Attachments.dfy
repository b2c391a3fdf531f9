/** Destructors on record: what attaching, starting over and pruning do to the hooks of one key. */
module Attachments {
  import opened Basics
  import opened Hooks

  /** The hooks under key k, in order. */
  function HooksOf(hooks: seq<Hook>, k: Key): seq<Hook> {
    if hooks == [] then []
    else
      var front, last := HooksOf(hooks[..|hooks| - 1], k), hooks[|hooks| - 1];
      if last.groupKey == k then front + [last] else front
  }

  /** The hooks under key k are those of group id, or there are none. */
  predicate Private(hooks: seq<Hook>, k: Key, holder: Option<nat>) {
    match holder
    case None => forall i {:trigger hooks[i]} :: 0 <= i < |hooks| ==> hooks[i].groupKey != k
    case Some(id) => forall i {:trigger hooks[i]} :: 0 <= i < |hooks| ==>
        (hooks[i].groupKey == k <==> hooks[i].groupId == id)
  }

  /** The hook comes from a group that has nothing to do with key k. */
  predicate Foreign(h: Hook, k: Key, holder: Option<nat>) {
    h.groupKey != k && Some(h.groupId) != holder
  }

  lemma {:induction false} HooksOfMore(hooks: seq<Hook>, h: Hook, k: Key)
    ensures HooksOf(hooks + [h], k) == if h.groupKey == k then HooksOf(hooks, k) + [h] else HooksOf(hooks, k)
  {
    assert (hooks + [h])[..|hooks|] == hooks;
  }

  lemma {:induction false} HooksOfJoin(a: seq<Hook>, b: seq<Hook>, k: Key)
    ensures HooksOf(a + b, k) == HooksOf(a, k) + HooksOf(b, k)
    decreases |b|
  {
    if b == [] {
      assert a + b == a;
    } else {
      hide HooksOf;
      var front, last := b[..|b| - 1], b[|b| - 1];
      HooksOfJoin(a, front, k);
      HooksOfMore(a + front, last, k);
      HooksOfMore(front, last, k);
      assert b == front + [last];
      assert a + b == (a + front) + [last];
    }
  }

  lemma {:induction false} HooksOfNone(hooks: seq<Hook>, k: Key)
    requires Private(hooks, k, None)
    ensures HooksOf(hooks, k) == []
    decreases |hooks|
  {
    if hooks != [] {
      HooksOfNone(hooks[..|hooks| - 1], k);
    }
  }

  lemma {:induction false} HooksOfAll(hooks: seq<Hook>, k: Key)
    requires forall i {:trigger hooks[i]} :: 0 <= i < |hooks| ==> hooks[i].groupKey == k
    ensures HooksOf(hooks, k) == hooks
    decreases |hooks|
  {
    if hooks != [] {
      HooksOfAll(hooks[..|hooks| - 1], k);
      assert hooks == hooks[..|hooks| - 1] + [hooks[|hooks| - 1]];
    }
  }

  /** Rewriting one hook rewrites it among the hooks of its key. */
  lemma {:induction false} HooksOfSet(hooks: seq<Hook>, i: nat, h: Hook, k: Key)
    requires i < |hooks| && h.groupKey == hooks[i].groupKey
    ensures h.groupKey != k ==> HooksOf(hooks[i := h], k) == HooksOf(hooks, k)
    ensures h.groupKey == k && (forall j {:trigger hooks[j]} :: 0 <= j < i ==> hooks[j].groupKey != k) ==>
              HooksOf(hooks, k) != [] && HooksOf(hooks[i := h], k) == HooksOf(hooks, k)[0 := h]
    decreases |hooks|
  {
    var front, last := hooks[..|hooks| - 1], hooks[|hooks| - 1];
    if i == |hooks| - 1 {
      assert hooks[i := h][..|hooks| - 1] == front;
      if forall j {:trigger hooks[j]} :: 0 <= j < i ==> hooks[j].groupKey != k { HooksOfNone(front, k); }
    } else {
      assert hooks[i := h][..|hooks| - 1] == front[i := h];
      HooksOfSet(front, i, h, k);
    }
  }

  // ------------------------------------------------------------------ registering and refreshing

  /** Index of the first hook that a refresh by h rewrites, or the number of hooks. */
  function Match(hooks: seq<Hook>, h: Hook, i: nat := 0): (m: nat)
    requires i <= |hooks|
    ensures i <= m <= |hooks|
    ensures forall j {:trigger hooks[j]} :: i <= j < m ==>
            hooks[j].groupId != h.groupId && hooks[j].groupKey != h.groupKey
    ensures m < |hooks| ==> hooks[m].groupId == h.groupId || hooks[m].groupKey == h.groupKey
    decreases |hooks| - i
  {
    if i == |hooks| || hooks[i].groupId == h.groupId || hooks[i].groupKey == h.groupKey then i
        else Match(hooks, h, i + 1)
  }

  lemma {:induction false} UpdateIs(hooks: seq<Hook>, h: Hook, i: nat)
    requires i <= |hooks|
    ensures Update(hooks, h, i) == if Match(hooks, h, i) < |hooks| then hooks[Match(hooks, h, i) := h]
            else Register(hooks, h)
    decreases |hooks| - i
  {
    if i < |hooks| && !(hooks[i].groupId == h.groupId || hooks[i].groupKey == h.groupKey) {
      UpdateIs(hooks, h, i + 1);
    }
  }

  /** A hook of another group and key changes nothing under key k. */
  lemma {:induction false} ForeignRegister(hooks: seq<Hook>, h: Hook, k: Key, holder: Option<nat>)
    requires Private(hooks, k, holder) && Foreign(h, k, holder)
    ensures Private(Register(hooks, h), k, holder) && HooksOf(Register(hooks, h), k) == HooksOf(hooks, k)
  {
    HooksOfMore(hooks, h, k);
  }

  lemma {:induction false} ForeignUpdate(hooks: seq<Hook>, h: Hook, k: Key, holder: Option<nat>)
    requires Private(hooks, k, holder) && Foreign(h, k, holder)
    ensures Private(Update(hooks, h), k, holder) && HooksOf(Update(hooks, h), k) == HooksOf(hooks, k)
  {
    var m := Match(hooks, h);
    UpdateIs(hooks, h, 0);
    if m < |hooks| {
      assert hooks[m].groupKey != k;
      OtherSet(hooks, m, h, k);
    } else {
      ForeignRegister(hooks, h, k, holder);
    }
  }

  lemma {:induction false} OtherSet(hooks: seq<Hook>, i: nat, h: Hook, k: Key)
    requires i < |hooks| && h.groupKey != k && hooks[i].groupKey != k
    ensures HooksOf(hooks[i := h], k) == HooksOf(hooks, k)
    decreases |hooks|
  {
    var front := hooks[..|hooks| - 1];
    if i == |hooks| - 1 {
      assert hooks[i := h][..|hooks| - 1] == front;
    } else {
      assert hooks[i := h][..|hooks| - 1] == front[i := h];
      OtherSet(front, i, h, k);
    }
  }

  lemma {:induction false} OwnRegister(hooks: seq<Hook>, h: Hook)
    requires Private(hooks, h.groupKey, Some(h.groupId))
    ensures Private(Register(hooks, h), h.groupKey, Some(h.groupId))
    ensures HooksOf(Register(hooks, h), h.groupKey) ==
            if |hooks| >= MAX_HOOKS then HooksOf(hooks, h.groupKey) else HooksOf(hooks, h.groupKey) + [h]
  {
    HooksOfMore(hooks, h, h.groupKey);
  }

  /** A group that refreshes its hooks always rewrites the first one. */
  lemma {:induction false} OwnUpdate(hooks: seq<Hook>, h: Hook)
    requires Private(hooks, h.groupKey, Some(h.groupId))
    ensures Private(Update(hooks, h), h.groupKey, Some(h.groupId))
    ensures var mine := HooksOf(hooks, h.groupKey);
            HooksOf(Update(hooks, h), h.groupKey) ==
              if mine != [] then mine[0 := h] else if |hooks| >= MAX_HOOKS then [] else [h]
  {
    var k, m := h.groupKey, Match(hooks, h);
    UpdateIs(hooks, h, 0);
    if m < |hooks| {
      assert hooks[m].groupKey == k;
      HooksOfSet(hooks, m, h, k);
    } else {
      assert Private(hooks, k, None);
      HooksOfNone(hooks, k);
      OwnRegister(hooks, h);
    }
  }

  // ------------------------------------------------------------------ teardown

  /** Other groups go: the hooks under key k stay, and none of them is called. */
  lemma {:induction false} ForeignGone(hooks: seq<Hook>, id: nat, k: Key, holder: Option<nat>)
    requires Private(hooks, k, holder) && Some(id) != holder
    ensures Private(Kept(hooks, id), k, holder) && HooksOf(Kept(hooks, id), k) == HooksOf(hooks, k)
    ensures HooksOf(Fired(hooks, id), k) == []
    decreases |hooks|
  {
    if hooks != [] {
      var front, last := hooks[..|hooks| - 1], hooks[|hooks| - 1];
      ForeignGone(front, id, k, holder);
      if last.groupId == id {
        assert hooks[|hooks| - 1].groupKey != k;
        assert Kept(hooks, id) == Kept(front, id);
        HooksOfJoin([last], Fired(front, id), k);
        assert [last][..0] == [] && HooksOf([], k) == [];
        assert [] + HooksOf(Fired(front, id), k) == HooksOf(Fired(front, id), k);
        assert [] + Fired(front, id) == Fired(front, id);
      } else {
        HooksOfMore(Kept(front, id), last, k);
        assert [] + Fired(front, id) == Fired(front, id);
      }
    }
  }

  /** The holder goes: its hooks are called, last one first, and none is left under its key. */
  lemma {:induction false} OwnGone(hooks: seq<Hook>, id: nat, k: Key)
    requires Private(hooks, k, Some(id))
    ensures Private(Kept(hooks, id), k, None) && HooksOf(Kept(hooks, id), k) == []
    ensures Private(Kept(hooks, id), k, Some(id))
    ensures HooksOf(Fired(hooks, id), k) == Fired(hooks, id) == Fired(HooksOf(hooks, k), id)
    ensures Kept(HooksOf(hooks, k), id) == []
  {
    KeptPrivate(hooks, id, k);
    HooksOfNone(Kept(hooks, id), k);
    FiredOwn(hooks, id, k);
    HooksOfAll(Fired(hooks, id), k);
  }

  lemma {:induction false} KeptPrivate(hooks: seq<Hook>, id: nat, k: Key)
    requires Private(hooks, k, Some(id))
    ensures Private(Kept(hooks, id), k, None) && Private(Kept(hooks, id), k, Some(id))
    decreases |hooks|
  {
    if hooks != [] {
      KeptPrivate(hooks[..|hooks| - 1], id, k);
      assert hooks[|hooks| - 1].groupKey == k <==> hooks[|hooks| - 1].groupId == id;
    }
  }

  lemma {:induction false} FiredOwn(hooks: seq<Hook>, id: nat, k: Key)
    requires Private(hooks, k, Some(id))
    ensures forall i {:trigger Fired(hooks, id)[i]} :: 0 <= i < |Fired(hooks, id)| ==> Fired(hooks, id)[i].groupKey == k
    ensures Fired(hooks, id) == Fired(HooksOf(hooks, k), id) && Kept(HooksOf(hooks, k), id) == []
    decreases |hooks|
  {
    if hooks != [] {
      var front, last := hooks[..|hooks| - 1], hooks[|hooks| - 1];
      var mine := HooksOf(front, k);
      FiredOwn(front, id, k);
      assert hooks[|hooks| - 1].groupKey == k <==> hooks[|hooks| - 1].groupId == id;
      if last.groupId == id {
        assert (mine + [last])[..|mine|] == mine;
      } else {
        assert [] + Fired(front, id) == Fired(front, id);
      }
    }
  }

  // ------------------------------------------------------------------ what a rerun leaves on record

  /** The instances that group id has on record, in order. */
  function Instances(hooks: seq<Hook>, id: nat): seq<nat> {
    if hooks == [] then []
    else
      var front, last := Instances(hooks[..|hooks| - 1], id), hooks[|hooks| - 1];
      if last.groupId == id then front + [last.instance] else front
  }

  /** The hooks after the group of key k and identity id has refreshed its instances one by one. */
  function Refreshed(hooks: seq<Hook>, k: Key, id: nat, xs: seq<nat>): seq<Hook>
    decreases |xs|
  {
    if xs == [] then hooks else Refreshed(Update(hooks, Hook(k, id, xs[0], true)), k, id, xs[1..])
  }

  /** All refreshes of a group rewrite one and the same hook. */
  lemma {:induction false} RefreshedIs(hooks: seq<Hook>, k: Key, id: nat, xs: seq<nat>)
    requires xs != [] && Match(hooks, Hook(k, id, xs[0], true)) < |hooks|
    ensures Refreshed(hooks, k, id, xs) == hooks[Match(hooks, Hook(k, id, xs[0], true)) :=
            Hook(k, id, xs[|xs| - 1], true)]
    decreases |xs|
  {
    var h := Hook(k, id, xs[0], true);
    var m, next := Match(hooks, h), Update(hooks, h);
    UpdateIs(hooks, h, 0);
    if |xs| > 1 {
      MatchStays(hooks, h, Hook(k, id, xs[1], true), 0);
      RefreshedIs(next, k, id, xs[1..]);
      assert next[m := Hook(k, id, xs[|xs| - 1], true)] == hooks[m := Hook(k, id, xs[|xs| - 1], true)];
    } else {
      assert xs[1..] == [];
    }
  }

  lemma {:induction false} MatchStays(hooks: seq<Hook>, h: Hook, h': Hook, i: nat)
    requires i <= |hooks| && h.groupId == h'.groupId && h.groupKey == h'.groupKey && Match(hooks, h, i) < |hooks|
    ensures Match(hooks[Match(hooks, h, i) := h], h', i) == Match(hooks, h, i)
    decreases |hooks| - i
  {
    if Match(hooks, h, i) > i { MatchStays(hooks, h, h', i + 1); }
  }

  /** The first hook that matches is the group's own first one, or another group's under its key. */
  lemma {:induction false} InstancesSet(hooks: seq<Hook>, id: nat, m: nat, h: Hook)
    requires m < |hooks| && h.groupId == id && forall j {:trigger hooks[j]} :: 0 <= j < m ==> hooks[j].groupId != id
    ensures hooks[m].groupId == id ==>
              Instances(hooks, id) != [] && Instances(hooks[m := h], id) == Instances(hooks, id)[0 := h.instance]
    ensures hooks[m].groupId != id ==> |Instances(hooks[m := h], id)| == |Instances(hooks, id)| + 1
    decreases |hooks|
  {
    var front := hooks[..|hooks| - 1];
    if m == |hooks| - 1 {
      assert hooks[m := h][..m] == front;
      NoInstances(front, id);
    } else {
      assert hooks[m := h][..|hooks| - 1] == front[m := h];
      InstancesSet(front, id, m, h);
    }
  }

  lemma {:induction false} NoInstances(hooks: seq<Hook>, id: nat)
    requires forall j {:trigger hooks[j]} :: 0 <= j < |hooks| ==> hooks[j].groupId != id
    ensures Instances(hooks, id) == []
    decreases |hooks|
  {
    if hooks != [] {
      NoInstances(hooks[..|hooks| - 1], id);
    }
  }

  predicate NoTwice(xs: seq<nat>) {
    forall i, j :: 0 <= i < j < |xs| ==> xs[i] != xs[j]
  }

  /** The first hook that the group would refresh is its own. */
  predicate OwnFirst(hooks: seq<Hook>, k: Key, id: nat) {
    var m := Match(hooks, Hook(k, id, 0, true));
    m < |hooks| && hooks[m].groupId == id
  }

  /** A group has its instances on record and refreshes them.  Afterwards each of them is on
      record as often as it was attached if and only if there is none, or the first and the last
      one are the same and no earlier hook of another group has the key. */
  lemma {:induction false} RefreshKeepsIff(hooks: seq<Hook>, k: Key, id: nat, xs: seq<nat>)
    requires Instances(hooks, id) == xs
    ensures var kept := multiset(Instances(Refreshed(hooks, k, id, xs), id)) == multiset(xs);
            && (kept <==> xs == [] || (OwnFirst(hooks, k, id) && xs[0] == xs[|xs| - 1]))
            && (NoTwice(xs) ==> (kept <==> xs == [] || (OwnFirst(hooks, k, id) && |xs| == 1)))
  {
    if xs != [] {
      var h, last := Hook(k, id, xs[0], true), Hook(k, id, xs[|xs| - 1], true);
      var m := Match(hooks, h);
      SameMatch(hooks, h, Hook(k, id, 0, true), 0);
      if m == |hooks| { NoInstances(hooks, id); }
      RefreshedIs(hooks, k, id, xs);
      InstancesSet(hooks, id, m, last);
      if hooks[m].groupId == id {
        FirstSet(xs, last.instance);
      } else {
        var after := Instances(Refreshed(hooks, k, id, xs), id);
        assert |multiset(after)| == |after| && |multiset(xs)| == |xs|;
      }
    }
  }

  lemma {:induction false} SameMatch(hooks: seq<Hook>, h: Hook, h': Hook, i: nat)
    requires i <= |hooks| && h.groupId == h'.groupId && h.groupKey == h'.groupKey
    ensures Match(hooks, h, i) == Match(hooks, h', i)
    decreases |hooks| - i
  {
    if i < |hooks| {
      SameMatch(hooks, h, h', i + 1);
    }
  }

  lemma {:induction false} FirstSet(xs: seq<nat>, x: nat)
    requires xs != []
    ensures multiset(xs[0 := x]) == multiset(xs) <==> xs[0] == x
  {
    var rest: seq<nat> := xs[1..];
    assert xs == [xs[0]] + rest && xs[0 := x] == [x] + rest;
    if xs[0] != x {
      var bag: multiset<nat> := multiset(rest);
      assert multiset(xs) == multiset{xs[0]} + bag && multiset(xs[0 := x]) == multiset{x} + bag;
      assert (multiset{x} + bag)[x] == bag[x] + 1 && (multiset{xs[0]} + bag)[x] == bag[x];
    }
  }

  /** Two instances of one group: after the next run the second one is on record twice and the first
      one not at all, so that pruning calls one destructor twice and the other never. */
  lemma {:induction false} SecondInstanceTakesOver()
    ensures var a, b := Hook(5, 1, 10, true), Hook(5, 1, 20, true);
            Refreshed([a, b], 5, 1, [10, 20]) == [b, b] && Fired([b, b], 1) == [b, b]
  {
    var a, b := Hook(5, 1, 10, true), Hook(5, 1, 20, true);
    assert Update([a, b], a) == [a, b] && Update([a, b], b) == [b, b];
    assert [10, 20][1..] == [20] && [20][1..] == [];
    assert Refreshed([b, b], 5, 1, []) == [b, b];
    assert Refreshed([a, b], 5, 1, [20]) == [b, b];
    assert [b, b][..1] == [b] && [b][..0] == [];
    assert Fired([b], 1) == [b] + Fired([], 1) == [b];
  }

  /** Two groups under one key: the second one takes over the hook of the first. */
  lemma {:induction false} TwinTakesHook()
    ensures var a, b := Hook(5, 1, 10, true), Hook(5, 2, 20, true);
            Refreshed([a, b], 5, 2, [20]) == [b, b] && Fired([b, b], 1) == []
  {
    var a, b := Hook(5, 1, 10, true), Hook(5, 2, 20, true);
    assert Update([a, b], b) == [b, b];
    assert [20][1..] == [];
    assert Refreshed([b, b], 5, 2, []) == [b, b];
    assert [b, b][..1] == [b] && [b][..0] == [];
    assert Fired([b], 1) == [] + Fired([], 1) == [];
  }
}

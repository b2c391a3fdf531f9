/** Lifecycle hooks: the destructors that run when a group unmounts. */
module Hooks {
  import opened Basics

  const MAX_HOOKS: nat := 4096

  datatype Hook = Hook(groupKey: Key, groupId: nat, instance: nat, destroys: bool)

  /** Hooks of the groups other than id, in order. */
  function Kept(hooks: seq<Hook>, id: nat): seq<Hook> {
    if hooks == [] then []
    else Kept(hooks[..|hooks| - 1], id) + (if hooks[|hooks| - 1].groupId == id then [] else [hooks[|hooks| - 1]])
  }

  /** Destructor calls made when group id goes: its hooks, last registered first. */
  function Fired(hooks: seq<Hook>, id: nat): seq<Hook> {
    if hooks == [] then []
    else
      var last := hooks[|hooks| - 1];
      (if last.groupId == id && last.destroys then [last] else []) + Fired(hooks[..|hooks| - 1], id)
  }

  /** Walks the hooks from the last to the first, calling the destructors of group id and
      closing up the list. */
  method Sweep(hooks: seq<Hook>, id: nat) returns (kept: seq<Hook>, fired: seq<Hook>)
    ensures kept == Kept(hooks, id) && fired == Fired(hooks, id)
  {
    hide Kept, Fired;
    kept, fired := hooks, [];
    ghost var tail: seq<Hook> := [];
    var i := |hooks|;
    assert hooks[..i] == hooks;
    while i > 0
      invariant i <= |hooks| && kept == hooks[..i] + tail
      invariant Kept(hooks, id) == Kept(hooks[..i], id) + tail
      invariant Fired(hooks, id) == fired + Fired(hooks[..i], id)
    {
      var h := kept[i - 1];
      SweepStep(hooks, i, id, tail, fired);
      if h.groupId == id {
        if h.destroys {
          fired := fired + [h];
        }
        assert kept[..i - 1] == hooks[..i - 1] && kept[i..] == tail;
        kept := kept[..i - 1] + kept[i..];
      } else {
        assert hooks[..i] + tail == hooks[..i - 1] + ([h] + tail);
        tail := [h] + tail;
      }
      i := i - 1;
    }
    assert hooks[..0] == [];
    NoHooks(id);
  }

  lemma {:induction false} NoHooks(id: nat)
    ensures Kept([], id) == [] && Fired([], id) == []
  {}

  lemma {:induction false} SweepStep(hooks: seq<Hook>, i: nat, id: nat, tail: seq<Hook>, fired: seq<Hook>)
    requires 0 < i <= |hooks|
    requires Kept(hooks, id) == Kept(hooks[..i], id) + tail && Fired(hooks, id) == fired + Fired(hooks[..i], id)
    ensures var h := hooks[i - 1];
            && Kept(hooks, id) == Kept(hooks[..i - 1], id) + (if h.groupId == id then tail else [h] + tail)
            && Fired(hooks, id) ==
                 (if h.groupId == id && h.destroys then fired + [h] else fired) + Fired(hooks[..i - 1], id)
  {
    var h, front, below := hooks[i - 1], Kept(hooks[..i - 1], id), Fired(hooks[..i - 1], id);
    assert hooks[..i][..i - 1] == hooks[..i - 1];
    if h.groupId == id {
      assert Kept(hooks[..i], id) == front + [] == front;
    } else {
      assert (front + [h]) + tail == front + ([h] + tail);
    }
    if h.groupId == id && h.destroys {
      assert fired + ([h] + below) == (fired + [h]) + below;
    } else {
      assert [] + below == below;
    }
  }

  // ------------------------------------------------------------------ the order of the calls

  predicate Due(hooks: seq<Hook>, id: nat, x: nat) {
    x < |hooks| && hooks[x].groupId == id && hooks[x].destroys
  }

  /** rs lists the hooks at the indices at. */
  predicate Lists(hooks: seq<Hook>, at: seq<nat>, rs: seq<Hook>) {
    |rs| == |at| && forall j :: 0 <= j < |at| ==> at[j] < |hooks| && rs[j] == hooks[at[j]]
  }

  /** Decreasing, and nothing from n on. */
  predicate Descending(at: seq<nat>, n: nat) {
    (forall j :: 0 <= j < |at| ==> at[j] < n) && forall j, k :: 0 <= j < k < |at| ==> at[k] < at[j]
  }

  /** Indices of the due hooks, from the last on. */
  function DueAt(hooks: seq<Hook>, id: nat, n: nat): seq<nat>
    requires n <= |hooks|
  {
    if n == 0 then [] else (if Due(hooks, id, n - 1) then [n - 1] else []) + DueAt(hooks, id, n - 1)
  }

  lemma {:induction false} DueNext(hooks: seq<Hook>, id: nat, n: nat)
    requires n < |hooks|
    ensures DueAt(hooks, id, n + 1) == if Due(hooks, id, n) then [n] + DueAt(hooks, id, n) else DueAt(hooks, id, n)
    ensures Fired(hooks[..n + 1], id) ==
            if Due(hooks, id, n) then [hooks[n]] + Fired(hooks[..n], id) else Fired(hooks[..n], id)
  {
    assert hooks[..n + 1][..n] == hooks[..n];
    assert [] + DueAt(hooks, id, n) == DueAt(hooks, id, n) && [] + Fired(hooks[..n], id) == Fired(hooks[..n], id);
  }

  lemma {:induction false} ListsPush(hooks: seq<Hook>, n: nat, at: seq<nat>, rs: seq<Hook>)
    requires n < |hooks| && Lists(hooks, at, rs)
    ensures Lists(hooks, [n] + at, [hooks[n]] + rs)
  {}

  lemma {:induction false} DescendingPush(n: nat, at: seq<nat>)
    requires Descending(at, n)
    ensures Descending([n] + at, n + 1) && Descending(at, n + 1)
  {}

  lemma {:induction false} FiresNone(hooks: seq<Hook>, id: nat)
    ensures DueAt(hooks, id, 0) == [] && Fired(hooks[..0], id) == []
  {}

  lemma {:induction false} FiresFrom(hooks: seq<Hook>, id: nat, n: nat)
    requires n <= |hooks|
    ensures Lists(hooks, DueAt(hooks, id, n), Fired(hooks[..n], id)) && Descending(DueAt(hooks, id, n), n)
  {
    hide Due, DueAt, Fired;
    if n == 0 {
      FiresNone(hooks, id);
    } else {
      hide Lists, Descending;
      FiresFrom(hooks, id, n - 1);
      DueNext(hooks, id, n - 1);
      DescendingPush(n - 1, DueAt(hooks, id, n - 1));
      ListsPush(hooks, n - 1, DueAt(hooks, id, n - 1), Fired(hooks[..n - 1], id));
    }
  }

  lemma {:induction false} DueIsListed(hooks: seq<Hook>, id: nat, n: nat, x: nat)
    requires n <= |hooks|
    ensures x in DueAt(hooks, id, n) <==> x < n && Due(hooks, id, x)
  {
    if n == 0 {
      assert DueAt(hooks, id, n) == [];
    } else {
      hide Due, DueAt;
      DueNext(hooks, id, n - 1);
      DueIsListed(hooks, id, n - 1, x);
      assert x in [n - 1] + DueAt(hooks, id, n - 1) <==> x == n - 1 || x in DueAt(hooks, id, n - 1);
    }
  }

  /** Each due hook is called once, and of two the one registered later is called earlier. */
  lemma {:induction false} FiresNewestFirst(hooks: seq<Hook>, id: nat) returns (at: seq<nat>)
    ensures Lists(hooks, at, Fired(hooks, id))
    ensures forall j, k :: 0 <= j < k < |at| ==> at[k] < at[j]
    ensures forall x: nat :: x in at <==> Due(hooks, id, x)
  {
    var n := |hooks|;
    at := DueAt(hooks, id, n);
    FiresFrom(hooks, id, n);
    assert hooks[..n] == hooks;
    hide DueAt, Fired, Lists;
    forall x: nat ensures x in at <==> Due(hooks, id, x) { DueIsListed(hooks, id, n, x); }
  }

  /** Hooks of other groups that were registered one before the other stay on record in that order. */
  lemma {:induction false} KeepsOrder(hooks: seq<Hook>, id: nat, x: nat, y: nat) returns (i: nat, j: nat)
    requires x < y < |hooks| && hooks[x].groupId != id && hooks[y].groupId != id
    ensures i < j < |Kept(hooks, id)| && Kept(hooks, id)[i] == hooks[x] && Kept(hooks, id)[j] == hooks[y]
  {
    var n := |hooks| - 1;
    if y < n {
      i, j := KeepsOrder(hooks[..n], id, x, y);
    } else {
      i := KeptAt(hooks[..n], id, x);
      j := |Kept(hooks[..n], id)|;
    }
  }

  lemma {:induction false} KeptAt(hooks: seq<Hook>, id: nat, x: nat) returns (i: nat)
    requires x < |hooks| && hooks[x].groupId != id
    ensures i < |Kept(hooks, id)| && Kept(hooks, id)[i] == hooks[x]
  {
    var n := |hooks| - 1;
    if x < n {
      i := KeptAt(hooks[..n], id, x);
    } else {
      i := |Kept(hooks[..n], id)|;
    }
  }

  // ------------------------------------------------------------------ attaching a hook

  function Register(hooks: seq<Hook>, h: Hook): seq<Hook> {
    if |hooks| >= MAX_HOOKS then hooks else hooks + [h]
  }

  /** Refreshes the first hook registered under the same group or key, or adds h. */
  function Update(hooks: seq<Hook>, h: Hook, i: nat := 0): seq<Hook>
    requires i <= |hooks|
    decreases |hooks| - i
  {
    if i == |hooks| then Register(hooks, h)
    else if hooks[i].groupId == h.groupId || hooks[i].groupKey == h.groupKey then hooks[i := h]
    else Update(hooks, h, i + 1)
  }

  predicate Alike(a: Hook, h: Hook) {
    a.groupId == h.groupId || a.groupKey == h.groupKey
  }

  /** h takes the place of the first hook with its group or key; without one it is added while there is room. */
  predicate Refreshes(hooks: seq<Hook>, h: Hook, after: seq<Hook>) {
    if exists i :: 0 <= i < |hooks| && Alike(hooks[i], h) then
      exists i {:trigger hooks[i]} :: 0 <= i < |hooks| && Alike(hooks[i], h) && after == hooks[i := h]
        && forall j :: 0 <= j < i ==> !Alike(hooks[j], h)
    else after == if |hooks| < MAX_HOOKS then hooks + [h] else hooks
  }

  lemma {:induction false} UpdateRefreshes(hooks: seq<Hook>, h: Hook, i: nat)
    requires i <= |hooks| && forall j :: 0 <= j < i ==> !Alike(hooks[j], h)
    ensures Refreshes(hooks, h, Update(hooks, h, i))
    decreases |hooks| - i
  {
    if i < |hooks| && !Alike(hooks[i], h) {
      UpdateRefreshes(hooks, h, i + 1);
    }
  }
}

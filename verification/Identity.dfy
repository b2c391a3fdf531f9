/** Which old group each call of a body is matched with, and that no identity is lost. */
module Identity {
  import opened Basics
  import opened Trees
  import opened State
  import opened Programs
  import opened Passes

  /** The records of the roots of f, in order. */
  function Roots(f: Forest): seq<Info> {
    match f
    case Nil => []
    case Tree(info, _, next) => [info] + Roots(next)
  }

  /** Identity of the n-th root of f with key k, counted from 0. */
  function NthRoot(f: Forest, k: Key, n: nat): Option<nat> {
    match f
    case Nil => None
    case Tree(info, _, next) =>
      if info.key != k then NthRoot(next, k, n)
      else if n == 0 then Some(info.id)
      else NthRoot(next, k, n - 1)
  }

  /** The keys a body calls, in order. */
  function Calls(steps: seq<Step>): seq<Key> {
    if steps == [] then []
    else (if steps[0].Call? then [steps[0].child] else []) + Calls(steps[1..])
  }

  lemma {:induction false} NoNthRoot(f: Forest, k: Key, n: nat)
    requires !HasRoot(f, k)
    ensures NthRoot(f, k, n) == None
  {
    if f.Tree? {
      NoNthRoot(f.next, k, n);
    }
  }

  lemma {:induction false} PickIsFirst(f: Forest, k: Key)
    requires HasRoot(f, k)
    ensures NthRoot(f, k, 0) == Some(Pick(f, k).info.id)
  {
    if f.info.key != k {
      PickIsFirst(f.next, k);
    }
  }

  /** Dropping the first match of k0 moves every later match of k0 one place forward. */
  lemma {:induction false} DropShifts(f: Forest, k0: Key, k: Key, n: nat)
    requires HasRoot(f, k0)
    ensures NthRoot(Drop(f, k0), k, n) == NthRoot(f, k, if k == k0 then n + 1 else n)
  {
    if f.info.key != k0 {
      if f.info.key != k {
        DropShifts(f.next, k0, k, n);
      } else if n > 0 {
        DropShifts(f.next, k0, k, n - 1);
      }
    }
  }

  // ------------------------------------------------------------------ matching

  /** How many of the first j keys equal k. */
  function CountBefore(keys: seq<Key>, j: nat, k: Key): nat
    requires j <= |keys|
  {
    if j == 0 then 0 else (if keys[0] == k then 1 else 0) + CountBefore(keys[1..], j - 1, k)
  }

  /** The record that call j gets: the old child of its turn, or a new identity. */
  predicate Matched(keys: seq<Key>, j: nat, rest: Forest, next: nat, got: Info)
    requires j < |keys|
  {
    && got.key == keys[j]
    && match NthRoot(rest, keys[j], CountBefore(keys, j, keys[j]))
       case Some(id) => got.id == id
       case None => got.id >= next
  }

  /** Whatever the reordering, the j-th call with key k gets the group of the j-th old
      child with key k when there is one, and a new group otherwise. */
  lemma {:induction false} ExecMatches(p: Program, snap: Snapshot, steps: seq<Step>, info: Info, offset: nat,
                                       rest: Forest, w: World)
    requires Ready(p, info.key, steps)
    requires !Exec(p, snap, steps, info, offset, rest, w).w.full
    ensures var r := Exec(p, snap, steps, info, offset, rest, w);
            && |Roots(r.done)| == |Calls(steps)|
            && forall j :: 0 <= j < |Calls(steps)| ==> Matched(Calls(steps), j, rest, w.next, Roots(r.done)[j])
    decreases |steps|
  {
    if steps != [] {
      if steps[0].Call? {
        var k := steps[0].child;
        assert Emits(p, info.key, k);
        var v := Visit(p, snap, k, rest, w);
        var r := Exec(p, snap, steps[1..], info, offset, v.rest, v.w);
        VisitGrows(p, snap, k, rest, w);
        ExecGrows(p, snap, steps[1..], info, offset, v.rest, v.w);
        ExecMatches(p, snap, steps[1..], info, offset, v.rest, v.w);
        var keys := Calls(steps[1..]);
        assert Calls(steps) == [k] + keys;
        assert Append(v.done, r.done) == Tree(v.done.info, v.done.kids, r.done);
        forall j | 0 <= j <= |keys| ensures Matched([k] + keys, j, rest, w.next, ([v.done.info] + Roots(r.done))[j]) {
          MatchStep(k, keys, j, rest, w, v, r.done);
        }
      } else {
        var a := Apply(steps[0], info, offset, w);
        ApplyKeeps(steps[0], info, offset, w);
        ExecMatches(p, snap, steps[1..], a.info, a.offset, rest, a.w);
        assert Calls(steps) == Calls(steps[1..]);
      }
    }
  }

  lemma {:induction false} MatchStep(k: Key, keys: seq<Key>, j: nat, rest: Forest, w: World, v: Visited, done: Forest)
    requires v.done.Tree? && Yields(k, rest, w, v) && w.next <= v.w.next
    requires v.rest == if HasRoot(rest, k) then Drop(rest, k) else rest
    requires j <= |keys| == |Roots(done)|
    requires j > 0 ==> Matched(keys, j - 1, v.rest, v.w.next, Roots(done)[j - 1])
    ensures Matched([k] + keys, j, rest, w.next, ([v.done.info] + Roots(done))[j])
  {
    var all := [k] + keys;
    assert all[1..] == keys;
    if j == 0 {
      if HasRoot(rest, k) { PickIsFirst(rest, k); } else { NoNthRoot(rest, k, 0); }
    } else {
      var kj := keys[j - 1];
      var n := CountBefore(keys, j - 1, kj);
      assert all[j] == kj && CountBefore(all, j, kj) == (if k == kj then 1 else 0) + n;
      if HasRoot(rest, k) {
        DropShifts(rest, k, kj, n);
      } else if k == kj {
        NoNthRoot(rest, k, n);
        NoNthRoot(rest, k, n + 1);
      }
    }
  }
}

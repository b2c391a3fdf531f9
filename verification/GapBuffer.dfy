/** The group table of a session: a gap buffer of group records. */
module GapBuffer {
  import opened Basics
  import opened Trees

  /** s with the n elements at index from moved back to index to. */
  function MovedBack<T>(s: seq<T>, to: nat, from: nat, n: nat): (r: seq<T>)
    requires to <= from && from + n <= |s|
    ensures |r| == |s|
  {
    seq(|s|, x requires 0 <= x < |s| =>
      s[if to <= x < to + n then from + (x - to) else if to + n <= x < from + n then x - n else x])
  }

  class GroupTable {
    const groups: array<Group>
    var gapStart: nat
    var gapEnd: nat

    /** The logical sequence of groups: the array without its gap. */
    ghost var view: seq<Group>

    ghost predicate Valid()
      reads this, groups
    {
      && gapStart <= gapEnd <= groups.Length
      && |view| == gapStart + (groups.Length - gapEnd)
      && (forall i {:trigger groups[i]} :: 0 <= i < gapStart ==> groups[i] == view[i])
      && (forall i {:trigger groups[i]} :: gapEnd <= i < groups.Length ==> groups[i] == view[i - (gapEnd - gapStart)])
    }

    constructor (capacity: nat)
      ensures Valid() && fresh(groups)
      ensures view == [] && groups.Length == capacity
    {
      groups := new Group[capacity];
      gapStart, gapEnd := 0, capacity;
      view := [];
    }

    function Count(): (n: nat)
      requires Valid()
      reads this, groups
      ensures n == |view|
    {
      groups.Length - (gapEnd - gapStart)
    }

    function Physical(logical: nat): nat
      requires Valid()
      reads this, groups
    {
      if logical < gapStart then logical else logical + (gapEnd - gapStart)
    }

    function Get(logical: nat): (g: Group)
      requires Valid() && logical < |view|
      reads this, groups
      ensures g == view[logical]
    {
      groups[Physical(logical)]
    }

    method Set(logical: nat, g: Group)
      requires Valid() && logical < |view|
      modifies this`view, groups
      ensures Valid() && view == old(view)[logical := g]
    {
      groups[Physical(logical)] := g;
      view := view[logical := g];
    }

    /** Moves the gap; the logical sequence stays as it is. */
    method MoveGap(target: nat)
      requires Valid() && target <= |view|
      modifies this`gapStart, this`gapEnd, groups
      ensures Valid() && gapStart == target
      ensures gapEnd - gapStart == old(gapEnd - gapStart) && view == old(view)
    {
      if target < gapStart {
        var delta := gapStart - target;
        forall k | 0 <= k < delta {
          groups[gapEnd - delta + k] := groups[target + k];
        }
        gapStart, gapEnd := gapStart - delta, gapEnd - delta;
      } else if target > gapStart {
        var delta := target - gapStart;
        forall k | 0 <= k < delta {
          groups[gapStart + k] := groups[gapEnd + k];
        }
        gapStart, gapEnd := gapStart + delta, gapEnd + delta;
      }
    }

    /** Writes g at the start of the gap. */
    method Insert(g: Group)
      requires Valid() && |view| < groups.Length
      modifies this`gapStart, this`view, groups
      ensures Valid() && gapStart == old(gapStart) + 1
      ensures view == InsertedAt(old(view), old(gapStart), g)
    {
      groups[gapStart] := g;
      view := InsertedAt(view, gapStart, g);
      gapStart := gapStart + 1;
    }

    /** Closes up the n records at index at; the gap must follow the last record. */
    method Remove(at: nat, n: nat)
      requires Valid() && gapStart == |view| && at + n <= |view|
      modifies this`gapStart, this`view, groups
      ensures Valid() && gapStart == |view|
      ensures view == RemovedAt(old(view), at, n)
    {
      var tail := gapStart - at - n;
      forall k | 0 <= k < tail {
        groups[at + k] := groups[at + n + k];
      }
      view := RemovedAt(view, at, n);
      gapStart := gapStart - n;
    }

    /** Copies n records of src, which starts at index s, to index d; the ranges may overlap. */
    method Copy(d: nat, src: array<Group>, s: nat, n: nat)
      requires d + n <= groups.Length && s + n <= src.Length
      modifies groups
      ensures Copied(old(groups[..]), d, old(src[..]), s, n, groups[..])
    {
      forall k | 0 <= k < n {
        groups[d + k] := src[s + k];
      }
    }

    /** A copy of n records from index from on. */
    method Scratch(from: nat, n: nat) returns (moved: array<Group>)
      requires from + n <= groups.Length
      ensures fresh(moved) && moved[..] == groups[from..from + n]
    {
      moved := new Group[n](i requires 0 <= i < n reads groups => groups[from + i]);
    }

    /** Rotates n records of the array through a scratch copy. */
    method RotateRecords(to: nat, from: nat, n: nat)
      requires to <= from && from + n <= groups.Length
      modifies groups
      ensures groups[..] == MovedBack(old(groups[..]), to, from, n)
    {
      hide MovedBack, Copied;
      ghost var s := groups[..];
      var moved := Scratch(from, n);
      Copy(to + n, groups, to, from - to);
      ghost var s1 := groups[..];
      Copy(to, moved, 0, n);
      RotatedCopies(s, s1, groups[..], moved[..], to, from, n);
    }

    /** Rotates the n records at index from back to index to; the gap must follow the last record. */
    method Rotate(to: nat, from: nat, n: nat)
      requires Valid() && gapStart == |view| && to <= from && from + n <= |view|
      modifies this`view, groups
      ensures Valid()
      ensures view == MovedBack(old(view), to, from, n)
    {
      hide MovedBack;
      ghost var s, was := groups[..], view;
      assert forall k {:trigger s[k]} :: 0 <= k < |was| ==> s[k] == was[k];
      RotatedView(s, was, to, from, n);
      RotateRecords(to, from, n);
      view := MovedBack(was, to, from, n);
      forall i {:trigger groups[i]} | 0 <= i < gapStart ensures groups[i] == view[i] {
        assert groups[i] == groups[..][i];
      }
    }
  }

  /** r is s with n elements of src, from index i on, copied over index d. */
  ghost predicate Copied<T>(s: seq<T>, d: nat, src: seq<T>, i: nat, n: nat, r: seq<T>)
    requires d + n <= |s| && i + n <= |src|
  {
    |r| == |s| && forall k {:trigger r[k]} :: 0 <= k < |r| ==> r[k] == if d <= k < d + n then src[i + (k - d)] else s[k]
  }

  /** Rotating records in front of the gap rotates the view. */
  lemma {:induction false} RotatedView<T>(s: seq<T>, view: seq<T>, to: nat, from: nat, n: nat)
    requires to <= from && from + n <= |view| <= |s| && forall k {:trigger s[k]} :: 0 <= k < |view| ==> s[k] == view[k]
    ensures |MovedBack(view, to, from, n)| == |view| && |MovedBack(s, to, from, n)| == |s|
    ensures forall k {:trigger MovedBack(s, to, from, n)[k]} :: 0 <= k < |view| ==>
              MovedBack(s, to, from, n)[k] == MovedBack(view, to, from, n)[k]
  {}

  lemma {:induction false} RotatedCopies<T>(s: seq<T>, s1: seq<T>, r: seq<T>, moved: seq<T>, to: nat, from: nat, n: nat)
    requires to <= from && from + n <= |s| && moved == s[from..from + n]
    requires Copied(s, to + n, s, to, from - to, s1) && Copied(s1, to, moved, 0, n, r)
    ensures r == MovedBack(s, to, from, n)
  {
    forall k | 0 <= k < |r| ensures r[k] == MovedBack(s, to, from, n)[k] {
      if !(to <= k < to + n) {
        assert r[k] == s1[k];
      }
    }
  }
}

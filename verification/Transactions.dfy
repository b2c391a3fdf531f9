/** Transaction batches: staging operations with their payloads, and replaying them. */
module Transactions {
  import opened Basics

  type Byte = x: int | 0 <= x < 256

  const MAX_OPS: nat := 1024
  const DATA_SIZE: nat := 32 * 1024
  const OP_SET: nat := 1

  /** A staging request.  A put carries size bytes, or none when its data pointer is null. */
  datatype Request =
    | Put(code: nat, target: nat, typeKey: nat, size: nat, bytes: Option<seq<Byte>>)
    | Mark(code: nat, target: nat, typeKey: nat)

  predicate Proper(r: Request) {
    r.Put? && r.bytes.Some? ==> |r.bytes.value| == r.size
  }

  function SizeOf(r: Request): nat {
    if r.Put? then r.size else 0
  }

  /** The bytes that staging r stores. */
  function BytesOf(r: Request): seq<Byte> {
    if r.Put? && r.size > 0 && r.bytes.Some? then r.bytes.value else []
  }

  /** A staged operation as stored. */
  datatype Op = Op(code: nat, size: nat, target: nat, typeKey: nat, offset: nat)

  datatype Content = Content(ops: seq<Op>, data: seq<Byte>, used: nat)

  /** An operation as the handler receives it. */
  datatype Handed = Handed(code: nat, target: nat, typeKey: nat, payload: Option<seq<Byte>>)

  // ------------------------------------------------------------------ staging and replay

  function Written(data: seq<Byte>, at: nat, bytes: seq<Byte>): (r: seq<Byte>)
    requires at + |bytes| <= |data|
    ensures |r| == |data|
  {
    seq(|data|, i requires 0 <= i < |data| => if at <= i < at + |bytes| then bytes[i - at] else data[i])
  }

  function OpFor(r: Request, used: nat): Op {
    match r
    case Put(code, target, typeKey, size, _) => Op(code, size, target, typeKey, used)
    case Mark(code, target, typeKey) => Op(code, 0, target, typeKey, 0)
  }

  predicate Fits(c: Content, r: Request) {
    |c.ops| < MAX_OPS && (r.Put? ==> c.used + r.size <= DATA_SIZE)
  }

  predicate Bounded(c: Content) {
    && |c.data| == DATA_SIZE && c.used <= DATA_SIZE && |c.ops| <= MAX_OPS
    && forall i :: 0 <= i < |c.ops| ==> c.ops[i].offset + c.ops[i].size <= DATA_SIZE
  }

  /** The batch after a staging request, which is refused when it does not fit. */
  function Staged(c: Content, r: Request): (c': Content)
    requires Bounded(c) && Proper(r)
    ensures Bounded(c')
  {
    if !Fits(c, r) then c
    else
      var b := BytesOf(r);
      Content(c.ops + [OpFor(r, c.used)], Written(c.data, c.used, b), c.used + |b|)
  }

  /** What the handler is given for operation i. */
  function HandedAt(c: Content, i: nat): Handed
    requires Bounded(c) && i < |c.ops|
  {
    var op := c.ops[i];
    Handed(op.code, op.target, op.typeKey, if op.size > 0 then Some(c.data[op.offset..op.offset + op.size]) else None)
  }

  function Replay(c: Content): (hs: seq<Handed>)
    requires Bounded(c)
    ensures |hs| == |c.ops|
  {
    seq(|c.ops|, i requires 0 <= i < |c.ops| => HandedAt(c, i))
  }

  /** What the caller of a request means the handler to receive. */
  function Intended(r: Request): Handed {
    match r
    case Put(code, target, typeKey, size, bytes) => Handed(code, target, typeKey, if size > 0 then bytes else None)
    case Mark(code, target, typeKey) => Handed(code, target, typeKey, None)
  }

  /** The request does not claim bytes that it does not bring. */
  predicate Whole(r: Request) {
    SizeOf(r) > 0 ==> r.bytes.Some?
  }

  function StageAll(c: Content, rs: seq<Request>): (c': Content)
    requires Bounded(c) && forall i :: 0 <= i < |rs| ==> Proper(rs[i])
    ensures Bounded(c')
    decreases |rs|
  {
    if rs == [] then c else StageAll(Staged(c, rs[0]), rs[1..])
  }

  /** The requests that were not refused, in order. */
  function Accepted(c: Content, rs: seq<Request>): (r: seq<Request>)
    requires Bounded(c) && forall i :: 0 <= i < |rs| ==> Proper(rs[i])
    decreases |rs|
  {
    if rs == [] then []
    else (if Fits(c, rs[0]) then [rs[0]] else []) + Accepted(Staged(c, rs[0]), rs[1..])
  }

  /** The batch holds the requests of log. */
  ghost predicate Mirrors(c: Content, log: seq<Request>) {
    && Bounded(c) && |log| == |c.ops|
    && forall i {:trigger log[i]} :: 0 <= i < |log| ==> Held(c, c.ops[i], log[i])
  }

  predicate Held(c: Content, op: Op, r: Request)
    requires Bounded(c)
  {
    && op == OpFor(r, op.offset) && Proper(r) && op.offset + |BytesOf(r)| <= c.used
    && c.data[op.offset..op.offset + |BytesOf(r)|] == BytesOf(r)
  }

  lemma {:induction false} HeldLater(c: Content, op: Op, r: Request, next: Request)
    requires Bounded(c) && Held(c, op, r) && Proper(next)
    ensures Held(Staged(c, next), op, r)
  {
    var c', n := Staged(c, next), |BytesOf(r)|;
    assert c'.data[op.offset..op.offset + n] == c.data[op.offset..op.offset + n];
  }

  lemma {:induction false} StageMirrors(c: Content, log: seq<Request>, r: Request)
    requires Mirrors(c, log) && Proper(r)
    ensures Mirrors(Staged(c, r), if Fits(c, r) then log + [r] else log)
  {
    if Fits(c, r) {
      var c', log' := Staged(c, r), log + [r];
      forall i {:trigger log'[i]} | 0 <= i < |log'| ensures Held(c', c'.ops[i], log'[i]) {
        if i < |log| {
          assert log'[i] == log[i];
          HeldLater(c, c.ops[i], log[i], r);
        } else {
          assert c'.data[c.used..c.used + |BytesOf(r)|] == BytesOf(r);
        }
      }
    }
  }

  lemma {:induction false} StageAllMirrors(c: Content, log: seq<Request>, rs: seq<Request>)
    requires Mirrors(c, log) && forall i :: 0 <= i < |rs| ==> Proper(rs[i])
    ensures Mirrors(StageAll(c, rs), log + Accepted(c, rs))
    decreases |rs|
  {
    if rs == [] {
      assert log + [] == log;
    } else {
      var log1 := if Fits(c, rs[0]) then log + [rs[0]] else log;
      var rest := Accepted(Staged(c, rs[0]), rs[1..]);
      assert log + Accepted(c, rs) == log1 + rest by {
        if Fits(c, rs[0]) {
          assert Accepted(c, rs) == [rs[0]] + rest;
        } else {
          assert Accepted(c, rs) == [] + rest == rest;
        }
      }
      StageMirrors(c, log, rs[0]);
      StageAllMirrors(Staged(c, rs[0]), log1, rs[1..]);
    }
  }

  /** A commit hands over exactly the accepted operations, in staging order; each is what its
      caller meant if and only if it brought the bytes it claimed. */
  lemma {:induction false} CommitReplays(data: seq<Byte>, rs: seq<Request>)
    requires |data| == DATA_SIZE && forall i :: 0 <= i < |rs| ==> Proper(rs[i])
    ensures var c := Content([], data, 0);
            var hs, accepted := Replay(StageAll(c, rs)), Accepted(c, rs);
            && |hs| == |accepted|
            && forall i :: 0 <= i < |hs| ==> (hs[i] == Intended(accepted[i]) <==> Whole(accepted[i]))
  {
    var c := Content([], data, 0);
    StageAllMirrors(c, [], rs);
    var c', accepted := StageAll(c, rs), Accepted(c, rs);
    assert [] + accepted == accepted;
    forall i | 0 <= i < |accepted| ensures HandedAt(c', i) == Intended(accepted[i]) <==> Whole(accepted[i]) {
      HandsOver(c', accepted, i);
    }
  }

  lemma {:induction false} HandsOver(c: Content, log: seq<Request>, i: nat)
    requires Mirrors(c, log) && i < |log|
    ensures HandedAt(c, i) == Intended(log[i]) <==> Whole(log[i])
  {
    assert Held(c, c.ops[i], log[i]);
  }

  function Total(rs: seq<Request>): nat {
    if rs == [] then 0 else SizeOf(rs[0]) + Total(rs[1..])
  }

  /** Requests that bring the bytes they claim are all accepted if and only if there is room for their
      operations and for their bytes. */
  lemma {:induction false} AllAcceptedIff(c: Content, rs: seq<Request>)
    requires Bounded(c) && forall i :: 0 <= i < |rs| ==> Proper(rs[i]) && Whole(rs[i])
    ensures |Accepted(c, rs)| <= |rs|
    ensures Accepted(c, rs) == rs <==> |c.ops| + |rs| <= MAX_OPS && c.used + Total(rs) <= DATA_SIZE
    decreases |rs|
  {
    if rs != [] {
      var r, rest := rs[0], rs[1..];
      var accepted := Accepted(Staged(c, r), rest);
      AllAcceptedIff(Staged(c, r), rest);
      if Fits(c, r) {
        assert rs == [r] + rest && Accepted(c, rs) == [r] + accepted;
        assert Accepted(c, rs) == rs ==> accepted == Accepted(c, rs)[1..] == rest;
      } else {
        assert Accepted(c, rs) == [] + accepted == accepted;
      }
    }
  }

  /** The payload of a request that brought its bytes is written over by no later one. */
  lemma {:induction false} PayloadsDisjoint(c: Content, r: Request, rs: seq<Request>, j: nat)
    requires Bounded(c) && Proper(r) && Whole(r) && Fits(c, r) && forall i :: 0 <= i < |rs| ==> Proper(rs[i])
    requires |c.ops| < j < |StageAll(Staged(c, r), rs).ops|
    ensures var ops, i := StageAll(Staged(c, r), rs).ops, |c.ops|;
            ops[i] == OpFor(r, c.used) && (ops[j].size > 0 ==> ops[i].offset + ops[i].size <= ops[j].offset)
  {
    var c1 := Staged(c, r);
    var lo := c1.used;
    LaterOps(c1, rs, |c1.ops|, lo);
    LaterOps(c1, rs, |c.ops|, 0);
  }

  /** Operations staged later are appended, and put their payloads at or after `lo`. */
  lemma {:induction false} LaterOps(c: Content, rs: seq<Request>, n: nat, lo: nat)
    requires Bounded(c) && n <= |c.ops| && lo <= c.used && forall i :: 0 <= i < |rs| ==> Proper(rs[i])
    requires forall j :: n <= j < |c.ops| && c.ops[j].size > 0 ==> lo <= c.ops[j].offset
    ensures var c' := StageAll(c, rs);
            && |c.ops| <= |c'.ops| && c'.ops[..|c.ops|] == c.ops && c.used <= c'.used
            && forall j :: n <= j < |c'.ops| && c'.ops[j].size > 0 ==> lo <= c'.ops[j].offset
    decreases |rs|
  {
    if rs != [] {
      var c1, c' := Staged(c, rs[0]), StageAll(c, rs);
      LaterOps(c1, rs[1..], n, lo);
      assert c'.ops[..|c1.ops|][..|c.ops|] == c'.ops[..|c.ops|];
    }
  }

  /** A request that claims bytes it does not bring shares its range with the next payload. */
  lemma {:induction false} NullPayloadAliases(data: seq<Byte>)
    requires |data| == DATA_SIZE
    ensures var rs := [Put(OP_SET, 1, 1, 1, None), Put(OP_SET, 2, 1, 1, Some([7]))];
            var c := StageAll(Content([], data, 0), rs);
            |c.ops| == 2 && c.ops[0].offset == c.ops[1].offset && Replay(c)[0].payload == Some([7])
  {
    var r0, r1 := Put(OP_SET, 1, 1, 1, None), Put(OP_SET, 2, 1, 1, Some([7]));
    var c0 := Content([], data, 0);
    var c1 := Staged(c0, r0);
    var c2 := Staged(c1, r1);
    assert [r0, r1][1..] == [r1] && [r1][1..] == [];
    assert StageAll(c2, []) == c2;
    assert StageAll(c1, [r1]) == c2;
    assert StageAll(c0, [r0, r1]) == c2;
    assert c2.data[0..1] == [7];
  }

  // ------------------------------------------------------------------ handoff

  /** The batch being filled and the batch being consumed. */
  datatype Pair = Pair(active: Content, ready: Content)

  datatype Act = Staging(r: Request) | Committing | Swapping | Clearing

  function Emptied(c: Content): Content {
    Content([], c.data, 0)
  }

  function Do(p: Pair, a: Act): (p': Pair)
    requires Bounded(p.active) && Bounded(p.ready) && (a.Staging? ==> Proper(a.r))
    ensures Bounded(p'.active) && Bounded(p'.ready)
  {
    match a
    case Staging(r) => p.(active := Staged(p.active, r))
    case Committing => p.(active := Emptied(p.active))
    case Swapping => Pair(Emptied(p.ready), p.active)
    case Clearing => p.(ready := Emptied(p.ready))
  }

  function DoAll(p: Pair, acts: seq<Act>): (p': Pair)
    requires Bounded(p.active) && Bounded(p.ready) && forall i :: 0 <= i < |acts| && acts[i].Staging? ==>
             Proper(acts[i].r)
    ensures Bounded(p'.active) && Bounded(p'.ready)
    decreases |acts|
  {
    if acts == [] then p else DoAll(Do(p, acts[0]), acts[1..])
  }

  /** After a swap the batch that was filled is the one to consume, and nothing staged or
      committed afterwards changes it until it is cleared or the batches are swapped again. */
  lemma {:induction false} ReadyIsStable(p: Pair, acts: seq<Act>)
    requires Bounded(p.active) && Bounded(p.ready) && forall i :: 0 <= i < |acts| && acts[i].Staging? ==>
             Proper(acts[i].r)
    requires forall i :: 0 <= i < |acts| ==> !acts[i].Swapping? && !acts[i].Clearing?
    ensures DoAll(Do(p, Swapping), acts).ready == p.active
  {
    StaysReady(Do(p, Swapping), acts);
  }

  lemma {:induction false} StaysReady(p: Pair, acts: seq<Act>)
    requires Bounded(p.active) && Bounded(p.ready) && forall i :: 0 <= i < |acts| && acts[i].Staging? ==>
             Proper(acts[i].r)
    requires forall i :: 0 <= i < |acts| ==> !acts[i].Swapping? && !acts[i].Clearing?
    ensures DoAll(p, acts).ready == p.ready
    decreases |acts|
  {
    if acts != [] {
      StaysReady(Do(p, acts[0]), acts[1..]);
    }
  }

  // ------------------------------------------------------------------ the batches in place

  class Batch {
    var ops: seq<Op>
    const data: array<Byte>
    var dataSize: nat

    constructor ()
      ensures fresh(data) && View().ops == [] && View().used == 0 && Bounded(View())
    {
      ops, dataSize := [], 0;
      data := new Byte[DATA_SIZE](_ => 0);
    }

    ghost function View(): Content
      reads this, data
    {
      Content(ops, data[..], dataSize)
    }

    /** Stages one operation; ok is false when the batch is full. */
    method Stage(r: Request) returns (ok: bool)
      requires Bounded(View()) && Proper(r)
      modifies this, data
      ensures View() == Staged(old(View()), r) && ok == Fits(old(View()), r)
      ensures ok <==> |old(ops)| < 1024 && (r.Put? ==> old(dataSize) + r.size <= 32768)
      ensures ok ==> |ops| == |old(ops)| + 1 && ops[..|old(ops)|] == old(ops)
      ensures !ok ==> View() == old(View())
    {
      if |ops| >= MAX_OPS {
        return false;
      }
      match r {
        case Put(code, target, typeKey, size, bytes) =>
          if dataSize + size > DATA_SIZE {
            return false;
          }
          var offset := dataSize;
          if size > 0 && bytes.Some? {
            forall k | 0 <= k < size {
              data[offset + k] := bytes.value[k];
            }
            dataSize := dataSize + size;
          }
          ops := ops + [Op(code, size, target, typeKey, offset)];
        case Mark(code, target, typeKey) =>
          ops := ops + [Op(code, 0, target, typeKey, 0)];
      }
      assert data[..] == Written(old(data[..]), old(dataSize), BytesOf(r));
      return true;
    }

    /** Hands every operation over in order and empties the batch. */
    method Commit() returns (handed: seq<Handed>)
      requires Bounded(View())
      modifies this`ops, this`dataSize
      ensures handed == Replay(old(View())) && View() == Emptied(old(View()))
      ensures ops == [] && dataSize == 0 && |handed| == |old(ops)|
    {
      handed := [];
      var i := 0;
      while i < |ops|
        invariant i <= |ops| && handed == Replay(View())[..i]
      {
        var op := ops[i];
        var payload := if op.size > 0 then Some(data[op.offset..op.offset + op.size]) else None;
        assert data[..][op.offset..op.offset + op.size] == data[op.offset..op.offset + op.size];
        handed := handed + [Handed(op.code, op.target, op.typeKey, payload)];
        i := i + 1;
      }
      Clear();
    }

    method Clear()
      modifies this`ops, this`dataSize
      ensures View() == Emptied(old(View()))
      ensures ops == [] && dataSize == 0
    {
      ops, dataSize := [], 0;
    }
  }

  class TransactionQueue {
    const batches: seq<Batch>
    var activeIndex: nat

    ghost predicate Valid()
      reads this, set b | b in batches, set b | b in batches :: b.data
    {
      && |batches| == 2 && activeIndex < 2 && batches[0] != batches[1] && batches[0].data != batches[1].data
      && Bounded(batches[0].View()) && Bounded(batches[1].View())
    }

    ghost function Both(): Pair
      requires Valid()
      reads this, set b | b in batches, set b | b in batches :: b.data
    {
      Pair(batches[activeIndex].View(), batches[1 - activeIndex].View())
    }

    constructor ()
      ensures Valid() && Both().active.ops == [] && Both().ready.ops == []
    {
      var first := new Batch();
      var second := new Batch();
      batches, activeIndex := [first, second], 0;
    }

    method Stage(r: Request) returns (ok: bool)
      requires Valid() && Proper(r)
      modifies batches[activeIndex], batches[activeIndex].data
      ensures Valid() && Both() == Do(old(Both()), Staging(r)) && ok == Fits(old(Both()).active, r)
      ensures Both().ready == old(Both()).ready
    {
      ok := batches[activeIndex].Stage(r);
    }

    method Commit() returns (handed: seq<Handed>)
      requires Valid()
      modifies batches[activeIndex]
      ensures Valid() && Both() == Do(old(Both()), Committing) && handed == Replay(old(Both()).active)
      ensures Both().active.ops == [] && Both().active.used == 0 && Both().ready == old(Both()).ready
    {
      handed := batches[activeIndex].Commit();
    }

    method Swap()
      requires Valid()
      modifies this, batches[1 - activeIndex]
      ensures Valid() && Both() == Do(old(Both()), Swapping)
      ensures Both().active.ops == [] && Both().active.used == 0 && Both().ready == old(Both()).active
    {
      activeIndex := 1 - activeIndex;
      batches[activeIndex].Clear();
    }

    method ClearReady()
      requires Valid()
      modifies batches[1 - activeIndex]
      ensures Valid() && Both() == Do(old(Both()), Clearing)
      ensures Both().ready.ops == [] && Both().ready.used == 0 && Both().active == old(Both()).active
    {
      batches[1 - activeIndex].Clear();
    }
  }
}
